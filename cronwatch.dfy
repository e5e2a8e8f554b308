/** The checks of cronwatch.py: `filter_text`, which finds the lines of a job's output that
    patterns match, `compile_re`, and `verify_config`, which checks the settings of every
    section of a configuration read with the trunk/simpleconfig.py library and compiles its
    pattern settings in place. The regular-expression engine is not part of this model: it is
    passed in as an `Engine`. */
module Cronwatch {
  import opened Wrappers
  import opened Sorting
  import opened Values
  import Lib = TrunkSimpleConfig

  /** The regular-expression engine: `compileError(p)` is the message `re.compile(p)` raises
      (None when `p` compiles), and `search(p, line)` holds when an unanchored search for `p`
      succeeds in `line`. */
  datatype Engine = Engine(compileError: string -> Option<string>, search: (string, string) -> bool)

  /** The exceptions the checks raise or let through: cronwatch's own `Error`, a `TypeError`,
      the `re.error` of a pattern that does not compile, and the configuration library's
      errors. */
  datatype Exception =
    | Error(msg: string)
    | TypeError(msg: string)
    | RegexError(msg: string)
    | LibraryError(error: Lib.Error)
  {
    /** `str(e)` */
    function Str(): string {
      match this
      case Error(m) => m
      case TypeError(m) => m
      case RegexError(m) => m
      case LibraryError(e) => e.Message()
    }
  }

  // ---------------------------------------------------------------------------------------
  // filter_text
  // ---------------------------------------------------------------------------------------

  /** The first argument of `filter_text`: one pattern, or a list of them. */
  datatype Patterns = One(pattern: string) | Many(patterns: seq<string>)
  {
    /** A single pattern is treated as a list of one. */
    function AsList(): seq<string> {
      match this
      case One(p) => [p]
      case Many(ps) => ps
    }
  }

  /** The indices of the lines in which `p` is found, in ascending order. */
  function MatchingLines(search: (string, string) -> bool, p: string, lines: seq<string>): (r: seq<nat>)
    ensures forall k :: 0 <= k < |r| ==> r[k] < |lines|
    ensures forall a, b :: 0 <= a < b < |r| ==> r[a] < r[b]
    decreases |lines|
  {
    if lines == [] then []
    else
      var last := |lines| - 1;
      MatchingLines(search, p, lines[..last]) + if search(p, lines[last]) then [last] else []
  }

  /** A line index is listed exactly when the pattern is found in that line. */
  lemma {:induction false} MatchingLinesExactly(search: (string, string) -> bool, p: string, lines: seq<string>, i: int)
    ensures i in MatchingLines(search, p, lines) <==> 0 <= i < |lines| && search(p, lines[i])
    decreases |lines|
  {
    if lines != [] {
      var last := |lines| - 1;
      MatchingLinesExactly(search, p, lines[..last], i);
      if 0 <= i < last {
        assert lines[..last][i] == lines[i];
      }
    }
  }

  /** The first pattern of `ps` that does not compile, with the engine's message. */
  function FirstInvalid(compileError: string -> Option<string>, ps: seq<string>): (r: Option<(string, string)>)
    ensures r.Some? ==> r.value.0 in ps && compileError(r.value.0) == Some(r.value.1)
    ensures r.None? <==> forall p :: p in ps ==> compileError(p).None?
    decreases |ps|
  {
    if ps == [] then None
    else
      var earlier := FirstInvalid(compileError, ps[..|ps| - 1]);
      if earlier.Some? then earlier
      else if compileError(ps[|ps| - 1]).Some? then Some((ps[|ps| - 1], compileError(ps[|ps| - 1]).value))
      else None
  }

  /** The pattern `FirstInvalid` reports comes before every other pattern that does not
      compile. */
  lemma {:induction false} FirstInvalidIsFirst(compileError: string -> Option<string>, ps: seq<string>)
    requires FirstInvalid(compileError, ps).Some?
    ensures exists j :: 0 <= j < |ps| && ps[j] == FirstInvalid(compileError, ps).value.0 &&
                        forall k :: 0 <= k < j ==> compileError(ps[k]).None?
    decreases |ps|
  {
    var init := ps[..|ps| - 1];
    if FirstInvalid(compileError, init).Some? {
      FirstInvalidIsFirst(compileError, init);
      var j :| 0 <= j < |init| && init[j] == FirstInvalid(compileError, init).value.0 &&
        forall k :: 0 <= k < j ==> compileError(init[k]).None?;
      assert forall k :: 0 <= k < j ==> ps[k] == init[k];
    } else {
      assert forall k :: 0 <= k < |ps| - 1 ==> ps[k] in init;
    }
  }

  /** `'invalid regex "%s": %s'` */
  function InvalidRegexMessage(p: string, detail: string): string {
    "invalid regex \"" + p + "\": " + detail
  }

  /** What `filter_text(rx, fh)` returns or raises, for the lines `fh` yields: every pattern is
      compiled first, and the first that does not compile raises; otherwise each pattern maps
      to the lines it is found in. */
  function Filtered(engine: Engine, rx: Patterns, lines: seq<string>): Result<map<string, seq<nat>>, Exception> {
    var ps := rx.AsList();
    match FirstInvalid(engine.compileError, ps)
    case Some(bad) => Failure(Error(InvalidRegexMessage(bad.0, bad.1)))
    case None => Success(map p | p in ps :: MatchingLines(engine.search, p, lines))
  }

  /** `filter_text` raises exactly when a pattern does not compile, whatever the lines, and
      names the first such pattern of the list. */
  lemma FilteredFailure(engine: Engine, rx: Patterns, lines: seq<string>)
    ensures Filtered(engine, rx, lines).Failure? <==> exists p :: p in rx.AsList() && engine.compileError(p).Some?
    ensures Filtered(engine, rx, lines).Failure? ==>
      exists j :: 0 <= j < |rx.AsList()| &&
        engine.compileError(rx.AsList()[j]).Some? &&
        Filtered(engine, rx, lines).error ==
          Error(InvalidRegexMessage(rx.AsList()[j], engine.compileError(rx.AsList()[j]).value)) &&
        forall k :: 0 <= k < j ==> engine.compileError(rx.AsList()[k]).None?
  {
    if FirstInvalid(engine.compileError, rx.AsList()).Some? {
      FirstInvalidIsFirst(engine.compileError, rx.AsList());
    }
  }

  /** When every pattern compiles, the result has one key per distinct pattern, and each
      pattern's list holds, in ascending order, exactly the indices of the lines it is found
      in (an empty list when there are none). */
  lemma FilteredResult(engine: Engine, rx: Patterns, lines: seq<string>, p: string, i: int)
    requires Filtered(engine, rx, lines).Success?
    ensures Filtered(engine, rx, lines).value.Keys == set q | q in rx.AsList()
    ensures p in rx.AsList() ==>
      (i in Filtered(engine, rx, lines).value[p] <==> 0 <= i < |lines| && engine.search(p, lines[i]))
    ensures p in rx.AsList() ==>
      var found := Filtered(engine, rx, lines).value[p];
      forall a, b :: 0 <= a < b < |found| ==> found[a] < found[b]
  {
    MatchingLinesExactly(engine.search, p, lines, i);
  }

  /** The inner loop of `filter_text` on line `i`: every pattern found in `line` gets `i`
      appended to its list, in whatever order the dictionary yields the patterns. */
  method SearchLine(search: (string, string) -> bool, results: map<string, seq<nat>>, line: string, i: nat)
    returns (next: map<string, seq<nat>>)
    ensures next.Keys == results.Keys
    ensures forall p :: p in results ==> next[p] == results[p] + if search(p, line) then [i] else []
  {
    next := results;
    var todo := results.Keys;
    while todo != {}
      invariant todo <= results.Keys && next.Keys == results.Keys
      invariant forall p :: p in results && p in todo ==> next[p] == results[p]
      invariant forall p :: p in results && p !in todo ==>
        next[p] == results[p] + if search(p, line) then [i] else []
      decreases todo
    {
      var p :| p in todo;
      if search(p, line) {
        next := next[p := next[p] + [i]];
      }
      todo := todo - {p};
    }
  }

  /** The first loop of `filter_text`: each pattern is compiled in turn and given an empty
      list; the first that does not compile raises. */
  method CompileEach(compileError: string -> Option<string>, ps: seq<string>)
    returns (r: Result<map<string, seq<nat>>, Exception>)
    ensures r.Failure? <==> FirstInvalid(compileError, ps).Some?
    ensures r.Failure? ==>
      r.error == Error(InvalidRegexMessage(FirstInvalid(compileError, ps).value.0, FirstInvalid(compileError, ps).value.1))
    ensures r.Success? ==> r.value == map p | p in ps :: []
  {
    var results: map<string, seq<nat>> := map[];
    for j := 0 to |ps|
      invariant FirstInvalid(compileError, ps[..j]).None?
      invariant results == map p | p in ps[..j] :: []
    {
      assert ps[..j + 1][..j] == ps[..j];
      var e := compileError(ps[j]);
      if e.Some? {
        FirstInvalidExtends(compileError, ps, j + 1);
        return Failure(Error(InvalidRegexMessage(ps[j], e.value)));
      }
      results := results[ps[j] := []];
    }
    assert ps[..|ps|] == ps;
    return Success(results);
  }

  /** The second loop of `filter_text`: every line, in order, is searched for every pattern. */
  method SearchEach(search: (string, string) -> bool, start: map<string, seq<nat>>, lines: seq<string>)
    returns (results: map<string, seq<nat>>)
    requires forall p :: p in start ==> start[p] == []
    ensures results.Keys == start.Keys
    ensures forall p :: p in results ==> results[p] == MatchingLines(search, p, lines)
  {
    results := start;
    for i := 0 to |lines|
      invariant results.Keys == start.Keys
      invariant forall p :: p in results ==> results[p] == MatchingLines(search, p, lines[..i])
    {
      assert lines[..i + 1][..i] == lines[..i];
      results := SearchLine(search, results, lines[i], i);
    }
    assert lines[..|lines|] == lines;
  }

  /** `filter_text(rx, fh)`, over the lines `fh` yields. */
  method FilterText(engine: Engine, rx: Patterns, lines: seq<string>) returns (r: Result<map<string, seq<nat>>, Exception>)
    ensures r == Filtered(engine, rx, lines)
  {
    var ps := rx.AsList();
    var compiled := CompileEach(engine.compileError, ps);
    if compiled.Failure? {
      return compiled;
    }
    var results := SearchEach(engine.search, compiled.value, lines);
    ghost var expected := Filtered(engine, rx, lines).value;
    assert expected.Keys == results.Keys;
    assert expected == results;
    return Success(results);
  }

  /** Once a prefix of the patterns holds one that does not compile, the rest do not change
      which pattern is reported. */
  lemma {:induction false} FirstInvalidExtends(compileError: string -> Option<string>, ps: seq<string>, n: nat)
    requires n <= |ps| && FirstInvalid(compileError, ps[..n]).Some?
    ensures FirstInvalid(compileError, ps) == FirstInvalid(compileError, ps[..n])
    decreases |ps| - n
  {
    if n < |ps| {
      assert ps[..n + 1][..n] == ps[..n];
      FirstInvalidExtends(compileError, ps, n + 1);
    } else {
      assert ps[..n] == ps;
    }
  }

  // ---------------------------------------------------------------------------------------
  // compile_re
  // ---------------------------------------------------------------------------------------

  /** The name Python gives the type of `v` in its error messages. */
  function TypeName(v: Value): string {
    match v
    case VNone => "NoneType"
    case VInt(i) => if InIntRange(i) then "int" else "long"
    case VBool(_) => "bool"
    case VStr(_) => "str"
    case VList(_) => "list"
    case VPattern(_) => "_sre.SRE_Pattern"
    case VFloat(_) => "float"
  }

  /** `for r in regex`: a list yields its items and a string its characters, each a string of
      one character; iterating any other value raises TypeError. */
  function Iterated(v: Value): Result<seq<Value>, Exception> {
    match v
    case VList(items) => Success(items)
    case VStr(s) => Success(seq(|s|, i requires 0 <= i < |s| => VStr([s[i]])))
    case _ => Failure(TypeError("'" + TypeName(v) + "' object is not iterable"))
  }

  /** The message of the Error `compile_re` raises for a value that is not a pattern. */
  const NotStringsMessage: string := "must be a string or list of strings"

  /** `re.compile(r)` inside `compile_re`: a string that compiles becomes a compiled pattern, a
      compiled pattern comes back as it is, a string that does not compile raises `re.error`,
      and any other value raises TypeError, which `compile_re` turns into its own Error. */
  function CompileOne(compileError: string -> Option<string>, v: Value): Result<Value, Exception> {
    match v
    case VStr(s) =>
      if compileError(s).Some? then Failure(RegexError(compileError(s).value)) else Success(VPattern(s))
    case VPattern(_) => Success(v)
    case _ => Failure(Error(NotStringsMessage))
  }

  /** The loop of `compile_re` over `items`: one compiled pattern per item, in order; the first
      item that fails decides what is raised. */
  function CompiledAll(compileError: string -> Option<string>, items: seq<Value>): (r: Result<seq<Value>, Exception>)
    ensures r.Success? <==> forall i :: 0 <= i < |items| ==> CompileOne(compileError, items[i]).Success?
    ensures r.Success? ==> (|r.value| == |items| &&
      forall i :: 0 <= i < |items| ==> CompileOne(compileError, items[i]) == Success(r.value[i]))
    ensures r.Failure? ==> exists j :: 0 <= j < |items| && CompileOne(compileError, items[j]) == Failure(r.error) &&
                                       forall k :: 0 <= k < j ==> CompileOne(compileError, items[k]).Success?
    decreases |items|
  {
    if items == [] then Success([])
    else
      var last := |items| - 1;
      var init := CompiledAll(compileError, items[..last]);
      assert forall k :: 0 <= k < last ==> items[..last][k] == items[k];
      if init.Failure? then init
      else match CompileOne(compileError, items[last])
        case Failure(e) => Failure(e)
        case Success(p) => Success(init.value + [p])
  }

  /** Once a prefix of the items fails, the rest do not change what is raised. */
  lemma {:induction false} CompiledAllFailureSticks(compileError: string -> Option<string>, items: seq<Value>, n: nat)
    requires n <= |items| && CompiledAll(compileError, items[..n]).Failure?
    ensures CompiledAll(compileError, items) == CompiledAll(compileError, items[..n])
    decreases |items| - n
  {
    if n < |items| {
      assert items[..n + 1][..n] == items[..n];
      CompiledAllFailureSticks(compileError, items, n + 1);
    } else {
      assert items[..n] == items;
    }
  }

  /** What `compile_re(regex)` returns or raises. */
  function CompiledRe(compileError: string -> Option<string>, regex: Value): Result<seq<Value>, Exception> {
    match Iterated(regex)
    case Failure(e) => Failure(e)
    case Success(items) => CompiledAll(compileError, items)
  }

  /** `compile_re(regex)` */
  method CompileRe(compileError: string -> Option<string>, regex: Value) returns (r: Result<seq<Value>, Exception>)
    ensures r == CompiledRe(compileError, regex)
  {
    var iterated := Iterated(regex);
    if iterated.Failure? {
      return Failure(iterated.error);
    }
    var items := iterated.value;
    var l: seq<Value> := [];
    for i := 0 to |items|
      invariant CompiledAll(compileError, items[..i]) == Success(l)
    {
      assert items[..i + 1][..i] == items[..i];
      var c := CompileOne(compileError, items[i]);
      if c.Failure? {
        CompiledAllFailureSticks(compileError, items, i + 1);
        return Failure(c.error);
      }
      l := l + [c.value];
    }
    assert items[..|items|] == items;
    return Success(l);
  }

  /** `compile_re` on a plain string compiles it one character at a time: the result has one
      pattern per character. */
  lemma CompiledReOfString(compileError: string -> Option<string>, s: string)
    ensures CompiledRe(compileError, VStr(s)).Success? <==> forall i :: 0 <= i < |s| ==> compileError([s[i]]).None?
    ensures CompiledRe(compileError, VStr(s)).Success? ==>
      CompiledRe(compileError, VStr(s)).value == seq(|s|, i requires 0 <= i < |s| => VPattern([s[i]]))
  {
    var items := Iterated(VStr(s)).value;
    assert forall i :: 0 <= i < |s| ==> items[i] == VStr([s[i]]);
  }

  /** Whether `compile_re` raises, and what: a value that cannot be iterated raises TypeError;
      otherwise the first item that is not a string or compiled pattern raises Error, and the
      first string that does not compile raises `re.error`. */
  lemma CompiledReFailure(compileError: string -> Option<string>, regex: Value)
    ensures !regex.VList? && !regex.VStr? ==>
      CompiledRe(compileError, regex) == Failure(TypeError("'" + TypeName(regex) + "' object is not iterable"))
    ensures regex.VList? ==>
      (CompiledRe(compileError, regex).Failure? <==>
        exists j :: 0 <= j < |regex.items| && CompileOne(compileError, regex.items[j]).Failure?)
    ensures regex.VList? && CompiledRe(compileError, regex).Failure? ==>
      CompiledRe(compileError, regex).error == Error(NotStringsMessage) ||
      CompiledRe(compileError, regex).error.RegexError?
  {
    if regex.VList? && CompiledRe(compileError, regex).Failure? {
      var j :| 0 <= j < |regex.items| && CompileOne(compileError, regex.items[j]) == Failure(CompiledRe(compileError, regex).error);
    }
  }

  /** Compiling a list of compiled patterns gives the same list: compiling a second time
      changes nothing. */
  lemma CompiledReTwice(compileError: string -> Option<string>, regex: Value)
    requires CompiledRe(compileError, regex).Success?
    ensures CompiledRe(compileError, VList(CompiledRe(compileError, regex).value)) == CompiledRe(compileError, regex)
  {
    var ps := CompiledRe(compileError, regex).value;
    var items := Iterated(regex).value;
    assert forall i :: 0 <= i < |ps| ==> ps[i].VPattern? && CompileOne(compileError, ps[i]) == Success(ps[i]);
    var again := CompiledAll(compileError, ps);
    assert again.Success?;
    assert again.value == ps;
  }

  // ---------------------------------------------------------------------------------------
  // verify_config
  // ---------------------------------------------------------------------------------------

  /** The ten setting names a section may hold. */
  const Options: set<string> := {"required", "whitelist", "blacklist", "exit_codes", "email_to",
    "email_from", "email_maxsize", "email_success", "email_sendmail", "logfile"}

  /** The settings that hold patterns, compiled in this order. */
  const PatternSettings: seq<string> := ["required", "whitelist", "blacklist"]

  type Settings = map<string, Lib.Setting>

  /** The outcome of checking a section so far, and its settings as the checks leave them. */
  datatype Checked = Checked(outcome: Outcome<Exception>, settings: Settings)

  /** `err(section, setting, error)` */
  function ConfigError(section: string, setting: string, what: string): Exception {
    Error("configuration error: " + section + "." + setting + ": " + what)
  }

  /** The Error a pattern setting raises when anything other than an Error goes wrong. */
  function CouldNotCompile(section: string, setting: string, e: Exception): Exception {
    Error("configuration error: could not compile " + section + "." + setting + ": " + e.Str())
  }

  /** The first name of `names` outside `Options`. */
  function FirstUnknown(names: seq<string>): (r: Option<string>)
    ensures r.Some? ==> r.value in names && r.value !in Options
    ensures r.None? <==> forall n :: n in names ==> n in Options
    decreases |names|
  {
    if names == [] then None
    else
      var earlier := FirstUnknown(names[..|names| - 1]);
      if earlier.Some? then earlier
      else if names[|names| - 1] !in Options then Some(names[|names| - 1])
      else None
  }

  /** The name `FirstUnknown` reports comes before every other unknown name. */
  lemma {:induction false} FirstUnknownIsFirst(names: seq<string>)
    requires FirstUnknown(names).Some?
    ensures exists j :: 0 <= j < |names| && names[j] == FirstUnknown(names).value &&
                        forall k :: 0 <= k < j ==> names[k] in Options
    decreases |names|
  {
    var init := names[..|names| - 1];
    if FirstUnknown(init).Some? {
      FirstUnknownIsFirst(init);
      var j :| 0 <= j < |init| && init[j] == FirstUnknown(init).value &&
        forall k :: 0 <= k < j ==> init[k] in Options;
      assert forall k :: 0 <= k < j ==> names[k] == init[k];
    } else {
      assert forall k :: 0 <= k < |names| - 1 ==> names[k] in init;
    }
  }

  /** The first loop of `verify_config` on a section: the names of its settings, in order. */
  method FindUnknown(names: seq<string>) returns (r: Option<string>)
    ensures r == FirstUnknown(names)
  {
    for i := 0 to |names|
      invariant FirstUnknown(names[..i]).None?
    {
      assert names[..i + 1][..i] == names[..i];
      if names[i] !in Options {
        FirstUnknownExtends(names, i + 1);
        return Some(names[i]);
      }
    }
    assert names[..|names|] == names;
    return None;
  }

  /** Once a prefix of the names holds an unknown one, the rest do not change which is
      reported. */
  lemma {:induction false} FirstUnknownExtends(names: seq<string>, n: nat)
    requires n <= |names| && FirstUnknown(names[..n]).Some?
    ensures FirstUnknown(names) == FirstUnknown(names[..n])
    decreases |names| - n
  {
    if n < |names| {
      assert names[..n + 1][..n] == names[..n];
      FirstUnknownExtends(names, n + 1);
    } else {
      assert names[..n] == names;
    }
  }

  /** A pattern setting `k` of a section: a missing setting, a value that cannot be iterated and
      a string that does not compile raise "could not compile", an Error of `compile_re`
      passes through, and otherwise the setting is set to the list of compiled patterns. */
  function CompilePattern(compileError: string -> Option<string>, name: string, settings: Settings, k: string): Checked {
    if k !in settings then Checked(Fail(CouldNotCompile(name, k, LibraryError(Lib.InvalidSettingError(k)))), settings)
    else match CompiledRe(compileError, settings[k].Get(false))
      case Failure(e) => Checked(Fail(if e.Error? then e else CouldNotCompile(name, k, e)), settings)
      case Success(ps) => Checked(Pass, settings[k := settings[k].Set(VList(ps), false)])
  }

  /** The pattern settings `ks` compiled in order, stopping at the first that raises. */
  function CompilePatterns(compileError: string -> Option<string>, name: string, settings: Settings, ks: seq<string>): Checked
    decreases |ks|
  {
    if ks == [] then Checked(Pass, settings)
    else
      var c := CompilePatterns(compileError, name, settings, ks[..|ks| - 1]);
      if c.outcome.Fail? then c else CompilePattern(compileError, name, c.settings, ks[|ks| - 1])
  }

  lemma {:induction false} CompilePatternsFailureSticks(compileError: string -> Option<string>, name: string, settings: Settings, ks: seq<string>, n: nat)
    requires n <= |ks| && CompilePatterns(compileError, name, settings, ks[..n]).outcome.Fail?
    ensures CompilePatterns(compileError, name, settings, ks) == CompilePatterns(compileError, name, settings, ks[..n])
    decreases |ks| - n
  {
    if n < |ks| {
      assert ks[..n + 1][..n] == ks[..n];
      CompilePatternsFailureSticks(compileError, name, settings, ks, n + 1);
    } else {
      assert ks[..n] == ks;
    }
  }

  /** A list all of whose items are integers (booleans included). */
  predicate IntList(v: Value) {
    v.VList? && forall i :: 0 <= i < |v.items| ==> IsInt(v.items[i])
  }

  /** `exit_codes`: a missing setting raises InvalidSettingError; a value that is not a list is
      replaced by a new, auto-typed setting holding the list of it; then every item must be an
      integer. */
  function CheckExitCodes(name: string, settings: Settings): Checked {
    if "exit_codes" !in settings then Checked(Fail(LibraryError(Lib.InvalidSettingError("exit_codes"))), settings)
    else
      var v := settings["exit_codes"].Get(false);
      var wrapped := if v.VList? then settings else settings["exit_codes" := Lib.NewSetting(VList([v]), true)];
      if IntList(wrapped["exit_codes"].Get(false)) then Checked(Pass, wrapped)
      else Checked(Fail(Error("configuration error: " + name + ".exit_codes must be a list of integer exit codes")), wrapped)
  }

  /** `email_maxsize`: a missing setting raises InvalidSettingError; the value must be an
      integer. */
  function CheckMaxsize(name: string, settings: Settings): Outcome<Exception> {
    if "email_maxsize" !in settings then Fail(LibraryError(Lib.InvalidSettingError("email_maxsize")))
    else if IsInt(settings["email_maxsize"].Get(false)) then Pass
    else Fail(Error("configuration error: " + name + ".email_maxsize must be an integer"))
  }

  /** The body of `verify_config`'s loop on the section `name`. */
  ghost function CheckSection(compileError: string -> Option<string>, name: string, settings: Settings): Checked {
    match FirstUnknown(SortedOf(settings.Keys))
    case Some(s) => Checked(Fail(ConfigError(name, s, "unknown option")), settings)
    case None =>
      var c := CompilePatterns(compileError, name, settings, PatternSettings);
      if c.outcome.Fail? then c
      else
        var x := CheckExitCodes(name, c.settings);
        if x.outcome.Fail? then x else Checked(CheckMaxsize(name, x.settings), x.settings)
  }

  /** What checking each section on its own makes of it. */
  ghost function SectionResults(compileError: string -> Option<string>, view: Lib.View): (r: map<string, Checked>)
    ensures r.Keys == view.Keys
  {
    map n | n in view :: CheckSection(compileError, n, view[n])
  }

  /** The sections `names` visited in order, each taking what its own check `checked` made of
      it, stopping at the first whose check raised; the sections checked before it, and that
      one, keep their changes. */
  function Combined(view: Lib.View, checked: map<string, Checked>, names: seq<string>): (r: (Outcome<Exception>, Lib.View))
    requires forall n :: n in names ==> n in view && n in checked
    ensures r.1.Keys == view.Keys
    decreases |names|
  {
    if names == [] then (Pass, view)
    else
      var last := names[|names| - 1];
      var before := Combined(view, checked, names[..|names| - 1]);
      if before.0.Fail? then before
      else (checked[last].outcome, before.1[last := checked[last].settings])
  }

  lemma {:induction false} CombinedFailureSticks(view: Lib.View, checked: map<string, Checked>, names: seq<string>, n: nat)
    requires forall m :: m in names ==> m in view && m in checked
    requires n <= |names| && Combined(view, checked, names[..n]).0.Fail?
    ensures Combined(view, checked, names) == Combined(view, checked, names[..n])
    decreases |names| - n
  {
    if n < |names| {
      assert names[..n + 1][..n] == names[..n];
      CombinedFailureSticks(view, checked, names, n + 1);
    } else {
      assert names[..n] == names;
    }
  }

  /** Sections not yet visited are as they were. */
  lemma {:induction false} CombinedUntouched(view: Lib.View, checked: map<string, Checked>, names: seq<string>, n: string)
    requires forall m :: m in names ==> m in view && m in checked
    requires n in view && n !in names
    ensures Combined(view, checked, names).1[n] == view[n]
    decreases |names|
  {
    if names != [] {
      assert n !in names[..|names| - 1];
      CombinedUntouched(view, checked, names[..|names| - 1], n);
    }
  }

  /** One more section visited after the first `i` all passed: the section is still as it
      was, and then takes what its own check makes of it. */
  lemma CombinedStep(view: Lib.View, checked: map<string, Checked>, names: seq<string>, i: nat, current: Lib.View)
    requires forall m :: m in names ==> m in view && m in checked
    requires i < |names| && names[i] !in names[..i]
    requires Combined(view, checked, names[..i]) == (Pass, current)
    ensures current[names[i]] == view[names[i]]
    ensures Combined(view, checked, names[..i + 1]) ==
      (checked[names[i]].outcome, current[names[i] := checked[names[i]].settings])
  {
    assert names[..i + 1][..i] == names[..i];
    CombinedUntouched(view, checked, names[..i], names[i]);
  }

  /** What `verify_config(config)` raises, and the sections it leaves: the sections in
      ascending order of their names. */
  ghost function Verified(compileError: string -> Option<string>, view: Lib.View): (Outcome<Exception>, Lib.View) {
    Combined(view, SectionResults(compileError, view), SortedOf(view.Keys))
  }

  /** The body of the loop over the pattern settings, on setting `k` of `sec`. */
  method CompileSetting(compileError: string -> Option<string>, name: string, sec: Lib.Section, k: string)
    returns (r: Outcome<Exception>)
    modifies sec
    ensures sec.name == old(sec.name)
    ensures Checked(r, sec.settings) == CompilePattern(compileError, name, old(sec.settings), k)
  {
    var g := sec.GetSetting(k);
    if g.Failure? {
      return Fail(CouldNotCompile(name, k, LibraryError(g.error)));
    }
    var c := CompileRe(compileError, g.value.Get(false));
    if c.Failure? {
      if c.error.Error? {
        return Fail(c.error);
      }
      return Fail(CouldNotCompile(name, k, c.error));
    }
    sec.SetSetting(k, g.value.Set(VList(c.value), false));
    return Pass;
  }

  /** Every item of `items` is an integer (booleans included). */
  method AllIntegers(items: seq<Value>) returns (b: bool)
    ensures b <==> forall i :: 0 <= i < |items| ==> IsInt(items[i])
  {
    for i := 0 to |items|
      invariant forall j :: 0 <= j < i ==> IsInt(items[j])
    {
      if !IsInt(items[i]) {
        return false;
      }
    }
    return true;
  }

  /** The `exit_codes` check on `sec`. */
  method CheckExitCodesIn(name: string, sec: Lib.Section) returns (r: Outcome<Exception>)
    modifies sec
    ensures sec.name == old(sec.name)
    ensures Checked(r, sec.settings) == CheckExitCodes(name, old(sec.settings))
  {
    var g := sec.GetSetting("exit_codes");
    if g.Failure? {
      return Fail(LibraryError(g.error));
    }
    var v := g.value.Get(false);
    if !v.VList? {
      sec.SetSetting("exit_codes", Lib.NewSetting(VList([v]), true));
    }
    var codes := sec.settings["exit_codes"].Get(false);
    var ints := false;
    if codes.VList? {
      ints := AllIntegers(codes.items);
    }
    if !ints {
      return Fail(Error("configuration error: " + name + ".exit_codes must be a list of integer exit codes"));
    }
    return Pass;
  }

  /** The `email_maxsize` check on `sec`. */
  method CheckMaxsizeIn(name: string, sec: Lib.Section) returns (r: Outcome<Exception>)
    ensures r == CheckMaxsize(name, sec.settings)
  {
    var g := sec.GetSetting("email_maxsize");
    if g.Failure? {
      return Fail(LibraryError(g.error));
    }
    if !IsInt(g.value.Get(false)) {
      return Fail(Error("configuration error: " + name + ".email_maxsize must be an integer"));
    }
    return Pass;
  }

  /** The loop over the pattern settings of `sec`. */
  method CompileSettings(compileError: string -> Option<string>, name: string, sec: Lib.Section)
    returns (r: Outcome<Exception>)
    modifies sec
    ensures sec.name == old(sec.name)
    ensures Checked(r, sec.settings) == CompilePatterns(compileError, name, old(sec.settings), PatternSettings)
  {
    for j := 0 to |PatternSettings|
      invariant sec.name == old(sec.name)
      invariant CompilePatterns(compileError, name, old(sec.settings), PatternSettings[..j]) == Checked(Pass, sec.settings)
    {
      assert PatternSettings[..j + 1][..j] == PatternSettings[..j];
      r := CompileSetting(compileError, name, sec, PatternSettings[j]);
      if r.Fail? {
        CompilePatternsFailureSticks(compileError, name, old(sec.settings), PatternSettings, j + 1);
        return;
      }
    }
    assert PatternSettings[..|PatternSettings|] == PatternSettings;
    return Pass;
  }

  /** The body of `verify_config`'s loop on the section `sec`, stored as `name`. */
  method VerifySection(compileError: string -> Option<string>, name: string, sec: Lib.Section)
    returns (r: Outcome<Exception>)
    modifies sec
    ensures sec.name == old(sec.name)
    ensures Checked(r, sec.settings) == CheckSection(compileError, name, old(sec.settings))
  {
    var names := sec.GetSettings();
    var unknown := FindUnknown(names);
    if unknown.Some? {
      return Fail(ConfigError(name, unknown.value, "unknown option"));
    }
    r := CompileSettings(compileError, name, sec);
    if r.Fail? {
      return;
    }
    r := CheckExitCodesIn(name, sec);
    if r.Fail? {
      return;
    }
    r := CheckMaxsizeIn(name, sec);
  }

  /** The body of `verify_config`'s loop on the section stored as `n`, whose check on its
      own gives `expected`. */
  method VerifyOne(compileError: string -> Option<string>, config: Lib.Config, n: string, ghost expected: Checked)
    returns (r: Outcome<Exception>)
    requires config.Valid() && n in config.sections
    requires expected == CheckSection(compileError, n, config.View()[n])
    modifies config.sections.Values
    ensures config.Valid()
    ensures r == expected.outcome && config.View() == old(config.View())[n := expected.settings]
  {
    var sec := config.sections[n];
    r := VerifySection(compileError, n, sec);
    assert forall m :: m in config.sections && m != n ==> config.sections[m] != sec;
    assert config.View() == old(config.View())[n := sec.settings];
  }

  /** `verify_config`'s loop over the sections `names`, which `checked` holds the results
      of checking on their own. */
  method VerifyInOrder(compileError: string -> Option<string>, config: Lib.Config, names: seq<string>)
    returns (r: Outcome<Exception>)
    requires config.Valid() && forall n :: n in names ==> n in config.sections
    requires forall i :: 0 <= i < |names| ==> names[i] !in names[..i]
    modifies config.sections.Values
    ensures config.Valid()
    ensures (r, config.View()) == Combined(old(config.View()), SectionResults(compileError, old(config.View())), names)
  {
    for i := 0 to |names|
      invariant config.Valid()
      invariant Combined(old(config.View()), SectionResults(compileError, old(config.View())), names[..i]) ==
        (Pass, config.View())
    {
      CombinedStep(old(config.View()), SectionResults(compileError, old(config.View())), names, i, config.View());
      r := VerifyOne(compileError, config, names[i], SectionResults(compileError, old(config.View()))[names[i]]);
      if r.Fail? {
        CombinedFailureSticks(old(config.View()), SectionResults(compileError, old(config.View())), names, i + 1);
        return;
      }
    }
    assert names[..|names|] == names;
    return Pass;
  }

  lemma VerifiedInOrder(compileError: string -> Option<string>, view: Lib.View, names: seq<string>,
                        result: (Outcome<Exception>, Lib.View))
    requires names == SortedOf(view.Keys)
    requires result == Combined(view, SectionResults(compileError, view), names)
    ensures result == Verified(compileError, view)
  { }

  lemma ViewKeys(config: Lib.Config)
    ensures config.View().Keys == config.sections.Keys
  { }

  /** `verify_config(config)`: see `Verified`. */
  method VerifyConfig(compileError: string -> Option<string>, config: Lib.Config) returns (r: Outcome<Exception>)
    requires config.Valid()
    modifies config.sections.Values
    ensures config.Valid()
    ensures (r, config.View()) == Verified(compileError, old(config.View()))
  {
    var names := SortKeys(config.sections.Keys);
    ghost var view := config.View();
    ViewKeys(config);
    ListingFacts(names, view.Keys);
    r := VerifyInOrder(compileError, config, names);
    VerifiedInOrder(compileError, view, names, (r, config.View()));
  }

  // ---------------------------------------------------------------------------------------
  // What verify_config promises
  // ---------------------------------------------------------------------------------------

  /** The first unknown name of a listing of names is the least unknown name of all. */
  lemma LeastUnknown(names: seq<string>, keys: set<string>)
    requires SortedListing(names, keys)
    ensures FirstUnknown(names).None? <==> keys <= Options
    ensures FirstUnknown(names).Some? ==>
      var s := FirstUnknown(names).value;
      s in keys && s !in Options && forall t :: t in keys && Less(t, s) ==> t in Options
  {
    if FirstUnknown(names).Some? {
      FirstUnknownIsFirst(names);
      SortedPairs(names);
      var s := FirstUnknown(names).value;
      var j :| 0 <= j < |names| && names[j] == s && forall k :: 0 <= k < j ==> names[k] in Options;
      forall t | t in keys && Less(t, s) ensures t in Options {
        assert t in names;
        var k :| 0 <= k < |names| && names[k] == t;
        if k == j {
          LessIrreflexive(s);
        } else if k > j {
          LessAsymmetric(s, t);
        }
      }
    }
  }

  /** A section holding a name outside `Options` raises "unknown option" for the least such
      name and is left as it was. */
  lemma CheckSectionUnknownOption(compileError: string -> Option<string>, name: string, settings: Settings)
    requires exists s :: s in settings && s !in Options
    ensures exists s :: s in settings && s !in Options &&
                        (forall t :: t in settings && Less(t, s) ==> t in Options) &&
                        CheckSection(compileError, name, settings) == Checked(Fail(ConfigError(name, s, "unknown option")), settings)
  {
    var names := SortedOf(settings.Keys);
    LeastUnknown(names, settings.Keys);
    var s := FirstUnknown(names).value;
    assert CheckSection(compileError, name, settings) == Checked(Fail(ConfigError(name, s, "unknown option")), settings);
  }

  /** A compiled pattern setting: its value and its raw value are the same list of compiled
      patterns. */
  predicate CompiledSetting(st: Lib.Setting) {
    st.value == st.raw && st.value.VList? && forall i :: 0 <= i < |st.value.items| ==> st.value.items[i].VPattern?
  }

  /** Setting a pattern setting to the result of `compile_re` makes it a compiled setting
      holding that result. */
  lemma CompilePatternPasses(compileError: string -> Option<string>, name: string, settings: Settings, k: string)
    requires CompilePattern(compileError, name, settings, k).outcome.Pass?
    ensures k in settings && CompiledRe(compileError, settings[k].Get(false)).Success?
    ensures var r := CompilePattern(compileError, name, settings, k).settings;
      r == settings[k := r[k]] && CompiledSetting(r[k]) &&
      r[k].Get(false) == VList(CompiledRe(compileError, settings[k].Get(false)).value)
  {
    var ps := CompiledRe(compileError, settings[k].Get(false)).value;
    var items := Iterated(settings[k].Get(false)).value;
    assert forall i :: 0 <= i < |ps| ==> CompileOne(compileError, items[i]) == Success(ps[i]);
    assert forall i :: 0 <= i < |ps| ==> ps[i].VPattern?;
    assert Lib.AutoType(VList(ps)) == VList(ps);
  }

  /** Compiling a compiled setting again changes nothing. */
  lemma CompilePatternTwice(compileError: string -> Option<string>, name: string, settings: Settings, k: string)
    requires k in settings && CompiledSetting(settings[k])
    ensures CompilePattern(compileError, name, settings, k) == Checked(Pass, settings)
  {
    var ps := settings[k].value.items;
    assert CompiledAll(compileError, ps).Success?;
    assert CompiledAll(compileError, ps).value == ps;
    assert Lib.AutoType(VList(ps)) == VList(ps);
  }

  /** When the pattern settings `ks` (no name twice) all compile, each becomes a compiled
      setting holding what `compile_re` made of it, and nothing else changes. */
  lemma {:induction false} CompilePatternsPass(compileError: string -> Option<string>, name: string, settings: Settings, ks: seq<string>)
    requires forall i :: 0 <= i < |ks| ==> ks[i] !in ks[..i]
    requires CompilePatterns(compileError, name, settings, ks).outcome.Pass?
    ensures PatternsCompiled(compileError, settings, CompilePatterns(compileError, name, settings, ks).settings, ks)
    decreases |ks|
  {
    if ks != [] {
      var init := ks[..|ks| - 1];
      var last := ks[|ks| - 1];
      assert forall i :: 0 <= i < |init| ==> init[i] == ks[i] && init[..i] == ks[..i];
      CompilePatternsPass(compileError, name, settings, init);
      var c := CompilePatterns(compileError, name, settings, init);
      CompilePatternPasses(compileError, name, c.settings, last);
      InitAndLast(ks);
      PatternsCompiledStep(compileError, settings, c.settings, CompilePattern(compileError, name, c.settings, last).settings, init, last);
    }
  }

  /** A non-empty sequence is its prefix followed by its last element. */
  lemma InitAndLast(ks: seq<string>)
    requires ks != []
    ensures ks == ks[..|ks| - 1] + [ks[|ks| - 1]]
  {
  }

  /** `r` is `settings` with each of the settings `ks` replaced by what `compile_re` made of it. */
  predicate PatternsCompiled(compileError: string -> Option<string>, settings: Settings, r: Settings, ks: seq<string>) {
    r.Keys == settings.Keys &&
    (forall k :: k in settings && k !in ks ==> r[k] == settings[k]) &&
    forall k :: k in ks ==> (k in settings && CompiledSetting(r[k]) &&
      CompiledRe(compileError, settings[k].Get(false)).Success? &&
      r[k].Get(false) == VList(CompiledRe(compileError, settings[k].Get(false)).value))
  }

  /** One more pattern setting compiled, when it was not compiled before. */
  lemma PatternsCompiledStep(compileError: string -> Option<string>, settings: Settings, c: Settings, r: Settings, init: seq<string>, last: string)
    requires PatternsCompiled(compileError, settings, c, init) && last !in init
    requires last in c && CompiledRe(compileError, c[last].Get(false)).Success?
    requires last in r && r == c[last := r[last]] && CompiledSetting(r[last])
    requires r[last].Get(false) == VList(CompiledRe(compileError, c[last].Get(false)).value)
    ensures PatternsCompiled(compileError, settings, r, init + [last])
  {
    assert c[last] == settings[last];
    assert forall k :: k in init + [last] ==> k in init || k == last;
  }

  /** Compiling settings that are all compiled changes nothing. */
  lemma {:induction false} CompilePatternsTwice(compileError: string -> Option<string>, name: string, settings: Settings, ks: seq<string>)
    requires forall k :: k in ks ==> k in settings && CompiledSetting(settings[k])
    ensures CompilePatterns(compileError, name, settings, ks) == Checked(Pass, settings)
    decreases |ks|
  {
    if ks != [] {
      var init := ks[..|ks| - 1];
      assert forall k :: k in init ==> k in ks;
      CompilePatternsTwice(compileError, name, settings, init);
      CompilePatternTwice(compileError, name, settings, ks[|ks| - 1]);
    }
  }

  /** A section that passes is left with names from `Options` only; its pattern settings hold
      the compiled lists of what they held; `exit_codes` is a list of integers and
      `email_maxsize` an integer; every other setting is unchanged. */
  lemma CheckSectionPass(compileError: string -> Option<string>, name: string, settings: Settings)
    requires CheckSection(compileError, name, settings).outcome.Pass?
    ensures var r := CheckSection(compileError, name, settings).settings;
      r.Keys == settings.Keys && (forall k :: k in settings ==> k in Options) &&
      (forall k :: k in PatternSettings ==> (k in settings && CompiledSetting(r[k]) &&
        CompiledRe(compileError, settings[k].Get(false)).Success? &&
        r[k].Get(false) == VList(CompiledRe(compileError, settings[k].Get(false)).value))) &&
      "exit_codes" in r && IntList(r["exit_codes"].Get(false)) &&
      "email_maxsize" in r && IsInt(r["email_maxsize"].Get(false)) &&
      forall k :: k in settings && k !in PatternSettings && k != "exit_codes" ==> r[k] == settings[k]
  {
    CheckSectionStages(compileError, name, settings);
    LeastUnknown(SortedOf(settings.Keys), settings.Keys);
    var c := CompilePatterns(compileError, name, settings, PatternSettings);
    CompilePatternsPass(compileError, name, settings, PatternSettings);
    NumbersPass(compileError, name, settings, c.settings, CheckExitCodes(name, c.settings));
  }

  /** The last two stages of a passing check, after the patterns compiled into `compiled`. */
  lemma NumbersPass(compileError: string -> Option<string>, name: string, settings: Settings,
                    compiled: Settings, x: Checked)
    requires compiled.Keys == settings.Keys
    requires forall k :: k in settings && k !in PatternSettings ==> compiled[k] == settings[k]
    requires forall k :: k in PatternSettings ==> (k in settings && CompiledSetting(compiled[k]) &&
        CompiledRe(compileError, settings[k].Get(false)).Success? &&
        compiled[k].Get(false) == VList(CompiledRe(compileError, settings[k].Get(false)).value))
    requires x == CheckExitCodes(name, compiled) && x.outcome.Pass? && CheckMaxsize(name, x.settings).Pass?
    ensures var r := x.settings;
      r.Keys == settings.Keys &&
      (forall k :: k in PatternSettings ==> (k in settings && CompiledSetting(r[k]) &&
        CompiledRe(compileError, settings[k].Get(false)).Success? &&
        r[k].Get(false) == VList(CompiledRe(compileError, settings[k].Get(false)).value))) &&
      "exit_codes" in r && IntList(r["exit_codes"].Get(false)) &&
      "email_maxsize" in r && IsInt(r["email_maxsize"].Get(false)) &&
      forall k :: k in settings && k !in PatternSettings && k != "exit_codes" ==> r[k] == settings[k]
  {
    assert forall k :: k in compiled && k != "exit_codes" ==> x.settings[k] == compiled[k];
  }

  /** A section that passes got through every stage of its check. */
  lemma CheckSectionStages(compileError: string -> Option<string>, name: string, settings: Settings)
    requires CheckSection(compileError, name, settings).outcome.Pass?
    ensures FirstUnknown(SortedOf(settings.Keys)).None?
    ensures var c := CompilePatterns(compileError, name, settings, PatternSettings);
      var x := CheckExitCodes(name, c.settings);
      c.outcome.Pass? && x.outcome.Pass? && CheckMaxsize(name, x.settings).Pass? &&
      CheckSection(compileError, name, settings).settings == x.settings
  { }

  /** Checking a section that passed a second time changes nothing and passes again. */
  lemma CheckSectionTwice(compileError: string -> Option<string>, name: string, settings: Settings)
    requires CheckSection(compileError, name, settings).outcome.Pass?
    ensures var r := CheckSection(compileError, name, settings).settings;
      CheckSection(compileError, name, r) == Checked(Pass, r)
  {
    var r := CheckSection(compileError, name, settings).settings;
    CheckSectionPass(compileError, name, settings);
    var names := SortedOf(r.Keys);
    assert FirstUnknown(names).None?;
    CompilePatternsTwice(compileError, name, r, PatternSettings);
  }

  /** A number beyond `sys.maxint` auto-types to a `long`, which the `email_maxsize` check
      refuses as it refuses any value that is not an integer. */
  lemma CheckMaxsizeRefusesLong(name: string, settings: Settings)
    requires "email_maxsize" in settings && settings["email_maxsize"].Get(false) == VInt(MaxInt + 1)
    ensures CheckMaxsize(name, settings) == Fail(Error("configuration error: " + name + ".email_maxsize must be an integer"))
  { }

  /** A value of `exit_codes` that is not a list is wrapped in a new setting that auto-types
      it once more, so the check passes exactly when the value auto-types to an integer. */
  lemma CheckExitCodesScalar(name: string, settings: Settings)
    requires "exit_codes" in settings && !settings["exit_codes"].Get(false).VList?
    ensures var v := settings["exit_codes"].Get(false);
      var c := CheckExitCodes(name, settings);
      c.settings == settings["exit_codes" := Lib.NewSetting(VList([v]), true)] &&
      c.settings["exit_codes"].Get(false) == VList([Lib.AutoType(v)]) &&
      (c.outcome.Pass? <==> IsInt(Lib.AutoType(v)))
  {
    var v := settings["exit_codes"].Get(false);
    var listed := Lib.AutoType(VList([v]));
    assert listed.items == [Lib.AutoType(v)];
    assert IntList(listed) <==> IsInt(listed.items[0]);
  }

  /** The sections `names` visited in order all pass exactly when each one's own check passes. */
  lemma {:induction false} CombinedPasses(view: Lib.View, checked: map<string, Checked>, names: seq<string>)
    requires forall n :: n in names ==> n in view && n in checked
    ensures Combined(view, checked, names).0.Pass? <==> forall n :: n in names ==> checked[n].outcome.Pass?
    decreases |names|
  {
    if names != [] {
      var init := names[..|names| - 1];
      assert forall n :: n in names <==> n in init || n == names[|names| - 1];
      CombinedPasses(view, checked, init);
    }
  }

  /** When the sections `names` all pass, each takes what its own check made of it and every
      other section is left as it was. */
  lemma {:induction false} CombinedSettings(view: Lib.View, checked: map<string, Checked>, names: seq<string>)
    requires forall n :: n in names ==> n in view && n in checked
    ensures var r := Combined(view, checked, names);
      r.0.Pass? ==> forall n :: n in view ==> r.1[n] == if n in names then checked[n].settings else view[n]
    decreases |names|
  {
    if names != [] {
      var init := names[..|names| - 1];
      assert forall n :: n in names <==> n in init || n == names[|names| - 1];
      CombinedSettings(view, checked, init);
    }
  }

  /** When a section of `names` fails, what is raised is what the first failing section's own
      check raised, all sections before it having passed. */
  lemma {:induction false} CombinedFirstFailure(view: Lib.View, checked: map<string, Checked>, names: seq<string>)
    requires forall n :: n in names ==> n in view && n in checked
    ensures var r := Combined(view, checked, names);
      r.0.Fail? ==> exists j :: 0 <= j < |names| && r.0 == checked[names[j]].outcome &&
                               forall k :: 0 <= k < j ==> checked[names[k]].outcome.Pass?
    decreases |names|
  {
    if names != [] {
      var init := names[..|names| - 1];
      assert forall n :: n in init ==> n in names;
      CombinedFirstFailure(view, checked, init);
      var before := Combined(view, checked, init);
      if before.0.Fail? {
        var j :| 0 <= j < |init| && before.0 == checked[init[j]].outcome &&
          forall k :: 0 <= k < j ==> checked[init[k]].outcome.Pass?;
        assert init[j] == names[j];
        assert forall k :: 0 <= k < j ==> init[k] == names[k];
      } else {
        CombinedPasses(view, checked, init);
        assert forall k :: 0 <= k < |init| ==> init[k] == names[k] && init[k] in init;
      }
    }
  }

  /** The sections `names` visited in order: all pass exactly when each one's own check passes,
      and then each takes what its own check made of it; otherwise the first section whose check
      raised decides what is raised. */
  lemma CombinedOutcome(view: Lib.View, checked: map<string, Checked>, names: seq<string>)
    requires forall n :: n in names ==> n in view && n in checked
    ensures var r := Combined(view, checked, names);
      (r.0.Pass? <==> forall n :: n in names ==> checked[n].outcome.Pass?) &&
      (r.0.Pass? ==> forall n :: n in view ==> r.1[n] == if n in names then checked[n].settings else view[n]) &&
      (r.0.Fail? ==> exists j :: 0 <= j < |names| && r.0 == checked[names[j]].outcome &&
                                 forall k :: 0 <= k < j ==> checked[names[k]].outcome.Pass?)
  {
    CombinedPasses(view, checked, names);
    CombinedSettings(view, checked, names);
    CombinedFirstFailure(view, checked, names);
  }

  /** Visiting sections whose checks all pass without changing them changes nothing. */
  lemma {:induction false} CombinedNoChange(view: Lib.View, checked: map<string, Checked>, names: seq<string>)
    requires forall n :: n in names ==> n in view && n in checked && checked[n] == Checked(Pass, view[n])
    ensures Combined(view, checked, names) == (Pass, view)
    decreases |names|
  {
    if names != [] {
      assert forall n :: n in names[..|names| - 1] ==> n in names;
      CombinedNoChange(view, checked, names[..|names| - 1]);
      assert view[names[|names| - 1] := view[names[|names| - 1]]] == view;
    }
  }

  /** The facts about an ascending listing of names the loop over it needs. */
  lemma ListingFacts(names: seq<string>, keys: set<string>)
    requires SortedListing(names, keys)
    ensures forall n :: n in names <==> n in keys
    ensures forall i :: 0 <= i < |names| ==> names[i] !in names[..i]
  {
    SortedDistinct(names);
  }

  /** All sections visited in ascending order of names: they all pass exactly when each one's
      check passes, and then each takes what its check made of it; otherwise the least name
      whose check raised decides what is raised. */
  lemma CombinedInOrder(view: Lib.View, checked: map<string, Checked>, names: seq<string>)
    requires SortedListing(names, view.Keys) && view.Keys <= checked.Keys
    ensures var r := Combined(view, checked, names);
      (r.0.Pass? <==> forall n :: n in view ==> checked[n].outcome.Pass?) &&
      (r.0.Pass? ==> forall n :: n in view ==> r.1[n] == checked[n].settings) &&
      (r.0.Fail? ==> exists n :: n in view && r.0 == checked[n].outcome &&
                                 forall m :: m in view && Less(m, n) ==> checked[m].outcome.Pass?)
  {
    ListingFacts(names, view.Keys);
    CombinedOutcome(view, checked, names);
    var r := Combined(view, checked, names);
    if r.0.Fail? {
      SortedPairs(names);
      var j :| 0 <= j < |names| && r.0 == checked[names[j]].outcome &&
        forall k :: 0 <= k < j ==> checked[names[k]].outcome.Pass?;
      forall m | m in view && Less(m, names[j]) ensures checked[m].outcome.Pass? {
        var k :| 0 <= k < |names| && names[k] == m;
        if k == j {
          LessIrreflexive(m);
        } else if k > j {
          LessAsymmetric(m, names[j]);
        }
      }
    }
  }

  /** `verify_config` passes exactly when every section passes its own check
      (`SectionResults`); it then leaves each section as its own check makes it, and otherwise
      raises what the first failing section, in ascending order of names, raises. */
  lemma VerifiedOutcome(compileError: string -> Option<string>, view: Lib.View)
    ensures var r := Verified(compileError, view);
      var checked := SectionResults(compileError, view);
      (r.0.Pass? <==> forall n :: n in view ==> checked[n].outcome.Pass?) &&
      (r.0.Pass? ==> r.1.Keys == view.Keys && forall n :: n in view ==> r.1[n] == checked[n].settings) &&
      (r.0.Fail? ==> exists n :: n in view && r.0 == checked[n].outcome &&
                                 forall m :: m in view && Less(m, n) ==> checked[m].outcome.Pass?)
  {
    CombinedInOrder(view, SectionResults(compileError, view), SortedOf(view.Keys));
  }

  /** Running `verify_config` again on a configuration it passed changes nothing and passes. */
  lemma VerifiedTwice(compileError: string -> Option<string>, view: Lib.View)
    requires Verified(compileError, view).0.Pass?
    ensures var r := Verified(compileError, view).1;
      Verified(compileError, r) == (Pass, r)
  {
    var r := Verified(compileError, view).1;
    VerifiedOutcome(compileError, view);
    var checked := SectionResults(compileError, r);
    forall n | n in r ensures checked[n] == Checked(Pass, r[n]) {
      CheckSectionTwice(compileError, n, view[n]);
    }
    CombinedNoChange(r, checked, SortedOf(r.Keys));
  }
}
