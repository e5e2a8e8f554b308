/** The newer configuration library (trunk/simpleconfig.py): settings that keep the raw input
    beside the auto-typed value, sections of named settings, and a configuration of sections
    with a defaults section, merging of configurations and a line-by-line file parser. */
module TrunkSimpleConfig {
  import opened Wrappers
  import opened Text
  import opened Sorting
  import opened Values
  import opened LineSyntax

  /** The library's exceptions, and `IOError` for a file that cannot be opened. */
  datatype Error =
    | InvalidSettingError(setting: string)
    | InvalidSectionError(section: string)
    | ConfigParseError(line: nat, text: string)
    | IOError(path: string)
  {
    /** The message the exception carries (`IOError`'s comes from the runtime). */
    function Message(): string {
      match this
      case InvalidSettingError(s) => "invalid setting: " + s
      case InvalidSectionError(s) => "invalid section: " + s
      case ConfigParseError(n, t) => "could not parse config file at line " + NatToString(n) + ": " + t
      case IOError(p) => p
    }
  }

  // ---------------------------------------------------------------------------------------
  // Value auto-typing
  // ---------------------------------------------------------------------------------------

  /** `('|")(.*)\1$` matched at the start of `s`: the text between matching quotes. */
  function QuotedBody(s: string): (r: Option<string>)
    ensures r.Some? ==> |r.value| + 2 == |Chomp(s)| && !HasNewline(r.value)
  {
    var t := Chomp(s);
    if |t| >= 2 && (t[0] == '\'' || t[0] == '"') && t[|t| - 1] == t[0] && !HasNewline(t[1..|t| - 1])
    then Some(t[1..|t| - 1])
    else None
  }

  /** `Setting.auto_type`: lists are typed element by element; a string that is wholly a
      none/null word, an integer, a true/yes/on or false/no/off word becomes None, that
      integer, True or False; a quoted string loses its quotes; everything else is kept. */
  function AutoType(raw: Value): (r: Value)
    ensures raw.VList? ==> r.VList? && |r.items| == |raw.items|
    ensures raw.VList? ==> forall i :: 0 <= i < |raw.items| ==> r.items[i] == AutoType(raw.items[i])
    ensures !raw.VList? && !raw.VStr? ==> r == raw
    ensures raw.VStr? && IsKeywordOrInteger(raw.s) ==> r == ConvertKeywordOrInteger(raw.s)
    ensures raw.VStr? && !IsKeywordOrInteger(raw.s) ==>
      r == if QuotedBody(raw.s).Some? then VStr(QuotedBody(raw.s).value) else raw
    decreases raw
  {
    match raw
    case VList(items) => VList(seq(|items|, i requires 0 <= i < |items| => AutoType(items[i])))
    case VStr(s) =>
      if IsKeywordOrInteger(s) then ConvertKeywordOrInteger(s)
      else if QuotedBody(s).Some? then VStr(QuotedBody(s).value)
      else raw
    case _ => raw
  }

  /** A string comes back unchanged exactly when it is none of the recognised shapes. */
  lemma AutoTypeKeepsPlainText(s: string)
    ensures AutoType(VStr(s)) == VStr(s) <==> !IsKeywordOrInteger(s) && QuotedBody(s).None?
  {
    if !IsKeywordOrInteger(s) && QuotedBody(s).Some? {
      assert |QuotedBody(s).value| < |s|;
    }
  }

  /** The recognisers look through one final newline, where Python's `$` also matches. */
  lemma AutoTypeIgnoresFinalNewline(s: string)
    requires s == Chomp(s)
    requires IsKeywordOrInteger(s) || QuotedBody(s).Some?
    ensures AutoType(VStr(s + "\n")) == AutoType(VStr(s))
  {
    assert Chomp(s + "\n") == s;
    ChompedAlike(s + "\n", s);
    assert QuotedBody(s + "\n") == QuotedBody(s);
  }

  /** Rendering an integer and auto-typing the text gives the integer back. */
  lemma AutoTypeIntegerRoundTrip(n: int)
    ensures AutoType(VStr(IntToString(n))) == VInt(n)
  {
    IntegerTextRoundTrip(n);
  }

  // ---------------------------------------------------------------------------------------
  // Settings
  // ---------------------------------------------------------------------------------------

  /** A `Setting`: whether input is auto-typed, the stored value and the raw input it was set
      from. Its name is the key the holding section stores it under, which is what
      `Section.set_setting` stamps on it. */
  datatype Setting = Setting(autoType: bool, value: Value, raw: Value)
  {
    /** `Setting.get(raw)` */
    function Get(rawFlag: bool): Value {
      if rawFlag then raw else value
    }

    /** `Setting.set(value, raw)`: the raw input is always recorded; the value is auto-typed
        unless auto-typing is off or the raw flag is given. */
    function Set(v: Value, rawFlag: bool): (s: Setting)
      ensures s.Get(true) == v
      ensures s.Get(false) == if autoType && !rawFlag then AutoType(v) else v
      ensures s.autoType == autoType
    {
      this.(value := if autoType && !rawFlag then AutoType(v) else v, raw := v)
    }
  }

  /** `Setting(value, auto_type)` */
  function NewSetting(v: Value, autoType: bool): (s: Setting)
    ensures s.autoType == autoType && s.Get(true) == v
    ensures s.Get(false) == if autoType then AutoType(v) else v
  {
    Setting(autoType, VNone, VNone).Set(v, false)
  }

  // ---------------------------------------------------------------------------------------
  // Sections
  // ---------------------------------------------------------------------------------------

  /** A `Section`: a name and a dictionary of settings, changed in place. */
  class Section {
    var name: Option<string>
    var settings: map<string, Setting>

    constructor()
      ensures name == None && settings == map[]
    {
      name := None;
      settings := map[];
    }

    /** A new section holding `table`: `copy.deepcopy` of a section. */
    static method Holding(table: map<string, Setting>) returns (c: Section)
      ensures fresh(c) && c.name == None && c.settings == table
    {
      c := new Section();
      c.settings := table;
    }

    /** `Section.set_name` */
    method SetName(n: string)
      modifies this
      ensures name == Some(n) && settings == old(settings)
    {
      name := Some(n);
    }

    /** `Section.set_setting`: stores the setting under `key`, which becomes its name. */
    method SetSetting(key: string, s: Setting)
      modifies this
      ensures name == old(name)
      ensures settings == old(settings)[key := s]
    {
      settings := settings[key := s];
    }

    /** `Section.get_setting`: an absent name raises InvalidSettingError. */
    method GetSetting(key: string) returns (r: Result<Setting, Error>)
      ensures r.Success? <==> key in settings
      ensures r.Success? ==> r.value == settings[key]
      ensures r.Failure? ==> r.error == InvalidSettingError(key)
    {
      if key !in settings {
        return Failure(InvalidSettingError(key));
      }
      return Success(settings[key]);
    }

    /** `Section.has_setting` */
    method HasSetting(key: string) returns (b: bool)
      ensures b <==> key in settings
    {
      b := key in settings;
    }

    /** `Section.del_setting`: an absent name raises InvalidSettingError and changes nothing. */
    method DelSetting(key: string) returns (r: Outcome<Error>)
      modifies this
      ensures name == old(name)
      ensures r.Pass? <==> key in old(settings)
      ensures r.Pass? ==> settings == old(settings) - {key}
      ensures r.Fail? ==> r.error == InvalidSettingError(key) && settings == old(settings)
    {
      if key !in settings {
        return Fail(InvalidSettingError(key));
      }
      settings := settings - {key};
      return Pass;
    }

    /** `Section.get_settings`: the setting names in ascending order. */
    method GetSettings() returns (names: seq<string>)
      ensures names == SortedOf(settings.Keys)
    {
      names := SortKeys(settings.Keys);
    }

    /** `Section.__iter__`: the settings, in ascending order of their names. */
    method Items() returns (items: seq<Setting>)
      ensures |items| == |SortedOf(settings.Keys)|
      ensures forall i :: 0 <= i < |items| ==> items[i] == settings[SortedOf(settings.Keys)[i]]
    {
      items := ValuesInOrder(settings);
    }
  }

  /** The values of `table`, in ascending order of their keys. */
  method ValuesInOrder<V>(table: map<string, V>) returns (items: seq<V>)
    ensures |items| == |SortedOf(table.Keys)|
    ensures forall i :: 0 <= i < |items| ==> items[i] == table[SortedOf(table.Keys)[i]]
  {
    var names := SortKeys(table.Keys);
    items := [];
    for i := 0 to |names|
      invariant |items| == i
      invariant forall j :: 0 <= j < i ==> items[j] == table[names[j]]
    {
      items := items + [table[names[i]]];
    }
  }

  // ---------------------------------------------------------------------------------------
  // What a configuration holds, as values
  // ---------------------------------------------------------------------------------------

  /** The settings of every section, by section name. */
  type View = map<string, map<string, Setting>>

  /** `table` with each setting of `defaults` it lacks added. */
  function Inherit(table: map<string, Setting>, defaults: map<string, Setting>): (r: map<string, Setting>)
    ensures r.Keys == table.Keys + defaults.Keys
    ensures forall k :: k in table ==> r[k] == table[k]
    ensures forall k :: k in defaults && k !in table ==> r[k] == defaults[k]
  {
    map k | k in table.Keys + defaults.Keys :: if k in table then table[k] else defaults[k]
  }

  /** `Config.apply_defaults(section)` on values: when the default section `d` exists, every
      selected section other than `d` inherits the settings of `d` it lacks; with no default
      section nothing changes. */
  function DefaultsApplied(view: View, d: string, only: Option<string>): (r: View)
    ensures r.Keys == view.Keys
    ensures d !in view ==> r == view
    ensures forall n :: n in view && (n == d || d !in view || (only.Some? && only.value != n)) ==> r[n] == view[n]
    ensures forall n :: n in view && n != d && d in view && (only.None? || only.value == n) ==>
      r[n] == Inherit(view[n], view[d])
  {
    if d !in view then view
    else map n | n in view :: if n == d || (only.Some? && only.value != n) then view[n] else Inherit(view[n], view[d])
  }

  /** Applying the defaults never replaces a setting a section already has. */
  lemma DefaultsNeverOverwrite(view: View, d: string, only: Option<string>, n: string, k: string)
    requires n in view && k in view[n]
    ensures k in DefaultsApplied(view, d, only)[n]
    ensures DefaultsApplied(view, d, only)[n][k] == view[n][k]
  {
  }

  /** Applying the defaults a second time changes nothing. */
  lemma DefaultsIdempotent(view: View, d: string, only: Option<string>)
    ensures DefaultsApplied(DefaultsApplied(view, d, only), d, only) == DefaultsApplied(view, d, only)
  {
    var once := DefaultsApplied(view, d, only);
    var twice := DefaultsApplied(once, d, only);
    if d in view {
      forall n | n in view ensures twice[n] == once[n] {
        if n != d && (only.None? || only.value == n) {
          assert once[d] == view[d];
          assert once[n] == Inherit(view[n], view[d]);
          assert twice[n] == Inherit(once[n], once[d]);
        }
      }
    }
  }

  /** Every section named in `targets` inherits from `defaults`: the state of
      `apply_defaults` part-way through its loop. */
  function FilledIn(view: View, defaults: map<string, Setting>, targets: set<string>): (r: View)
    ensures r.Keys == view.Keys
  {
    map n | n in view :: if n in targets then Inherit(view[n], defaults) else view[n]
  }

  /** The settings of `defaults` named in `names`. */
  function Take(defaults: map<string, Setting>, names: seq<string>): (r: map<string, Setting>)
    ensures forall k :: k in r <==> k in defaults && k in names
  {
    map k | k in defaults && k in names :: defaults[k]
  }

  /** One more name considered by the inner loop of `apply_defaults`. */
  lemma TakeStep(table: map<string, Setting>, defaults: map<string, Setting>, names: seq<string>, x: string)
    requires x in defaults
    ensures var t := Inherit(table, Take(defaults, names));
      Inherit(table, Take(defaults, names + [x])) == if x in t then t else t[x := defaults[x]]
  {
    var t := Inherit(table, Take(defaults, names));
    if x in t {
      assert Inherit(table, Take(defaults, names + [x])) == t;
    } else {
      assert Inherit(table, Take(defaults, names + [x])) == t[x := defaults[x]];
    }
  }

  /** One more section filled by the outer loop of `apply_defaults`. */
  lemma FilledInStep(view: View, defaults: map<string, Setting>, done: set<string>, n: string)
    requires n in view && n !in done
    ensures var f := FilledIn(view, defaults, done);
      FilledIn(view, defaults, done + {n}) == f[n := Inherit(f[n], defaults)]
  {
  }

  /** Filling the selected sections other than the default one is applying the defaults. */
  lemma DefaultsAreFilledIn(view: View, d: string, only: Option<string>, targets: set<string>)
    requires d in view
    requires targets == if only.None? then view.Keys else {only.value}
    ensures FilledIn(view, view[d], targets - {d}) == DefaultsApplied(view, d, only)
  {
  }

  /** `view[sec][key] := s` as `Config.set_setting` performs it: a missing section is first
      created empty, which applies the defaults to every section. */
  function Stored(view: View, d: string, sec: string, key: string, s: Setting): (r: View)
    ensures r.Keys == view.Keys + {sec}
    ensures key in r[sec] && r[sec][key] == s
    ensures sec in view ==> r == view[sec := view[sec][key := s]]
  {
    var v := if sec in view then view else DefaultsApplied(view[sec := map[]], d, None);
    v[sec := v[sec][key := s]]
  }

  /** One section of another configuration applied by `Config.apply_config`: a section this
      one lacks is copied in (and the defaults re-applied); otherwise each of its settings
      replaces the setting of the same name. */
  function Merged(view: View, d: string, name: string, incoming: map<string, Setting>): (r: View)
    ensures r.Keys == view.Keys + {name}
    ensures name in view ==> r == view[name := view[name] + incoming]
  {
    if name in view then view[name := view[name] + incoming]
    else DefaultsApplied(view[name := incoming], d, None)
  }

  /** `Config.apply_config` on values: the sections named in `order`, taken from `incoming`,
      merged one after the other. */
  function MergedAll(view: View, d: string, incoming: View, order: seq<string>): (r: View)
    requires forall i :: 0 <= i < |order| ==> order[i] in incoming
    ensures forall n :: n in r <==> n in view || n in order
    decreases |order|
  {
    if order == [] then view
    else
      var last := order[|order| - 1];
      Merged(MergedAll(view, d, incoming, order[..|order| - 1]), d, last, incoming[last])
  }

  /** `Config.apply_config` on values: every section of `incoming`, in ascending order of
      names, merged in. */
  ghost function Applied(view: View, d: string, incoming: View): (r: View)
    ensures forall n :: n in r <==> n in view || n in incoming
  {
    MergedAll(view, d, incoming, SortedOf(incoming.Keys))
  }

  /** One more section merged by the loop of `apply_config`. */
  lemma MergedAllStep(view: View, d: string, incoming: View, names: seq<string>, i: nat)
    requires i < |names| && forall j :: 0 <= j < |names| ==> names[j] in incoming
    ensures MergedAll(view, d, incoming, names[..i + 1])
      == Merged(MergedAll(view, d, incoming, names[..i]), d, names[i], incoming[names[i]])
  {
    assert names[..i + 1][..i] == names[..i];
  }

  /** After `apply_config`, each setting of every merged section of the other configuration
      is present with the other configuration's value. */
  lemma {:induction false} MergedAllTakesIncoming(view: View, d: string, incoming: View, order: seq<string>, n: string, k: string)
    requires forall i :: 0 <= i < |order| ==> order[i] in incoming
    requires n in order && k in incoming[n]
    ensures n in MergedAll(view, d, incoming, order)
    ensures k in MergedAll(view, d, incoming, order)[n]
    ensures MergedAll(view, d, incoming, order)[n][k] == incoming[n][k]
  {
    var last := order[|order| - 1];
    var prefix := order[..|order| - 1];
    var m := MergedAll(view, d, incoming, prefix);
    if n == last {
      if n !in m {
        DefaultsNeverOverwrite(m[n := incoming[n]], d, None, n, k);
      }
    } else {
      assert n in prefix by {
        var i :| 0 <= i < |order| && order[i] == n;
        assert prefix[i] == n;
      }
      MergedAllTakesIncoming(view, d, incoming, prefix, n, k);
      if last !in m {
        DefaultsNeverOverwrite(m[last := incoming[last]], d, None, n, k);
      }
    }
  }

  /** After `apply_config`, a setting the other configuration does not mention keeps its value. */
  lemma {:induction false} MergedAllKeepsOwn(view: View, d: string, incoming: View, order: seq<string>, n: string, k: string)
    requires forall i :: 0 <= i < |order| ==> order[i] in incoming
    requires n in view && k in view[n]
    requires n in order ==> k !in incoming[n]
    ensures n in MergedAll(view, d, incoming, order)
    ensures k in MergedAll(view, d, incoming, order)[n]
    ensures MergedAll(view, d, incoming, order)[n][k] == view[n][k]
  {
    if order != [] {
      var last := order[|order| - 1];
      var prefix := order[..|order| - 1];
      assert n in prefix ==> n in order;
      MergedAllKeepsOwn(view, d, incoming, prefix, n, k);
      var m := MergedAll(view, d, incoming, prefix);
      if last !in m {
        DefaultsNeverOverwrite(m[last := incoming[last]], d, None, n, k);
      }
    }
  }

  /** Without a default section, applying a configuration to an empty one copies it. */
  lemma {:induction false} MergedIntoEmptyCopies(d: string, incoming: View, order: seq<string>)
    requires forall i :: 0 <= i < |order| ==> order[i] in incoming
    requires d !in incoming
    ensures MergedAll(map[], d, incoming, order) == map n | n in order :: incoming[n]
  {
    if order != [] {
      var last := order[|order| - 1];
      var prefix := order[..|order| - 1];
      MergedIntoEmptyCopies(d, incoming, prefix);
      var m := MergedAll(map[], d, incoming, prefix);
      var goal := map n | n in order :: incoming[n];
      assert d !in m[last := incoming[last]];
      assert m[last := incoming[last]] == goal by {
        assert forall n :: n in order <==> n in prefix || n == last;
      }
      if last in m {
        assert m[last] + incoming[last] == incoming[last];
      }
    }
  }

  // ---------------------------------------------------------------------------------------
  // Reading configuration files, as values
  // ---------------------------------------------------------------------------------------

  /** The default section of a `Config()`, and the section settings go to before any header. */
  const DefaultsName: string := "defaults"
  const FirstSection: string := "main"

  /** The earlier value of a repeated key, as the list the new text is appended to: the value
      itself when it is a list, otherwise a list of it, auto-typed once more. */
  function Listed(s: Setting): seq<Value> {
    if s.value.VList? then s.value.items
    else if s.autoType then [AutoType(s.value)]
    else [s.value]
  }

  /** A key repeated in one section: the setting's value is made a list if it is not one, the
      new text is appended to that list, and the list is set again. */
  function Appended(s: Setting, text: string): (r: Setting)
    ensures r.autoType == s.autoType
    ensures r.Get(true) == VList(Listed(s) + [VStr(text)])
    ensures r.Get(false) == if s.autoType then AutoType(r.Get(true)) else r.Get(true)
    ensures r.Get(false).VList? && |r.Get(false).items| == |Listed(s)| + 1
  {
    var listed := if s.value.VList? then s else s.Set(VList([s.value]), false);
    var items := if listed.value.VList? then listed.value.items else [];
    listed.Set(VList(items + [VStr(text)]), false)
  }

  /** What `create_from_file` has read so far: the sections, and the current section name. */
  datatype ParseState = ParseState(view: View, current: string)

  /** One parseable line of `create_from_file`. A header makes its section current, creating
      it empty when new; an assignment creates its setting in the current section, or appends
      to it when the key is already there. */
  function ParseStep(st: ParseState, k: LineKind): (r: ParseState)
    requires !k.Unparseable?
    ensures k.Header? ==> r.current == k.name && k.name in r.view
    ensures !k.Header? ==> r.current == st.current
    ensures k.Assign? ==> st.current in r.view && k.key in r.view[st.current]
    ensures forall n :: n in st.view ==> n in r.view
  {
    match k
    case Ignored => st
    case Header(name) =>
      var view := if name in st.view then st.view else DefaultsApplied(st.view[name := map[]], DefaultsName, None);
      ParseState(view, name)
    case Assign(key, text) =>
      var sec := st.current;
      if sec in st.view && key in st.view[sec] then
        st.(view := st.view[sec := st.view[sec][key := Appended(st.view[sec][key], text)]])
      else
        st.(view := Stored(st.view, DefaultsName, sec, key, NewSetting(VStr(text), true)))
  }

  /** `create_from_file` over classified lines: the first unparseable one raises
      ConfigParseError with its number, counted from one, and its text. */
  function ParseKinds(kinds: seq<LineKind>): (r: Result<ParseState, Error>)
    ensures r.Failure? ==> r.error.ConfigParseError? && 1 <= r.error.line <= |kinds|
    ensures r.Failure? ==> kinds[r.error.line - 1] == Unparseable(r.error.text)
    decreases |kinds|
  {
    if kinds == [] then Success(ParseState(map[], FirstSection))
    else
      var last := kinds[|kinds| - 1];
      match ParseKinds(kinds[..|kinds| - 1])
      case Failure(e) => Failure(e)
      case Success(st) =>
        if last.Unparseable? then Failure(ConfigParseError(|kinds|, last.line))
        else Success(ParseStep(st, last))
  }

  /** `Config.create_from_file`: the lines parsed, and the defaults applied once more. */
  function ParseFile(lines: seq<string>): (r: Result<View, Error>)
    ensures r.Failure? <==> ParseKinds(Kinds(lines)).Failure?
    ensures r.Failure? ==> r.error == ParseKinds(Kinds(lines)).error
  {
    match ParseKinds(Kinds(lines))
    case Failure(e) => Failure(e)
    case Success(st) => Success(DefaultsApplied(st.view, DefaultsName, None))
  }

  /** One more line read by the loop of `create_from_file`. */
  lemma ParseKindsStep(kinds: seq<LineKind>, n: nat)
    requires n < |kinds|
    ensures ParseKinds(kinds[..n + 1]) == match ParseKinds(kinds[..n])
      case Failure(e) => Failure(e)
      case Success(st) =>
        if kinds[n].Unparseable? then Failure(ConfigParseError(n + 1, kinds[n].line))
        else Success(ParseStep(st, kinds[n]))
  {
    assert kinds[..n + 1][..n] == kinds[..n];
  }

  /** Once a prefix fails to parse, the whole file fails with the same error. */
  lemma {:induction false} ParseFailureSticks(kinds: seq<LineKind>, n: nat)
    requires n <= |kinds| && ParseKinds(kinds[..n]).Failure?
    ensures ParseKinds(kinds) == ParseKinds(kinds[..n])
    decreases |kinds|
  {
    if n == |kinds| {
      assert kinds[..n] == kinds;
    } else {
      var init := kinds[..|kinds| - 1];
      assert init[..n] == kinds[..n];
      ParseFailureSticks(init, n);
    }
  }

  /** Parsing fails exactly when some line is unparseable, and the error names the first. */
  lemma {:induction false} ParseFailsAtFirstUnparseable(kinds: seq<LineKind>)
    ensures ParseKinds(kinds).Failure? <==> exists i :: 0 <= i < |kinds| && kinds[i].Unparseable?
    ensures ParseKinds(kinds).Failure? ==>
      forall j :: 0 <= j < ParseKinds(kinds).error.line - 1 ==> !kinds[j].Unparseable?
  {
    if kinds != [] {
      var prefix := kinds[..|kinds| - 1];
      ParseFailsAtFirstUnparseable(prefix);
      if ParseKinds(prefix).Failure? {
        var i :| 0 <= i < |prefix| && prefix[i].Unparseable?;
        assert kinds[i] == prefix[i];
      } else {
        assert forall j :: 0 <= j < |prefix| ==> kinds[j] == prefix[j];
      }
    }
  }

  /** `create_from_file` raises an error exactly when some line is neither blank, a comment,
      a header nor an assignment. */
  lemma ParseFileFailsIffBadLine(lines: seq<string>)
    ensures ParseFile(lines).Failure? <==> exists i :: 0 <= i < |lines| && !LineParses(lines[i])
  {
    var kinds := Kinds(lines);
    ParseFailsAtFirstUnparseable(kinds);
    if exists i :: 0 <= i < |lines| && !LineParses(lines[i]) {
      var i :| 0 <= i < |lines| && !LineParses(lines[i]);
      assert kinds[i].Unparseable?;
    }
  }

  /** The error `create_from_file` raises is ConfigParseError naming the first such line, its
      number counted from one and its text. */
  lemma ParseFileErrorNamesFirstBadLine(lines: seq<string>)
    requires ParseFile(lines).Failure?
    ensures var e := ParseFile(lines).error;
      e.ConfigParseError? && 1 <= e.line <= |lines| && e.text == lines[e.line - 1] && !LineParses(e.text)
    ensures forall j :: 0 <= j < ParseFile(lines).error.line - 1 ==> LineParses(lines[j])
  {
    var kinds := Kinds(lines);
    ParseFailsAtFirstUnparseable(kinds);
    var e := ParseKinds(kinds).error;
    KindsAt(lines, e.line - 1);
    forall j | 0 <= j < e.line - 1 ensures LineParses(lines[j]) {
      KindsAt(lines, j);
    }
  }

  /** A file named to `Config.read`: its path, and its lines when it can be opened. */
  datatype File = File(path: string, lines: Option<seq<string>>)

  /** `Config.read(files, required)` on values: each file is parsed and applied in turn; a file
      that cannot be opened raises IOError when `required` holds and otherwise ends the
      reading quietly; a parse error ends it with that error. */
  ghost function ReadAll(view: View, d: string, files: seq<File>, required: bool): (r: (Outcome<Error>, View))
    ensures r.0.Fail? && r.0.error.IOError? ==> required
    ensures r.0.Fail? ==> r.0.error.IOError? || r.0.error.ConfigParseError?
    decreases |files|
  {
    if files == [] then (Pass, view)
    else if files[0].lines.None? then (if required then Fail(IOError(files[0].path)) else Pass, view)
    else match ParseFile(files[0].lines.value)
      case Failure(e) => (Fail(e), view)
      case Success(parsed) => ReadAll(Applied(view, d, parsed), d, files[1..], required)
  }

  /** The file `files[i]` read by `Config.read`, the rest left to the later files. */
  lemma ReadAllStep(view: View, d: string, files: seq<File>, i: nat, required: bool)
    requires i < |files|
    ensures ReadAll(view, d, files[i..], required) ==
      if files[i].lines.None? then (if required then Fail(IOError(files[i].path)) else Pass, view)
      else match ParseFile(files[i].lines.value)
        case Failure(e) => (Fail(e), view)
        case Success(parsed) => ReadAll(Applied(view, d, parsed), d, files[i + 1..], required)
  {
    assert files[i..][1..] == files[i + 1..];
  }

  // ---------------------------------------------------------------------------------------
  // Configurations
  // ---------------------------------------------------------------------------------------

  /** A `Config`: sections by name, and the name of the section that holds the defaults. */
  class Config {
    var sections: map<string, Section>
    var defaultSection: string

    /** Every section is stored under its own name, so no section is stored twice. */
    ghost predicate Valid()
      reads this, sections.Values
    {
      forall n :: n in sections ==> sections[n].name == Some(n)
    }

    /** The settings of every section. */
    ghost function View(): View
      reads this, sections.Values
    {
      map n | n in sections :: sections[n].settings
    }

    /** `Config(default_section)` */
    constructor(defaultName: string)
      ensures Valid() && sections == map[] && defaultSection == defaultName
    {
      sections := map[];
      defaultSection := defaultName;
    }

    /** `Config.get_section`: an absent name raises InvalidSectionError. */
    method GetSection(n: string) returns (r: Result<Section, Error>)
      ensures r.Success? <==> n in sections
      ensures r.Success? ==> r.value == sections[n]
      ensures r.Failure? ==> r.error == InvalidSectionError(n)
    {
      if n !in sections {
        return Failure(InvalidSectionError(n));
      }
      return Success(sections[n]);
    }

    /** `Config.has_section` */
    method HasSection(n: string) returns (b: bool)
      ensures b <==> n in sections
    {
      b := n in sections;
    }

    /** `Config.del_section`: an absent name raises InvalidSectionError and changes nothing. */
    method DelSection(n: string) returns (r: Outcome<Error>)
      requires Valid()
      modifies this
      ensures Valid() && defaultSection == old(defaultSection)
      ensures r.Pass? <==> n in old(sections)
      ensures r.Pass? ==> sections == old(sections) - {n}
      ensures r.Fail? ==> r.error == InvalidSectionError(n) && sections == old(sections)
    {
      if n !in sections {
        return Fail(InvalidSectionError(n));
      }
      sections := sections - {n};
      return Pass;
    }

    /** `Config.get_sections`: the section names in ascending order. */
    method GetSections() returns (names: seq<string>)
      ensures names == SortedOf(sections.Keys)
    {
      names := SortKeys(sections.Keys);
    }

    /** `Config.__iter__`: the sections, in ascending order of their names. */
    method Items() returns (items: seq<Section>)
      ensures |items| == |SortedOf(sections.Keys)|
      ensures forall i :: 0 <= i < |items| ==> items[i] == sections[SortedOf(sections.Keys)[i]]
    {
      items := ValuesInOrder(sections);
    }

    /** `Config.set_default_section`: the defaults are not re-applied. */
    method SetDefaultSection(d: string)
      modifies this
      ensures defaultSection == d && sections == old(sections)
    {
      defaultSection := d;
    }

    /** `Config.get_setting(section, setting, raw)`: a missing section, then a missing
        setting, raise the matching error. */
    method GetSetting(sec: string, key: string, rawFlag: bool) returns (r: Result<Value, Error>)
      requires Valid()
      ensures sec !in View() ==> r == Failure(InvalidSectionError(sec))
      ensures sec in View() && key !in View()[sec] ==> r == Failure(InvalidSettingError(key))
      ensures sec in View() && key in View()[sec] ==> r == Success(View()[sec][key].Get(rawFlag))
    {
      var s := GetSection(sec);
      if s.Failure? {
        return Failure(s.error);
      }
      var t := s.value.GetSetting(key);
      if t.Failure? {
        return Failure(t.error);
      }
      return Success(t.value.Get(rawFlag));
    }

    /** The section stored under `n` is the only one the update of its settings touches. */
    lemma OnlyOneSection(n: string)
      requires Valid() && n in sections
      ensures forall m :: m in sections && m != n ==> sections[m] != sections[n]
    {
    }

    /** `get_section(sec).set_setting(key, s)`, the step `apply_config` and `create_from_file`
        take on an existing section. */
    method StoreSetting(sec: string, key: string, s: Setting)
      requires Valid() && sec in sections
      modifies sections[sec]
      ensures Valid()
      ensures View() == old(View())[sec := old(View())[sec][key := s]]
    {
      OnlyOneSection(sec);
      sections[sec].SetSetting(key, s);
    }

    /** The inner loop of `Config.apply_defaults`: `section` takes each setting of
        `defaults` it lacks, in ascending order of names. */
    static method Fill(section: Section, defaults: map<string, Setting>)
      modifies section
      ensures section.name == old(section.name)
      ensures section.settings == Inherit(old(section.settings), defaults)
    {
      var names := SortKeys(defaults.Keys);
      FillInOrder(section, defaults, names);
    }

    /** `Fill`, visiting the names of `defaults` in the order `names` lists them. */
    static method FillInOrder(section: Section, defaults: map<string, Setting>, names: seq<string>)
      requires forall k :: k in names <==> k in defaults
      modifies section
      ensures section.name == old(section.name)
      ensures section.settings == Inherit(old(section.settings), defaults)
    {
      ghost var start := section.settings;
      assert Inherit(start, Take(defaults, names[..0])) == start;
      for i := 0 to |names|
        invariant section.name == old(section.name)
        invariant section.settings == Inherit(start, Take(defaults, names[..i]))
      {
        var has := section.HasSetting(names[i]);
        TakeStep(start, defaults, names[..i], names[i]);
        assert names[..i + 1] == names[..i] + [names[i]];
        if !has {
          section.SetSetting(names[i], defaults[names[i]]);
        }
      }
      assert names[..|names|] == names;
      assert Take(defaults, names) == defaults;
    }

    /** `Fill` on the section stored under `n`; no other section changes. */
    method FillSection(n: string, defaults: map<string, Setting>)
      requires Valid() && n in sections
      modifies sections[n]
      ensures Valid()
      ensures View() == old(View())[n := Inherit(old(View())[n], defaults)]
    {
      OnlyOneSection(n);
      Fill(sections[n], defaults);
    }

    /** The outer loop of `Config.apply_defaults`: every section in `targets` other than
        the default one takes the settings of `defaults` it lacks. */
    method FillSections(targets: set<string>, defaults: map<string, Setting>)
      requires Valid() && targets <= sections.Keys
      modifies sections.Values
      ensures Valid()
      ensures View() == FilledIn(old(View()), defaults, targets - {defaultSection})
    {
      var todo := targets;
      while todo != {}
        invariant todo <= targets
        invariant Valid()
        invariant View() == FilledIn(old(View()), defaults, targets - todo - {defaultSection})
        decreases todo
      {
        var n :| n in todo;
        ghost var done := targets - todo - {defaultSection};
        if n != defaultSection {
          FilledInStep(old(View()), defaults, done, n);
          FillSection(n, defaults);
          assert targets - (todo - {n}) - {defaultSection} == done + {n};
        } else {
          assert targets - (todo - {n}) - {defaultSection} == done;
        }
        todo := todo - {n};
      }
      assert targets - todo - {defaultSection} == targets - {defaultSection};
    }

    /** `Config.apply_defaults(section)`: with a default section present, `only` names the one
        section to fill (an absent name raises InvalidSectionError) or, when None, every
        section is filled. */
    method ApplyDefaults(only: Option<string>) returns (r: Outcome<Error>)
      requires Valid()
      modifies sections.Values
      ensures Valid()
      ensures r.Fail? <==> defaultSection in sections && only.Some? && only.value !in sections
      ensures r.Fail? ==> r.error == InvalidSectionError(only.value) && View() == old(View())
      ensures r.Pass? ==> View() == DefaultsApplied(old(View()), defaultSection, only)
    {
      if defaultSection !in sections {
        return Pass;
      }
      var targets: set<string>;
      if only.None? {
        targets := sections.Keys;
      } else if only.value !in sections {
        return Fail(InvalidSectionError(only.value));
      } else {
        targets := {only.value};
      }
      var defaults := sections[defaultSection].settings;
      assert defaults == View()[defaultSection];
      FillSections(targets, defaults);
      DefaultsAreFilledIn(old(View()), defaultSection, only, targets);
      return Pass;
    }

    /** `Config.set_section`: the section is stamped with its name, stored, and the defaults
        are applied to every section. */
    method SetSection(n: string, section: Section)
      requires Valid()
      requires forall m :: m in sections && m != n ==> sections[m] != section
      modifies this, section, sections.Values
      ensures Valid() && defaultSection == old(defaultSection)
      ensures sections == old(sections)[n := section]
      ensures fresh(sections.Values - old(sections.Values) - {section})
      ensures View() == DefaultsApplied(old(View())[n := old(section.settings)], defaultSection, None)
    {
      section.SetName(n);
      sections := sections[n := section];
      assert View() == old(View())[n := old(section.settings)];
      var _ := ApplyDefaults(None);
    }
  
    /** The first step of `Config.set_setting`: a missing section `sec` is created, empty but
        for the defaults, when `autoSection` holds. */
    method CreateMissing(sec: string, autoSection: bool)
      requires Valid()
      modifies this, sections.Values
      ensures Valid() && defaultSection == old(defaultSection)
      ensures fresh(sections.Values - old(sections.Values))
      ensures sec in sections <==> sec in old(sections) || autoSection
      ensures View() == if sec in old(sections) || !autoSection then old(View())
                        else DefaultsApplied(old(View())[sec := map[]], defaultSection, None)
    {
      var has := HasSection(sec);
      if !has && autoSection {
        var created := new Section();
        SetSection(sec, created);
      }
    }

    /** `Config.set_setting(section, setting, value, auto_section, auto_type)`: a missing
        section is created when `autoSection` holds and otherwise raises InvalidSectionError;
        the value is wrapped in a new setting. */
    method SetSetting(sec: string, key: string, v: Value, autoSection: bool, autoType: bool)
      returns (r: Outcome<Error>)
      requires Valid()
      modifies this, sections.Values
      ensures Valid() && defaultSection == old(defaultSection)
      ensures fresh(sections.Values - old(sections.Values))
      ensures r.Fail? <==> sec !in old(sections) && !autoSection
      ensures r.Fail? ==> r.error == InvalidSectionError(sec) && View() == old(View())
      ensures r.Pass? ==> View() == Stored(old(View()), defaultSection, sec, key, NewSetting(v, autoType))
    {
      CreateMissing(sec, autoSection);
      var g := GetSection(sec);
      if g.Failure? {
        return Fail(g.error);
      }
      StoreSetting(sec, key, NewSetting(v, autoType));
      return Pass;
    }

    /** The inner loop of `Config.apply_config`: each setting of `table`, in ascending order of
        names, replaces the setting of the same name in section `n`. */
    method Overwrite(n: string, table: map<string, Setting>)
      requires Valid() && n in sections
      modifies sections[n]
      ensures Valid()
      ensures View() == old(View())[n := old(View())[n] + table]
    {
      var names := SortKeys(table.Keys);
      OnlyOneSection(n);
      PutInOrder(sections[n], table, names);
    }

    /** `Overwrite` on one section, visiting the names of `table` in the order `names` lists them. */
    static method PutInOrder(section: Section, table: map<string, Setting>, names: seq<string>)
      requires forall k :: k in names <==> k in table
      modifies section
      ensures section.name == old(section.name)
      ensures section.settings == old(section.settings) + table
    {
      ghost var start := section.settings;
      assert start + Take(table, names[..0]) == start;
      for i := 0 to |names|
        invariant section.name == old(section.name)
        invariant section.settings == start + Take(table, names[..i])
      {
        assert names[..i + 1] == names[..i] + [names[i]];
        assert start + Take(table, names[..i + 1]) == (start + Take(table, names[..i]))[names[i] := table[names[i]]];
        section.SetSetting(names[i], table[names[i]]);
      }
      assert names[..|names|] == names;
      assert Take(table, names) == table;
    }

    /** `Config.apply_config(other)`: the sections of `other`, in ascending order of names,
        are merged into this configuration (see `Merged`). The other configuration's
        settings are read before anything changes. */
    method ApplyConfig(other: Config)
      requires Valid() && other.Valid()
      modifies this, sections.Values
      ensures Valid() && defaultSection == old(defaultSection)
      ensures fresh(sections.Values - old(sections.Values))
      ensures View() == Applied(old(View()), defaultSection, old(other.View()))
    {
      var incoming := map n | n in other.sections :: other.sections[n].settings;
      assert incoming == other.View();
      var names := SortKeys(incoming.Keys);
      MergeInOrder(incoming, names);
    }

    /** One section of another configuration merged in, as the body of the loop of
        `Config.apply_config` does it: copied in when absent, else overwriting settings. */
    method MergeOne(n: string, table: map<string, Setting>)
      requires Valid()
      modifies this, sections.Values
      ensures Valid() && defaultSection == old(defaultSection)
      ensures fresh(sections.Values - old(sections.Values))
      ensures View() == Merged(old(View()), defaultSection, n, table)
    {
      var has := HasSection(n);
      if !has {
        var copy := Section.Holding(table);
        assert copy !in sections.Values;
        SetSection(n, copy);
      } else {
        Overwrite(n, table);
      }
    }

    /** The outer loop of `Config.apply_config`, over the section names `names`. */
    method MergeInOrder(incoming: View, names: seq<string>)
      requires Valid()
      requires forall i :: 0 <= i < |names| ==> names[i] in incoming
      modifies this, sections.Values
      ensures Valid() && defaultSection == old(defaultSection)
      ensures fresh(sections.Values - old(sections.Values))
      ensures View() == MergedAll(old(View()), defaultSection, incoming, names)
    {
      for i := 0 to |names|
        invariant Valid() && defaultSection == old(defaultSection)
        invariant fresh(sections.Values - old(sections.Values))
        invariant View() == MergedAll(old(View()), defaultSection, incoming, names[..i])
      {
        MergedAllStep(old(View()), defaultSection, incoming, names, i);
        MergeOne(names[i], incoming[names[i]]);
      }
      assert names[..|names|] == names;
    }
  
    /** A section header read by `Config.create_from_file`: the section is created empty
        when new. */
    method ReadHeader(name: string)
      requires Valid() && defaultSection == DefaultsName
      modifies this, sections.Values
      ensures Valid() && defaultSection == DefaultsName
      ensures fresh(sections.Values - old(sections.Values))
      ensures View() == ParseStep(ParseState(old(View()), name), Header(name)).view
    {
      CreateMissing(name, true);
    }

    /** An assignment read by `Config.create_from_file` with `section` current: a key already
        in the section has the text appended, any other is set (creating the section). */
    method ReadAssignment(section: string, key: string, text: string)
      requires Valid() && defaultSection == DefaultsName
      modifies this, sections.Values
      ensures Valid() && defaultSection == DefaultsName
      ensures fresh(sections.Values - old(sections.Values))
      ensures View() == ParseStep(ParseState(old(View()), section), Assign(key, text)).view
    {
      ghost var before := View();
      var repeated := false;
      var has := HasSection(section);
      if has {
        repeated := sections[section].HasSetting(key);
      }
      assert repeated <==> section in before && key in before[section];
      if repeated {
        var current := sections[section].settings[key];
        assert current == before[section][key];
        StoreSetting(section, key, Appended(current, text));
      } else {
        var _ := SetSetting(section, key, VStr(text), true, true);
        assert View() == Stored(before, DefaultsName, section, key, NewSetting(VStr(text), true));
      }
    }

    /** The body of the loop of `Config.create_from_file`, on one line read into this
        configuration with `section` current: the next current section, or None when the line
        cannot be parsed (and then nothing changes). */
    method ReadLine(section: string, line: string) returns (next: Option<string>)
      requires Valid() && defaultSection == DefaultsName
      modifies this, sections.Values
      ensures Valid() && defaultSection == DefaultsName
      ensures fresh(sections.Values - old(sections.Values))
      ensures next.None? <==> Classify(line).Unparseable?
      ensures next.Some? ==>
        ParseState(View(), next.value) == ParseStep(ParseState(old(View()), section), Classify(line))
    {
      if IsBlankOrComment(line) {
        return Some(section);
      }
      var header := HeaderName(line);
      if header.Some? {
        ReadHeader(header.value);
        return Some(header.value);
      }
      var assignment := Assignment(line);
      if assignment.Some? {
        ReadAssignment(section, assignment.value.0, assignment.value.1);
        return Some(section);
      }
      return None;
    }

    /** `Config.create_from_file(fp)`, over the lines the file yields. */
    static method CreateFromFile(lines: seq<string>) returns (r: Result<Config, Error>)
      ensures r.Failure? <==> ParseFile(lines).Failure?
      ensures r.Failure? ==> r.error == ParseFile(lines).error
      ensures r.Success? ==> fresh(r.value) && r.value.Valid() && r.value.defaultSection == DefaultsName
      ensures r.Success? ==> r.value.View() == ParseFile(lines).value
    {
      var config := new Config(DefaultsName);
      var section := FirstSection;
      var ln := 0;
      while ln < |lines|
        invariant 0 <= ln <= |lines|
        invariant fresh(config) && fresh(config.sections.Values)
        invariant config.Valid() && config.defaultSection == DefaultsName
        invariant ParseKinds(Kinds(lines)[..ln]) == Success(ParseState(config.View(), section))
      {
        ParseKindsStep(Kinds(lines), ln);
        var next := config.ReadLine(section, lines[ln]);
        ln := ln + 1;
        if next.None? {
          ParseFailureSticks(Kinds(lines), ln);
          return Failure(ConfigParseError(ln, lines[ln - 1]));
        }
        section := next.value;
      }
      assert Kinds(lines)[..ln] == Kinds(lines);
      var _ := config.ApplyDefaults(None);
      return Success(config);
    }

    /** `Config.read(files, required)`: see `ReadAll`. */
    method Read(files: seq<File>, required: bool) returns (r: Outcome<Error>)
      requires Valid()
      modifies this, sections.Values
      ensures Valid() && defaultSection == old(defaultSection)
      ensures (r, View()) == ReadAll(old(View()), defaultSection, files, required)
    {
      for i := 0 to |files|
        invariant Valid() && defaultSection == old(defaultSection)
        invariant fresh(sections.Values - old(sections.Values))
        invariant ReadAll(View(), defaultSection, files[i..], required) == ReadAll(old(View()), defaultSection, files, required)
      {
        ReadAllStep(View(), defaultSection, files, i, required);
        var file := files[i];
        if file.lines.None? {
          if required {
            return Fail(IOError(file.path));
          }
          return Pass;
        }
        var c := CreateFromFile(file.lines.value);
        if c.Failure? {
          return Fail(c.error);
        }
        ghost var before := View();
        ApplyConfig(c.value);
        assert View() == Applied(before, defaultSection, ParseFile(file.lines.value).value);
      }
      assert files[|files|..] == [];
      return Pass;
    }
  }
}
