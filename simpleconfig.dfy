/** The older configuration library (simpleconfig.py): settings that keep the raw input beside
    the auto-typed value, sections of settings that may start from a copy of a defaults
    section, and a configuration of sections read from a file of `[section]` headers and
    `key = value` lines. */
module SimpleConfigLib {
  import opened Wrappers
  import opened Text
  import opened Sorting
  import opened Values
  import opened LineSyntax
  import TrunkSimpleConfig

  /** The library's exceptions, one constructor per cause. */
  datatype Error =
    | InvalidSetting(setting: string)
    | SectionExists(section: string)
    | InvalidSection(section: string)
    | HeaderMissing(line: nat, text: string)
    | Unparsed(line: nat, text: string)
  {
    /** The exception class raised. */
    function Class(): string {
      match this
      case InvalidSetting(_) => "SettingError"
      case SectionExists(_) => "SectionError"
      case InvalidSection(_) => "SectionError"
      case _ => "ConfigError"
    }

    /** The message the exception carries; a file line is quoted whole, newline included. */
    function Message(): string {
      match this
      case InvalidSetting(s) => "invalid setting " + s
      case SectionExists(s) => "section " + s + " already exists"
      case InvalidSection(s) => "invalid section " + s
      case HeaderMissing(n, t) => "section header missing at line " + NatToString(n) + ": " + t
      case Unparsed(n, t) => "could not parse config file at line " + NatToString(n) + ": " + t
    }
  }

  // ---------------------------------------------------------------------------------------
  // Value auto-typing
  // ---------------------------------------------------------------------------------------

  /** `SimpleConfigSetting.auto_value`: a string that is wholly a none/null word, an integer,
      a true/yes/on or a false/no/off word becomes None, that integer, True or False; every
      other value, strings and lists alike, is kept. */
  function AutoValue(raw: Value): Value {
    if raw.VStr? && IsKeywordOrInteger(raw.s) then ConvertKeywordOrInteger(raw.s) else raw
  }

  /** Only strings are converted, and a converted string is no longer a string. */
  lemma AutoValueConvertsOnlyWords(v: Value)
    ensures AutoValue(v) == v <==> !(v.VStr? && IsKeywordOrInteger(v.s))
    ensures AutoValue(v) != v ==> v.VStr? && !AutoValue(v).VStr? && !AutoValue(v).VList?
  {
  }

  /** Converting twice is converting once. */
  lemma AutoValueIdempotent(v: Value)
    ensures AutoValue(AutoValue(v)) == AutoValue(v)
  {
  }

  /** Rendering an integer and converting the text gives the integer back. */
  lemma AutoValueIntegerRoundTrip(n: int)
    ensures AutoValue(VStr(IntToString(n))) == VInt(n)
  {
    IntegerTextRoundTrip(n);
  }

  /** Only whole-string matches count: a word or number with more after it stays text. */
  lemma AutoValueWholeStringOnly()
    ensures AutoValue(VStr("none1")) == VStr("none1")
    ensures AutoValue(VStr("-1a")) == VStr("-1a")
  {
    assert LowerString("none1")[4] == '1';
    assert !AllDigits("1a") by { assert !IsDigit("1a"[1]); }
  }

  /** The newer auto-typer of trunk/simpleconfig.py agrees on everything except lists, which
      it types element by element, and quoted strings, which it unquotes. */
  lemma AutoValueAgreesWithAutoType(v: Value)
    requires !v.VList?
    requires v.VStr? ==> TrunkSimpleConfig.QuotedBody(v.s).None?
    ensures AutoValue(v) == TrunkSimpleConfig.AutoType(v)
  {
  }

  // ---------------------------------------------------------------------------------------
  // Settings
  // ---------------------------------------------------------------------------------------

  /** A `SimpleConfigSetting`: the stored value and the raw input it was set from. */
  datatype SimpleConfigSetting = SimpleConfigSetting(value: Value, raw: Value)
  {
    /** `SimpleConfigSetting.get(raw)` */
    function Get(rawFlag: bool): Value {
      if rawFlag then raw else value
    }

    /** `SimpleConfigSetting.set(value, auto_value)`: the raw input is always recorded; the
        value is converted only when `autoValue` holds. Nothing of the earlier state survives. */
    function Set(v: Value, autoValue: bool): (s: SimpleConfigSetting)
      ensures s.Get(true) == v
      ensures s.Get(false) == if autoValue then AutoValue(v) else v
    {
      SimpleConfigSetting(if autoValue then AutoValue(v) else v, v)
    }
  }

  /** `SimpleConfigSetting(value, auto_value)` */
  function MakeSetting(v: Value, autoValue: bool): (s: SimpleConfigSetting)
    ensures s.Get(true) == v
    ensures s.Get(false) == if autoValue then AutoValue(v) else v
  {
    SimpleConfigSetting(VNone, VNone).Set(v, autoValue)
  }

  /** The settings a table of values makes, as a section's `set` stores them. */
  function Converted(table: map<string, Value>, autoValue: bool): (r: map<string, SimpleConfigSetting>)
    ensures r.Keys == table.Keys
    ensures forall k :: k in table ==> r[k] == MakeSetting(table[k], autoValue)
  {
    map k | k in table :: MakeSetting(table[k], autoValue)
  }

  /** The settings the texts read from a file make: each text converted. */
  function Typed(texts: map<string, string>): (r: map<string, SimpleConfigSetting>)
    ensures r.Keys == texts.Keys
    ensures forall k :: k in texts ==> r[k] == MakeSetting(VStr(texts[k]), true)
  {
    map k | k in texts :: MakeSetting(VStr(texts[k]), true)
  }

  /** The entries of `table` whose keys are in `keys`. */
  function Only<V>(table: map<string, V>, keys: set<string>): (r: map<string, V>)
    ensures forall k :: k in r <==> k in table && k in keys
    ensures forall k :: k in r ==> r[k] == table[k]
  {
    map k | k in table && k in keys :: table[k]
  }

  /** Every key taken is the whole table. */
  lemma OnlyAll<V>(table: map<string, V>, keys: set<string>)
    requires table.Keys <= keys
    ensures Only(table, keys) == table
  {
  }

  /** No key taken is nothing. */
  lemma OnlyNone<V>(table: map<string, V>)
    ensures Only(table, {}) == map[]
  {
  }

  /** One more text stored by the loop of `SetTexts`. */
  lemma TypedStep(base: map<string, SimpleConfigSetting>, texts: map<string, string>, done: set<string>, k: string)
    requires k in texts
    ensures base + Typed(Only(texts, done + {k})) == (base + Typed(Only(texts, done)))[k := MakeSetting(VStr(texts[k]), true)]
  {
    TypedOne(texts, done, k);
    MergeUpdate(base, Typed(Only(texts, done)), k, MakeSetting(VStr(texts[k]), true));
  }

  /** One more text taken from `texts` is one more converted setting. */
  lemma TypedOne(texts: map<string, string>, done: set<string>, k: string)
    requires k in texts
    ensures Typed(Only(texts, done + {k})) == Typed(Only(texts, done))[k := MakeSetting(VStr(texts[k]), true)]
  {
    OnlyOne(texts, done, k);
    TypedUpdate(Only(texts, done), k, texts[k]);
  }

  /** One more key taken is one more entry. */
  lemma OnlyOne<V>(table: map<string, V>, keys: set<string>, k: string)
    requires k in table
    ensures Only(table, keys + {k}) == Only(table, keys)[k := table[k]]
  {
    var left := Only(table, keys + {k});
    var right := Only(table, keys)[k := table[k]];
    assert left.Keys == right.Keys;
  }

  /** Converting a table with one more text stores one more converted setting. */
  lemma TypedUpdate(texts: map<string, string>, k: string, t: string)
    ensures Typed(texts[k := t]) == Typed(texts)[k := MakeSetting(VStr(t), true)]
  {
    var left := Typed(texts[k := t]);
    var right := Typed(texts)[k := MakeSetting(VStr(t), true)];
    assert left.Keys == right.Keys;
  }

  /** Merging a table with one more entry is merging it and then storing that entry. */
  lemma MergeUpdate<V>(base: map<string, V>, table: map<string, V>, k: string, v: V)
    ensures base + table[k := v] == (base + table)[k := v]
  {
    var left := base + table[k := v];
    var right := (base + table)[k := v];
    assert left.Keys == right.Keys;
    assert forall j :: j in left ==> left[j] == right[j];
  }

  // ---------------------------------------------------------------------------------------
  // Sections
  // ---------------------------------------------------------------------------------------

  /** A `SimpleConfigSection`: a dictionary of settings, changed in place. */
  class SimpleConfigSection {
    var settings: map<string, SimpleConfigSetting>

    /** `SimpleConfigSection(settings, auto_value, defaults)`: the section starts from a copy of
        the settings of `defaults`, when given, and each initial value then replaces or adds
        the setting of its name. */
    constructor(initial: map<string, Value>, autoValue: bool, defaults: Option<SimpleConfigSection>)
      ensures settings == (if defaults.Some? then defaults.value.settings else map[]) + Converted(initial, autoValue)
    {
      settings := if defaults.Some? then defaults.value.settings else map[];
      new;
      SetValues(initial, autoValue);
    }

    /** The loop of the constructor: each value of `table` set, in whatever order the
        dictionary yields the names. */
    method SetValues(table: map<string, Value>, autoValue: bool)
      modifies this
      ensures settings == old(settings) + Converted(table, autoValue)
    {
      ghost var start := settings;
      var todo := table.Keys;
      ghost var done: set<string> := {};
      OnlyNone(table);
      while todo != {}
        invariant todo <= table.Keys && done == table.Keys - todo
        invariant settings == start + Converted(Only(table, done), autoValue)
        decreases todo
      {
        var k :| k in todo;
        Set(k, table[k], autoValue);
        todo := todo - {k};
        done := done + {k};
      }
      OnlyAll(table, done);
    }

    /** `SimpleConfigSection.set`: the value is wrapped in a new setting. */
    method Set(key: string, v: Value, autoValue: bool)
      modifies this
      ensures settings == old(settings)[key := MakeSetting(v, autoValue)]
    {
      settings := settings[key := MakeSetting(v, autoValue)];
    }

    /** `SimpleConfigSection.get(setting, raw)`: an unknown name raises SettingError. */
    method Get(key: string, rawFlag: bool) returns (r: Result<Value, Error>)
      ensures r.Success? <==> key in settings
      ensures r.Success? ==> r.value == settings[key].Get(rawFlag)
      ensures r.Failure? ==> r.error == InvalidSetting(key)
    {
      if key !in settings {
        return Failure(InvalidSetting(key));
      }
      return Success(settings[key].Get(rawFlag));
    }

    /** `SimpleConfigSection.get_settings`: the setting names in ascending order. */
    method GetSettings() returns (names: seq<string>)
      ensures names == SortedOf(settings.Keys)
    {
      names := SortKeys(settings.Keys);
    }

    /** The loop of `readfp` setting each text of `texts` in this section, in whatever order
        the dictionary yields the names. */
    method SetTexts(texts: map<string, string>)
      modifies this
      ensures settings == old(settings) + Typed(texts)
    {
      ghost var start := settings;
      var todo := texts.Keys;
      ghost var done: set<string> := {};
      OnlyNone(texts);
      while todo != {}
        invariant todo <= texts.Keys && done == texts.Keys - todo
        invariant settings == start + Typed(Only(texts, done))
        decreases todo
      {
        var k :| k in todo;
        TypedStep(start, texts, done, k);
        Set(k, VStr(texts[k]), true);
        todo := todo - {k};
        done := done + {k};
      }
      OnlyAll(texts, done);
    }
  }

  // ---------------------------------------------------------------------------------------
  // What a configuration holds, as values
  // ---------------------------------------------------------------------------------------

  /** The section new sections copy their settings from. */
  const DefaultsName: string := "defaults"

  /** The settings of every section, by section name. */
  type View = map<string, map<string, SimpleConfigSetting>>

  /** What a section added to `view` starts with: a copy of the defaults section's settings,
      or nothing when there is no defaults section. */
  function Seed(view: View): (r: map<string, SimpleConfigSetting>)
    ensures DefaultsName in view ==> r == view[DefaultsName]
    ensures DefaultsName !in view ==> r == map[]
  {
    if DefaultsName in view then view[DefaultsName] else map[]
  }

  /** `view` with section `n` added, seeded from the defaults, when it lacks one. */
  function AddedIfMissing(view: View, n: string): (r: View)
    ensures r.Keys == view.Keys + {n}
    ensures n in view ==> r == view
    ensures n !in view ==> r[n] == Seed(view) && forall m :: m in view ==> r[m] == view[m]
  {
    if n in view then view else view[n := Seed(view)]
  }

  /** Section `n` (added if missing) with the file's `texts` set in it. */
  function Wrote(view: View, n: string, texts: map<string, string>): (r: View)
    ensures r.Keys == view.Keys + {n}
    ensures r[n] == AddedIfMissing(view, n)[n] + Typed(texts)
    ensures forall m :: m in view && m != n ==> r[m] == view[m]
  {
    var v := AddedIfMissing(view, n);
    v[n := v[n] + Typed(texts)]
  }

  /** The first stage of writing a file into a configuration: the settings of the file's
      `[defaults]` section are set in the defaults section, which is added when missing. A
      file `[defaults]` with no settings never reaches the defaults section. */
  function FileDefaults(view: View, dict: map<string, map<string, string>>): (r: View)
    ensures DefaultsName !in dict || dict[DefaultsName] == map[] ==> r == view
    ensures DefaultsName in dict && dict[DefaultsName] != map[] ==>
      r == Wrote(view, DefaultsName, dict[DefaultsName])
  {
    if DefaultsName in dict && dict[DefaultsName] != map[] then Wrote(view, DefaultsName, dict[DefaultsName])
    else view
  }

  /** After the first stage, writing the file's `[defaults]` section again changes nothing. */
  predicate Absorbed(view: View, dict: map<string, map<string, string>>) {
    DefaultsName in dict ==>
      (DefaultsName in view ==> view[DefaultsName] + Typed(dict[DefaultsName]) == view[DefaultsName]) &&
      (DefaultsName !in view ==> dict[DefaultsName] == map[])
  }

  lemma FileDefaultsAbsorbed(view: View, dict: map<string, map<string, string>>)
    ensures Absorbed(FileDefaults(view, dict), dict)
  {
    var v1 := FileDefaults(view, dict);
    if DefaultsName in dict && dict[DefaultsName] != map[] {
      var base := AddedIfMissing(view, DefaultsName)[DefaultsName];
      var t := Typed(dict[DefaultsName]);
      assert v1[DefaultsName] == base + t;
      MergeTwice(base, t);
    } else if DefaultsName in dict {
      assert Typed(dict[DefaultsName]) == map[];
      if DefaultsName in v1 {
        MergeNothing(v1[DefaultsName]);
      }
    }
  }

  /** Merging the same table twice is merging it once. */
  lemma MergeTwice<V>(base: map<string, V>, table: map<string, V>)
    ensures (base + table) + table == base + table
  {
    assert ((base + table) + table).Keys == (base + table).Keys;
  }

  /** Merging an empty table changes nothing. */
  lemma MergeNothing<V>(base: map<string, V>)
    ensures base + map[] == base
  {
    assert (base + map[]).Keys == base.Keys;
  }

  /** The second stage of writing a file into a configuration, with the sections in `done`
      written: a section present beforehand keeps its settings and takes the file's; a
      section that is new starts from the defaults section of the first stage. */
  function Written(view: View, dict: map<string, map<string, string>>, done: set<string>): (r: View)
    requires done <= dict.Keys
    ensures r.Keys == view.Keys + done
  {
    map n | n in view.Keys + done ::
      if n in done then (if n in view then view[n] else Seed(view)) + Typed(dict[n]) else view[n]
  }

  /** Before the second stage writes anything, nothing has changed. */
  lemma WrittenNothing(view: View, dict: map<string, map<string, string>>)
    ensures Written(view, dict, {}) == view
  {
  }

  /** One more section written by the second stage: whatever order the sections come in, the
      defaults section a new section copies is the one of the first stage. */
  lemma WrittenStep(view: View, dict: map<string, map<string, string>>, done: set<string>, n: string)
    requires Absorbed(view, dict)
    requires done <= dict.Keys && n in dict && n !in done
    ensures Written(view, dict, done + {n}) == Wrote(Written(view, dict, done), n, dict[n])
  {
    var lhs := Written(view, dict, done + {n});
    var rhs := Wrote(Written(view, dict, done), n, dict[n]);
    assert lhs.Keys == rhs.Keys;
    forall m | m in lhs ensures lhs[m] == rhs[m] {
      WrittenStepAt(view, dict, done, n, m);
    }
  }

  /** `WrittenStep` for one section `m`. */
  lemma WrittenStepAt(view: View, dict: map<string, map<string, string>>, done: set<string>, n: string, m: string)
    requires Absorbed(view, dict)
    requires done <= dict.Keys && n in dict && n !in done && m in view.Keys + done + {n}
    ensures Written(view, dict, done + {n})[m] == Wrote(Written(view, dict, done), n, dict[n])[m]
  {
    var w := Written(view, dict, done);
    if m != n {
      assert Wrote(w, n, dict[n])[m] == w[m];
    } else if n in view {
      assert w[n] == view[n];
    } else {
      WrittenSeed(view, dict, done);
      assert n !in w;
      assert AddedIfMissing(w, n)[n] == Seed(w);
    }
  }

  /** Once the first stage has absorbed the file's defaults, writing sections leaves the
      defaults a new section copies as they were. */
  lemma WrittenSeed(view: View, dict: map<string, map<string, string>>, done: set<string>)
    requires Absorbed(view, dict) && done <= dict.Keys
    ensures Seed(Written(view, dict, done)) == Seed(view)
  {
    var w := Written(view, dict, done);
    if DefaultsName in done {
      if DefaultsName in view {
        assert w[DefaultsName] == view[DefaultsName] + Typed(dict[DefaultsName]);
      } else {
        assert Typed(dict[DefaultsName]) == map[];
        assert w[DefaultsName] == map[] + map[];
      }
    }
  }

  /** `SimpleConfig.readfp` writing a parsed file into a configuration, on values. */
  function FileApplied(view: View, dict: map<string, map<string, string>>): (r: View)
    ensures r.Keys == view.Keys + dict.Keys
  {
    Written(FileDefaults(view, dict), dict, dict.Keys)
  }

  /** After `readfp`, every setting the file gives a section holds the file's text, converted. */
  lemma FileValuesWin(view: View, dict: map<string, map<string, string>>, n: string, k: string)
    requires n in dict && k in dict[n]
    ensures n in FileApplied(view, dict) && k in FileApplied(view, dict)[n]
    ensures FileApplied(view, dict)[n][k] == MakeSetting(VStr(dict[n][k]), true)
  {
  }

  /** A section present before `readfp` keeps every setting the file does not give it, and
      gains none from the defaults: only a new section copies the defaults section. */
  lemma ExistingSectionKeepsOwn(view: View, dict: map<string, map<string, string>>, n: string)
    requires n in view && n != DefaultsName
    ensures FileApplied(view, dict)[n] == if n in dict then view[n] + Typed(dict[n]) else view[n]
  {
    assert FileDefaults(view, dict)[n] == view[n];
  }

  /** A section new to the configuration inherits each setting of the file's `[defaults]`
      that it does not give itself. */
  lemma NewSectionInheritsFileDefaults(view: View, dict: map<string, map<string, string>>, n: string, k: string)
    requires n in dict && n !in view && n != DefaultsName
    requires DefaultsName in dict && k in dict[DefaultsName] && k !in dict[n]
    ensures FileApplied(view, dict)[n][k] == MakeSetting(VStr(dict[DefaultsName][k]), true)
  {
    var v1 := FileDefaults(view, dict);
    assert v1 == Wrote(view, DefaultsName, dict[DefaultsName]);
    assert Seed(v1) == v1[DefaultsName];
  }

  /** A section new to the configuration also inherits each setting the defaults section held
      beforehand that neither the file's `[defaults]` nor the section itself gives. */
  lemma NewSectionInheritsOldDefaults(view: View, dict: map<string, map<string, string>>, n: string, k: string)
    requires n in dict && n !in view && n != DefaultsName
    requires DefaultsName in view && k in view[DefaultsName]
    requires DefaultsName in dict ==> k !in dict[DefaultsName]
    requires k !in dict[n]
    ensures FileApplied(view, dict)[n][k] == view[DefaultsName][k]
  {
    var v1 := FileDefaults(view, dict);
    assert Seed(v1) == v1[DefaultsName];
    assert v1[DefaultsName][k] == view[DefaultsName][k];
  }

  /** A section the file does not mention is left as it was. */
  lemma UnmentionedSectionUnchanged(view: View, dict: map<string, map<string, string>>, n: string)
    requires n in view && n !in dict
    ensures FileApplied(view, dict)[n] == view[n]
  {
    if n == DefaultsName {
      assert FileDefaults(view, dict) == view;
    } else {
      assert FileDefaults(view, dict)[n] == view[n];
    }
  }

  // ---------------------------------------------------------------------------------------
  // Parsing a file into a dictionary
  // ---------------------------------------------------------------------------------------

  /** What `readfp` has parsed so far: the text of each setting by section, and the name of the
      current section, None before the first header. */
  datatype DictState = DictState(dict: map<string, map<string, string>>, current: Option<string>)
  {
    /** The current section is always in the dictionary. */
    predicate Ok() {
      current.Some? ==> current.value in dict
    }
  }

  /** One line of `readfp`, classified as `k`, with text `line` and numbered `n` from one. A
      header makes its section current, adding it empty when new; an assignment sets the text
      of its key in the current section, the last one winning; an assignment before any
      header, and an unparseable line, raise ConfigError quoting the line. */
  function DictStep(st: DictState, k: LineKind, line: string, n: nat): (r: Result<DictState, Error>)
    requires st.Ok()
    ensures r.Success? ==> r.value.Ok()
    ensures r.Success? <==> !k.Unparseable? && !(k.Assign? && st.current.None?)
    ensures r.Failure? ==> (r.error.HeaderMissing? && k.Assign?) || (r.error.Unparsed? && k.Unparseable?)
    ensures r.Failure? ==> r.error.line == n && r.error.text == line
  {
    match k
    case Ignored => Success(st)
    case Header(name) => Success(DictState(if name in st.dict then st.dict else st.dict[name := map[]], Some(name)))
    case Assign(key, text) =>
      if st.current.None? then Failure(HeaderMissing(n, line))
      else
        var c := st.current.value;
        Success(st.(dict := st.dict[c := st.dict[c][key := text]]))
    case Unparseable(_) => Failure(Unparsed(n, line))
  }

  /** The parsing stage of `readfp` over lines classified as `kinds`. */
  function ReadKinds(kinds: seq<LineKind>, lines: seq<string>): (r: Result<DictState, Error>)
    requires |kinds| == |lines|
    ensures r.Success? ==> r.value.Ok()
    decreases |kinds|
  {
    if kinds == [] then Success(DictState(map[], None))
    else match ReadKinds(kinds[..|kinds| - 1], lines[..|lines| - 1])
      case Failure(e) => Failure(e)
      case Success(st) => DictStep(st, kinds[|kinds| - 1], lines[|lines| - 1], |kinds|)
  }

  /** The parsing stage of `readfp`, over the lines the file yields. */
  function ReadDict(lines: seq<string>): (r: Result<DictState, Error>)
    ensures r.Success? ==> r.value.Ok()
  {
    ReadKinds(Kinds(lines), lines)
  }

  /** One more line read by the loop of `readfp`. */
  lemma ReadKindsStep(kinds: seq<LineKind>, lines: seq<string>, n: nat)
    requires |kinds| == |lines| && n < |kinds|
    ensures ReadKinds(kinds[..n + 1], lines[..n + 1]) == match ReadKinds(kinds[..n], lines[..n])
      case Failure(e) => Failure(e)
      case Success(st) => DictStep(st, kinds[n], lines[n], n + 1)
  {
    assert kinds[..n + 1][..n] == kinds[..n];
    assert lines[..n + 1][..n] == lines[..n];
  }

  /** Once a prefix fails to parse, the whole file fails with the same error. */
  lemma {:induction false} ReadKindsFailureSticks(kinds: seq<LineKind>, lines: seq<string>, n: nat)
    requires |kinds| == |lines| && n <= |kinds| && ReadKinds(kinds[..n], lines[..n]).Failure?
    ensures ReadKinds(kinds, lines) == ReadKinds(kinds[..n], lines[..n])
    decreases |kinds| - n
  {
    if n == |kinds| {
      assert kinds[..n] == kinds && lines[..n] == lines;
    } else {
      ReadKindsStep(kinds, lines, n);
      ReadKindsFailureSticks(kinds, lines, n + 1);
    }
  }

  /** Some line before line `m` (counted from zero) is a section header. */
  predicate HeaderAmong(kinds: seq<LineKind>, m: nat)
    requires m <= |kinds|
  {
    exists j :: 0 <= j < m && kinds[j].Header?
  }

  /** Line `i` (counted from zero) makes `readfp` raise: it cannot be parsed, or it is a
      setting with no section header before it. */
  predicate BadKind(kinds: seq<LineKind>, i: nat)
    requires i < |kinds|
  {
    kinds[i].Unparseable? || (kinds[i].Assign? && !HeaderAmong(kinds, i))
  }

  /** After the first `m` lines parse, there is a current section exactly when one of them
      was a header. */
  lemma {:induction false} ReadKindsCurrent(kinds: seq<LineKind>, lines: seq<string>, m: nat)
    requires |kinds| == |lines| && m <= |kinds| && ReadKinds(kinds[..m], lines[..m]).Success?
    ensures ReadKinds(kinds[..m], lines[..m]).value.current.Some? <==> HeaderAmong(kinds, m)
  {
    if m == 0 {
      assert kinds[..0] == [];
    } else {
      ReadKindsStep(kinds, lines, m - 1);
      ReadKindsCurrent(kinds, lines, m - 1);
      if kinds[m - 1].Header? {
        assert HeaderAmong(kinds, m);
      } else {
        assert HeaderAmong(kinds, m) ==> HeaderAmong(kinds, m - 1) by {
          if HeaderAmong(kinds, m) {
            var j :| 0 <= j < m && kinds[j].Header?;
            assert j < m - 1;
          }
        }
      }
    }
  }

  /** The first `m` lines fail to parse exactly when one of them is bad, and the error names
      the first bad one, by its number counted from one and its text. */
  lemma {:induction false} ReadKindsFailure(kinds: seq<LineKind>, lines: seq<string>, m: nat)
    requires |kinds| == |lines| && m <= |kinds|
    ensures ReadKinds(kinds[..m], lines[..m]).Failure? <==> exists i :: 0 <= i < m && BadKind(kinds, i)
    ensures ReadKinds(kinds[..m], lines[..m]).Failure? ==>
      var e := ReadKinds(kinds[..m], lines[..m]).error;
      (e.HeaderMissing? || e.Unparsed?) && 1 <= e.line <= m && e.text == lines[e.line - 1] &&
      BadKind(kinds, e.line - 1) && (e.HeaderMissing? <==> kinds[e.line - 1].Assign?) &&
      forall j :: 0 <= j < e.line - 1 ==> !BadKind(kinds, j)
  {
    if m == 0 {
      assert kinds[..0] == [];
    } else {
      ReadKindsStep(kinds, lines, m - 1);
      ReadKindsFailure(kinds, lines, m - 1);
      var prev := ReadKinds(kinds[..m - 1], lines[..m - 1]);
      if prev.Success? {
        ReadKindsCurrent(kinds, lines, m - 1);
        if DictStep(prev.value, kinds[m - 1], lines[m - 1], m).Failure? {
          assert BadKind(kinds, m - 1);
        } else {
          assert !BadKind(kinds, m - 1);
          assert forall i :: 0 <= i < m && BadKind(kinds, i) ==> i < m - 1;
        }
      }
    }
  }

  /** After the first `m` lines parse, the dictionary holds exactly the sections some header
      among them names. */
  lemma {:induction false} ReadKindsSections(kinds: seq<LineKind>, lines: seq<string>, m: nat, n: string)
    requires |kinds| == |lines| && m <= |kinds| && ReadKinds(kinds[..m], lines[..m]).Success?
    ensures n in ReadKinds(kinds[..m], lines[..m]).value.dict <==> exists j :: 0 <= j < m && kinds[j] == Header(n)
  {
    if m == 0 {
      assert kinds[..0] == [];
    } else {
      ReadKindsStep(kinds, lines, m - 1);
      ReadKindsSections(kinds, lines, m - 1, n);
      if kinds[m - 1] != Header(n) {
        assert (exists j :: 0 <= j < m && kinds[j] == Header(n)) ==>
          exists j :: 0 <= j < m - 1 && kinds[j] == Header(n) by {
          if exists j :: 0 <= j < m && kinds[j] == Header(n) {
            var j :| 0 <= j < m && kinds[j] == Header(n);
            assert j < m - 1;
          }
        }
      }
    }
  }

  /** Some line before line `m` (counted from zero) is a section header. */
  predicate HeaderBefore(lines: seq<string>, m: nat)
    requires m <= |lines|
  {
    exists j :: 0 <= j < m && Classify(lines[j]).Header?
  }

  /** Line `i` (counted from zero) makes `readfp` raise: it cannot be parsed, or it is a
      setting with no section header before it. */
  predicate BadLine(lines: seq<string>, i: nat)
    requires i < |lines|
  {
    Classify(lines[i]).Unparseable? || (Classify(lines[i]).Assign? && !HeaderBefore(lines, i))
  }

  /** The bad lines of a file are the bad entries of its classification. */
  lemma BadLinesAreBadKinds(lines: seq<string>)
    ensures forall i :: 0 <= i < |lines| ==> (BadLine(lines, i) <==> BadKind(Kinds(lines), i))
  {
    forall i | 0 <= i < |lines| ensures BadLine(lines, i) <==> BadKind(Kinds(lines), i) {
      BadLineIsBadKind(lines, i);
    }
  }

  lemma BadLineIsBadKind(lines: seq<string>, i: nat)
    requires i < |lines|
    ensures BadLine(lines, i) <==> BadKind(Kinds(lines), i)
  {
    var kinds := Kinds(lines);
    assert HeaderBefore(lines, i) <==> HeaderAmong(kinds, i) by {
      if HeaderBefore(lines, i) {
        var j :| 0 <= j < i && Classify(lines[j]).Header?;
        KindIs(lines, j);
      }
      if HeaderAmong(kinds, i) {
        var j :| 0 <= j < i && kinds[j].Header?;
        KindIs(lines, j);
      }
    }
    KindIs(lines, i);
  }

  /** A whole file of classified lines fails to parse exactly when one of them is bad. */
  lemma ReadKindsFailsIffBad(kinds: seq<LineKind>, lines: seq<string>)
    requires |kinds| == |lines|
    ensures ReadKinds(kinds, lines).Failure? <==> exists i :: 0 <= i < |kinds| && BadKind(kinds, i)
  {
    ReadKindsFailure(kinds, lines, |kinds|);
    assert kinds[..|kinds|] == kinds && lines[..|lines|] == lines;
  }

  /** The error for a whole file of classified lines quotes the line it numbers. */
  lemma ReadKindsErrorQuotes(kinds: seq<LineKind>, lines: seq<string>)
    requires |kinds| == |lines| && ReadKinds(kinds, lines).Failure?
    ensures var e := ReadKinds(kinds, lines).error;
      (e.HeaderMissing? || e.Unparsed?) && 1 <= e.line <= |lines| && e.text == lines[e.line - 1]
  {
    ReadKindsFailure(kinds, lines, |kinds|);
    assert kinds[..|kinds|] == kinds && lines[..|lines|] == lines;
  }

  /** The error for a whole file of classified lines numbers its first bad line. */
  lemma ReadKindsErrorFirst(kinds: seq<LineKind>, lines: seq<string>, e: Error)
    requires |kinds| == |lines| && ReadKinds(kinds, lines) == Failure(e)
    ensures (e.HeaderMissing? || e.Unparsed?) && 1 <= e.line <= |kinds| && BadKind(kinds, e.line - 1)
    ensures e.HeaderMissing? <==> kinds[e.line - 1].Assign?
    ensures forall j :: 0 <= j < e.line - 1 ==> !BadKind(kinds, j)
  {
    ReadKindsFailure(kinds, lines, |kinds|);
    assert kinds[..|kinds|] == kinds && lines[..|lines|] == lines;
  }

  /** `readfp` raises ConfigError exactly when some line is bad. */
  lemma ReadDictFailsIffBadLine(lines: seq<string>)
    ensures ReadDict(lines).Failure? <==> exists i :: 0 <= i < |lines| && BadLine(lines, i)
  {
    ReadKindsFailsIffBad(Kinds(lines), lines);
    BadLinesAreBadKinds(lines);
  }

  /** The error `readfp` raises quotes the line it numbers (counted from one), whole. */
  lemma ReadDictErrorQuotesLine(lines: seq<string>)
    requires ReadDict(lines).Failure?
    ensures var e := ReadDict(lines).error;
      (e.HeaderMissing? || e.Unparsed?) && 1 <= e.line <= |lines| && e.text == lines[e.line - 1]
  {
    ReadKindsErrorQuotes(Kinds(lines), lines);
  }

  /** The error `readfp` raises is for the first bad line, and it is "section header missing"
      exactly when that line is a setting. */
  lemma ReadDictErrorNamesFirstBadLine(lines: seq<string>, e: Error)
    requires ReadDict(lines) == Failure(e)
    ensures (e.HeaderMissing? || e.Unparsed?) && 1 <= e.line <= |lines|
    ensures BadLine(lines, e.line - 1) && (e.HeaderMissing? <==> Classify(lines[e.line - 1]).Assign?)
    ensures forall j :: 0 <= j < e.line - 1 ==> !BadLine(lines, j)
  {
    ReadKindsErrorFirst(Kinds(lines), lines, e);
    FirstBadKindIsFirstBadLine(lines, e);
  }

  /** An error whose line is the first bad entry of a file's classification names the first
      bad line of the file. */
  lemma FirstBadKindIsFirstBadLine(lines: seq<string>, e: Error)
    requires (e.HeaderMissing? || e.Unparsed?) && 1 <= e.line <= |lines|
    requires BadKind(Kinds(lines), e.line - 1) && (e.HeaderMissing? <==> Kinds(lines)[e.line - 1].Assign?)
    requires forall j :: 0 <= j < e.line - 1 ==> !BadKind(Kinds(lines), j)
    ensures BadLine(lines, e.line - 1) && (e.HeaderMissing? <==> Classify(lines[e.line - 1]).Assign?)
    ensures forall j :: 0 <= j < e.line - 1 ==> !BadLine(lines, j)
  {
    BadLineIsBadKind(lines, e.line - 1);
    KindIs(lines, e.line - 1);
    forall j | 0 <= j < e.line - 1 ensures !BadLine(lines, j) {
      BadLineIsBadKind(lines, j);
    }
  }

  /** The sections `readfp` parses are exactly those some header of the file names. */
  lemma ReadDictSectionsAreHeaders(lines: seq<string>, n: string)
    requires ReadDict(lines).Success?
    ensures n in ReadDict(lines).value.dict <==> exists j :: 0 <= j < |lines| && Classify(lines[j]) == Header(n)
  {
    var kinds := Kinds(lines);
    assert kinds[..|lines|] == kinds && lines[..|lines|] == lines;
    ReadKindsSections(kinds, lines, |lines|, n);
    if exists j :: 0 <= j < |lines| && Classify(lines[j]) == Header(n) {
      var j :| 0 <= j < |lines| && Classify(lines[j]) == Header(n);
      KindIs(lines, j);
    }
  }

  /** A key set twice in one section keeps the second text (where the newer parser makes a
      list of both). */
  lemma RepeatedKeyLastWins(st: DictState, key: string, t1: string, t2: string, l1: string, l2: string, n: nat)
    requires st.Ok() && st.current.Some?
    ensures DictStep(st, Assign(key, t1), l1, n).Success?
    ensures var after := DictStep(DictStep(st, Assign(key, t1), l1, n).value, Assign(key, t2), l2, n + 1);
      after.Success? && after.value.dict[st.current.value][key] == t2
  {
  }

  /** The body of the parsing loop of `readfp` on one line. */
  method ParseLine(st: DictState, line: string, n: nat) returns (r: Result<DictState, Error>)
    requires st.Ok()
    ensures r == DictStep(st, Classify(line), line, n)
  {
    ClassifyCases(line);
    if IsBlankOrComment(line) {
      return Success(st);
    }
    var header := HeaderName(line);
    if header.Some? {
      var name := header.value;
      var dict := st.dict;
      if name !in dict {
        dict := dict[name := map[]];
      }
      return Success(DictState(dict, Some(name)));
    }
    var assignment := Assignment(line);
    if assignment.Some? {
      var (key, text) := assignment.value;
      if st.current.None? {
        return Failure(HeaderMissing(n, line));
      }
      var c := st.current.value;
      return Success(st.(dict := st.dict[c := st.dict[c][key := text]]));
    }
    return Failure(Unparsed(n, line));
  }

  /** The parsing loop of `readfp`, with its line counter and current section. */
  method ParseDict(lines: seq<string>) returns (r: Result<DictState, Error>)
    ensures r == ReadDict(lines)
  {
    var st := DictState(map[], None);
    var i := 0;
    while i < |lines|
      invariant 0 <= i <= |lines|
      invariant ReadKinds(Kinds(lines)[..i], lines[..i]) == Success(st)
    {
      ReadKindsStep(Kinds(lines), lines, i);
      var next := ParseLine(st, lines[i], i + 1);
      i := i + 1;
      if next.Failure? {
        ReadKindsFailureSticks(Kinds(lines), lines, i);
        return next;
      }
      st := next.value;
    }
    assert Kinds(lines)[..i] == Kinds(lines) && lines[..i] == lines;
    return Success(st);
  }

  // ---------------------------------------------------------------------------------------
  // Configurations
  // ---------------------------------------------------------------------------------------

  /** A `SimpleConfig`: sections by name. */
  class SimpleConfig {
    var sections: map<string, SimpleConfigSection>

    /** No section object is stored under two names: each is created by `add`. */
    ghost predicate Valid()
      reads this
    {
      forall a, b :: a in sections && b in sections && a != b ==> sections[a] != sections[b]
    }

    /** The settings of every section. */
    ghost function View(): View
      reads this, sections.Values
    {
      map n | n in sections :: sections[n].settings
    }

    /** `SimpleConfig()` */
    constructor()
      ensures Valid() && sections == map[]
    {
      sections := map[];
    }

    /** `SimpleConfig.add`: a name already present raises SectionError; otherwise a new section
        is stored and returned, starting from a copy of the defaults section's settings. */
    method Add(name: string) returns (r: Result<SimpleConfigSection, Error>)
      requires Valid()
      modifies this
      ensures Valid()
      ensures r.Failure? <==> name in old(sections)
      ensures r.Failure? ==> r.error == SectionExists(name) && sections == old(sections)
      ensures r.Success? ==> fresh(r.value) && sections == old(sections)[name := r.value]
      ensures View() == AddedIfMissing(old(View()), name)
    {
      if name in sections {
        return Failure(SectionExists(name));
      }
      var defaults: Option<SimpleConfigSection> := None;
      if DefaultsName in sections {
        defaults := Some(sections[DefaultsName]);
      }
      ghost var before := View();
      var s := new SimpleConfigSection(map[], true, defaults);
      assert Converted(map[], true) == map[];
      assert s.settings == Seed(before);
      sections := sections[name := s];
      assert forall m :: m in sections && m != name ==> sections[m].settings == before[m];
      return Success(s);
    }

    /** `SimpleConfig.has` */
    method Has(name: string) returns (b: bool)
      ensures b <==> name in sections
    {
      b := name in sections;
    }

    /** `SimpleConfig.get`: an unknown name raises SectionError. */
    method Get(name: string) returns (r: Result<SimpleConfigSection, Error>)
      ensures r.Success? <==> name in sections
      ensures r.Success? ==> r.value == sections[name]
      ensures r.Failure? ==> r.error == InvalidSection(name)
    {
      if name !in sections {
        return Failure(InvalidSection(name));
      }
      return Success(sections[name]);
    }

    /** `SimpleConfig.get_sections`: the section names in ascending order. */
    method GetSections() returns (names: seq<string>)
      ensures names == SortedOf(sections.Keys)
    {
      names := SortKeys(sections.Keys);
    }

    /** Attribute access to a section (`config.name`): a missing section is added first. */
    method AutoSection(name: string) returns (s: SimpleConfigSection)
      requires Valid()
      modifies this
      ensures Valid()
      ensures name in sections && s == sections[name]
      ensures fresh(sections.Values - old(sections.Values))
      ensures View() == AddedIfMissing(old(View()), name)
    {
      var has := Has(name);
      if !has {
        var _ := Add(name);
      }
      s := sections[name];
    }

    /** `get(n).set(...)` for each text of `texts`: only section `n` changes. */
    method SetTextsIn(n: string, texts: map<string, string>)
      requires Valid() && n in sections
      modifies sections[n]
      ensures View() == old(View())[n := old(View())[n] + Typed(texts)]
    {
      assert forall m :: m in sections && m != n ==> sections[m] != sections[n];
      sections[n].SetTexts(texts);
    }

    /** The first stage of writing a parsed file: the settings of the file's `[defaults]` are
        set in the defaults section, reached by attribute access. The source reaches it once
        per setting; only the first access can add it, so it is reached once here. */
    method WriteDefaults(dict: map<string, map<string, string>>)
      requires Valid()
      modifies this, sections.Values
      ensures Valid()
      ensures fresh(sections.Values - old(sections.Values))
      ensures View() == FileDefaults(old(View()), dict)
    {
      if DefaultsName in dict && dict[DefaultsName] != map[] {
        var _ := AutoSection(DefaultsName);
        SetTextsIn(DefaultsName, dict[DefaultsName]);
      }
    }

    /** The body of the second stage on section `n`: added when missing, then each of its
        texts set. */
    method WriteSection(n: string, texts: map<string, string>)
      requires Valid()
      modifies this, sections.Values
      ensures Valid()
      ensures fresh(sections.Values - old(sections.Values))
      ensures View() == Wrote(old(View()), n, texts)
    {
      var has := Has(n);
      if !has {
        var _ := Add(n);
      }
      SetTextsIn(n, texts);
    }

    /** One more section written by the second stage: `n` leaves the sections still to do. */
    method WriteNext(ghost start: View, dict: map<string, map<string, string>>, todo: set<string>, n: string)
      requires Valid() && Absorbed(start, dict)
      requires todo <= dict.Keys && n in todo
      requires View() == Written(start, dict, dict.Keys - todo)
      modifies this, sections.Values
      ensures Valid()
      ensures fresh(sections.Values - old(sections.Values))
      ensures View() == Written(start, dict, dict.Keys - (todo - {n}))
    {
      assert dict.Keys - (todo - {n}) == (dict.Keys - todo) + {n};
      WrittenStep(start, dict, dict.Keys - todo, n);
      WriteSection(n, dict[n]);
    }

    /** The second stage of writing a parsed file: every section of the file, in whatever
        order the dictionary yields them. */
    method WriteSections(dict: map<string, map<string, string>>)
      requires Valid() && Absorbed(View(), dict)
      modifies this, sections.Values
      ensures Valid()
      ensures fresh(sections.Values - old(sections.Values))
      ensures View() == Written(old(View()), dict, dict.Keys)
    {
      var todo := dict.Keys;
      ghost var start := View();
      assert dict.Keys - todo == {};
      WrittenNothing(start, dict);
      while todo != {}
        invariant todo <= dict.Keys
        invariant Valid()
        invariant fresh(sections.Values - old(sections.Values))
        invariant View() == Written(start, dict, dict.Keys - todo)
        decreases todo
      {
        var n :| n in todo;
        WriteNext(start, dict, todo, n);
        todo := todo - {n};
      }
      assert dict.Keys - todo == dict.Keys;
    }

    /** `SimpleConfig.readfp`, over the lines the file yields: the file is parsed whole, and
        only then, when no line raised, written into this configuration (see `FileApplied`). */
    method Readfp(lines: seq<string>) returns (r: Outcome<Error>)
      requires Valid()
      modifies this, sections.Values
      ensures Valid()
      ensures r.Fail? <==> ReadDict(lines).Failure?
      ensures r.Fail? ==> r.error == ReadDict(lines).error && View() == old(View())
      ensures r.Pass? ==> View() == FileApplied(old(View()), ReadDict(lines).value.dict)
    {
      var parsed := ParseDict(lines);
      if parsed.Failure? {
        return Fail(parsed.error);
      }
      var dict := parsed.value.dict;
      WriteDefaults(dict);
      FileDefaultsAbsorbed(old(View()), dict);
      WriteSections(dict);
      return Pass;
    }
  }
}
