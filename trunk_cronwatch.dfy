/** The configuration side of trunk/cronwatch.py: `read_config`, which seeds the defaults
    section with the ten settings a job may have, reads the configuration file with the
    trunk/simpleconfig.py library and rejects any other setting name; and `filter_text`, whose
    code is the same as in cronwatch.py and is modelled there. */
module TrunkCronwatch {
  import opened Wrappers
  import opened Sorting
  import opened Values
  import Text
  import Lib = TrunkSimpleConfig
  import Cronwatch

  /** What `read_config` raises: an error of the configuration library, or cronwatch's Error
      for a setting name outside the ten known ones. */
  datatype ReadError =
    | LibraryError(error: Lib.Error)
    | UnknownOption(setting: string, section: string)
  {
    /** `str(e)` */
    function Message(): string {
      match this
      case LibraryError(e) => e.Message()
      case UnknownOption(s, sec) => "unknown option " + s + " in section " + sec
    }
  }

  /** `CONFIGFILE` */
  const ConfigFile: string := "/etc/cronwatch.conf"

  /** The values `read_config` gives the settings of the defaults section. */
  const DefaultValues: map<string, Value> := map[
    "required" := VNone,
    "whitelist" := VNone,
    "blacklist" := VStr(".*"),
    "exit_codes" := VInt(0),
    "email_to" := VStr("root"),
    "email_from" := VNone,
    "email_maxsize" := VInt(4096),
    "email_success" := VBool(false),
    "email_sendmail" := VStr("/usr/lib/sendmail"),
    "logfile" := VNone]

  /** The order in which `read_config` sets the defaults. */
  const DefaultOrder: seq<string> := ["required", "whitelist", "blacklist", "exit_codes", "email_to",
                                      "email_from", "email_maxsize", "email_success", "email_sendmail",
                                      "logfile"]

  /** The defaults section once the first `n` lines of the defaults block have run: each value
      set by attribute, so in a new auto-typing setting. */
  function DefaultsAfter(n: nat): (r: map<string, Lib.Setting>)
    requires n <= |DefaultOrder|
    ensures forall k :: k in r <==> k in DefaultOrder[..n]
  {
    map k | k in DefaultOrder[..n] :: Lib.NewSetting(DefaultValues[k], true)
  }

  /** The defaults section as `read_config` seeds it. */
  function DefaultSettings(): map<string, Lib.Setting> {
    DefaultsAfter(|DefaultOrder|)
  }

  /** The defaults name exactly the ten known settings, and auto-typing keeps every default
      value as it was written. */
  lemma DefaultSettingsAreOptions()
    ensures DefaultSettings().Keys == Cronwatch.Options
    ensures forall k :: k in DefaultSettings() ==>
      DefaultSettings()[k].Get(false) == DefaultValues[k] && DefaultSettings()[k].Get(true) == DefaultValues[k]
  {
    assert DefaultOrder[..|DefaultOrder|] == DefaultOrder;
    assert DefaultSettings().Keys == DefaultValues.Keys;
    forall k | k in DefaultSettings()
      ensures DefaultSettings()[k].Get(false) == DefaultValues[k]
      ensures DefaultSettings()[k].Get(true) == DefaultValues[k]
    {
      DefaultValueKept(k);
    }
  }

  /** Auto-typing keeps the default value of `k`. */
  lemma DefaultValueKept(k: string)
    requires k in DefaultValues
    ensures Lib.AutoType(DefaultValues[k]) == DefaultValues[k]
  {
    if k == "blacklist" {
      BlacklistKept();
    } else if k == "email_to" {
      EmailToKept();
    } else if k == "email_sendmail" {
      SendmailKept();
    }
  }

  /** The three text defaults each start with a plain character. */
  lemma BlacklistKept()
    ensures Lib.AutoType(DefaultValues["blacklist"]) == DefaultValues["blacklist"]
  {
    PlainTextKept(".*");
  }

  lemma EmailToKept()
    ensures Lib.AutoType(DefaultValues["email_to"]) == DefaultValues["email_to"]
  {
    PlainTextKept("root");
  }

  lemma SendmailKept()
    ensures Lib.AutoType(DefaultValues["email_sendmail"]) == DefaultValues["email_sendmail"]
  {
    PlainTextKept("/usr/lib/sendmail");
  }

  /** A text that starts with none of the letters the keywords start with, no digit, sign or
      quote, and does not end in a newline, is kept as it is by auto-typing. */
  lemma PlainTextKept(s: string)
    requires |s| > 0 && s[|s| - 1] != '\n'
    requires s[0] !in "nNtTyYoOfF0123456789-'\""
    ensures Lib.AutoType(VStr(s)) == VStr(s)
  {
    assert Text.Chomp(s) == s;
    var first := Text.LowerString(s)[0];
    assert first == Text.Lower(s[0]);
    assert first !in "ntyof";
    assert !IsNoneWord(s) && !IsTrueWord(s) && !IsFalseWord(s) by {
      var low := Text.LowerString(s);
      assert low[0] == first;
      assert low != "none" && low != "null" && low != "true" && low != "yes";
      assert low != "on" && low != "false" && low != "no" && low != "off";
    }
    assert !IsIntegerText(s) by {
      assert !Text.IsDigit(s[0]);
    }
    assert Lib.QuotedBody(s).None?;
    Lib.AutoTypeKeepsPlainText(s);
  }

  // ---------------------------------------------------------------------------------------
  // The unknown-option check
  // ---------------------------------------------------------------------------------------

  /** The first unknown setting name of each section, its settings taken in ascending order. */
  ghost function SectionUnknowns(view: Lib.View): (r: map<string, Option<string>>)
    ensures r.Keys == view.Keys
  {
    map n | n in view :: Cronwatch.FirstUnknown(SortedOf(view[n].Keys))
  }

  /** The sections `names` visited in order: the first that holds an unknown name, with that
      name. */
  function FirstReported(found: map<string, Option<string>>, names: seq<string>): (r: Option<(string, string)>)
    requires forall n :: n in names ==> n in found
    ensures r.Some? ==> r.value.0 in names && found[r.value.0] == Some(r.value.1)
    ensures r.None? <==> forall n :: n in names ==> found[n].None?
    decreases |names|
  {
    if names == [] then None
    else
      var last := names[|names| - 1];
      var earlier := FirstReported(found, names[..|names| - 1]);
      if earlier.Some? then earlier
      else if found[last].Some? then Some((last, found[last].value))
      else None
  }

  lemma {:induction false} FirstReportedExtends(found: map<string, Option<string>>, names: seq<string>, n: nat)
    requires forall m :: m in names ==> m in found
    requires n <= |names| && FirstReported(found, names[..n]).Some?
    ensures FirstReported(found, names) == FirstReported(found, names[..n])
    decreases |names| - n
  {
    if n < |names| {
      assert names[..n + 1][..n] == names[..n];
      FirstReportedExtends(found, names, n + 1);
    } else {
      assert names[..n] == names;
    }
  }

  /** The section `FirstReported` names comes before every other section with an unknown
      name. */
  lemma {:induction false} FirstReportedIsFirst(found: map<string, Option<string>>, names: seq<string>)
    requires forall m :: m in names ==> m in found
    requires FirstReported(found, names).Some?
    ensures exists j :: 0 <= j < |names| && names[j] == FirstReported(found, names).value.0 &&
                        forall k :: 0 <= k < j ==> found[names[k]].None?
    decreases |names|
  {
    var init := names[..|names| - 1];
    if FirstReported(found, init).Some? {
      FirstReportedIsFirst(found, init);
      var j :| 0 <= j < |init| && init[j] == FirstReported(found, init).value.0 &&
        forall k :: 0 <= k < j ==> found[init[k]].None?;
      assert forall k :: 0 <= k < j ==> names[k] == init[k];
    } else {
      assert forall k :: 0 <= k < |names| - 1 ==> names[k] in init;
    }
  }

  /** The unknown-option check of `read_config`: sections in ascending order of names, and
      within each its settings in ascending order of names. */
  ghost function UnknownOptionOf(view: Lib.View): Option<(string, string)> {
    FirstReported(SectionUnknowns(view), SortedOf(view.Keys))
  }

  /** The check passes exactly when every setting of every section has one of the ten known
      names; otherwise it reports the unknown name that comes first by section name, then by
      setting name. */
  lemma UnknownOptionOfIsLeast(view: Lib.View)
    ensures UnknownOptionOf(view).None? <==> forall n :: n in view ==> view[n].Keys <= Cronwatch.Options
    ensures UnknownOptionOf(view).Some? ==>
      var (sec, s) := UnknownOptionOf(view).value;
      sec in view && s in view[sec] && s !in Cronwatch.Options &&
      (forall t :: t in view[sec] && Less(t, s) ==> t in Cronwatch.Options) &&
      forall m :: m in view && Less(m, sec) ==> view[m].Keys <= Cronwatch.Options
  {
    var names := SortedOf(view.Keys);
    var found := SectionUnknowns(view);
    forall n | n in view ensures found[n].None? <==> view[n].Keys <= Cronwatch.Options {
      Cronwatch.LeastUnknown(SortedOf(view[n].Keys), view[n].Keys);
    }
    assert forall n :: n in view <==> n in names;
    if UnknownOptionOf(view).Some? {
      var sec := UnknownOptionOf(view).value.0;
      Cronwatch.LeastUnknown(SortedOf(view[sec].Keys), view[sec].Keys);
      FirstReportedIsFirst(found, names);
      SortedPairs(names);
      var j :| 0 <= j < |names| && names[j] == sec && forall k :: 0 <= k < j ==> found[names[k]].None?;
      forall m | m in view && Less(m, sec) ensures view[m].Keys <= Cronwatch.Options {
        var k :| 0 <= k < |names| && names[k] == m;
        if k == j {
          LessIrreflexive(m);
        } else if k > j {
          LessAsymmetric(m, sec);
        }
      }
    }
  }

  // ---------------------------------------------------------------------------------------
  // read_config
  // ---------------------------------------------------------------------------------------

  /** The file `read_config` reads: the one it is given, which must exist, or else
      `CONFIGFILE`, which may be missing. */
  function ConfigPath(configFile: Option<string>): string {
    if configFile.Some? then configFile.value else ConfigFile
  }

  /** What `read_config(config_file)` returns or raises, with `fs` the lines of each file that
      can be opened. */
  ghost function ReadConfigResult(fs: string -> Option<seq<string>>, configFile: Option<string>): Result<Lib.View, ReadError> {
    Judged(ReadFile(fs, configFile))
  }

  /** What `config.read` gives inside `read_config`: its outcome and the sections it leaves,
      starting from the defaults section alone. */
  ghost function ReadFile(fs: string -> Option<seq<string>>, configFile: Option<string>): (Outcome<Lib.Error>, Lib.View) {
    var path := ConfigPath(configFile);
    Lib.ReadAll(map[Lib.DefaultsName := DefaultSettings()], Lib.DefaultsName,
                [Lib.File(path, fs(path))], configFile.Some?)
  }

  /** The end of `read_config` once the file has been read: a library error, or the
      unknown-option check on the sections read. */
  ghost function Judged(read: (Outcome<Lib.Error>, Lib.View)): Result<Lib.View, ReadError> {
    if read.0.Fail? then Failure(LibraryError(read.0.error))
    else match UnknownOptionOf(read.1)
      case Some(bad) => Failure(UnknownOption(bad.1, bad.0))
      case None => Success(read.1)
  }

  /** One line of `read_config`'s defaults block, `config.defaults.<k> = <value>` for the
      `i`-th name `k`, on the defaults section `d`: sets `k` to a new auto-typing setting
      holding its default value. */
  method SeedDefault(d: Lib.Section, i: nat)
    requires i < |DefaultOrder| && d.settings == DefaultsAfter(i)
    modifies d
    ensures d.name == old(d.name) && d.settings == DefaultsAfter(i + 1)
  {
    var k := DefaultOrder[i];
    d.SetSetting(k, Lib.NewSetting(DefaultValues[k], true));
    DefaultsAfterStep(i);
  }

  /** Seeding the `i`-th default adds exactly its setting. */
  lemma DefaultsAfterStep(i: nat)
    requires i < |DefaultOrder|
    ensures DefaultsAfter(i + 1) == DefaultsAfter(i)[DefaultOrder[i] := Lib.NewSetting(DefaultValues[DefaultOrder[i]], true)]
  {
    assert DefaultOrder[..i + 1] == DefaultOrder[..i] + [DefaultOrder[i]];
    assert DefaultsAfter(i + 1).Keys == DefaultsAfter(i).Keys + {DefaultOrder[i]};
  }

  /** The ten lines of `read_config`'s defaults block on the empty defaults section `d`. */
  method SeedAll(d: Lib.Section)
    requires d.settings == map[]
    modifies d
    ensures d.name == old(d.name) && d.settings == DefaultSettings()
  {
    assert d.settings == DefaultsAfter(0);
    SeedDefault(d, 0);
    SeedDefault(d, 1);
    SeedDefault(d, 2);
    SeedDefault(d, 3);
    SeedDefault(d, 4);
    SeedDefault(d, 5);
    SeedDefault(d, 6);
    SeedDefault(d, 7);
    SeedDefault(d, 8);
    SeedDefault(d, 9);
    assert d.settings == DefaultsAfter(10);
  }

  /** The defaults block of `read_config` on a new configuration. */
  method SeedDefaults() returns (config: Lib.Config)
    ensures fresh(config) && fresh(config.sections.Values)
    ensures config.Valid() && config.defaultSection == Lib.DefaultsName
    ensures config.View() == map[Lib.DefaultsName := DefaultSettings()]
  {
    config := new Lib.Config(Lib.DefaultsName);
    var d := new Lib.Section();
    config.SetSection(Lib.DefaultsName, d);
    assert config.sections == map[Lib.DefaultsName := d];
    SeedAll(d);
    assert config.View() == map[Lib.DefaultsName := d.settings];
  }

  /** The loop of the unknown-option check over the sections `names`, given the first
      unknown name of each. */
  method FindUnknownOption(config: Lib.Config, names: seq<string>, ghost found: map<string, Option<string>>)
    returns (r: Option<(string, string)>)
    requires forall n :: n in names ==> n in config.sections && n in found
    requires found == SectionUnknowns(config.View())
    ensures r == FirstReported(found, names)
  {
    for i := 0 to |names|
      invariant FirstReported(found, names[..i]).None?
    {
      var sec := config.sections[names[i]];
      assert config.View()[names[i]] == sec.settings;
      var settings := sec.GetSettings();
      var unknown := Cronwatch.FindUnknown(settings);
      assert found[names[i]] == unknown;
      assert names[..i + 1][..i] == names[..i];
      if unknown.Some? {
        assert FirstReported(found, names[..i + 1]) == Some((names[i], unknown.value));
        FirstReportedExtends(found, names, i + 1);
        return Some((names[i], unknown.value));
      }
      assert FirstReported(found, names[..i + 1]).None?;
    }
    assert names[..|names|] == names;
    return None;
  }

  /** The unknown-option check of `read_config` on `config`. */
  method CheckOptions(config: Lib.Config, ghost view: Lib.View) returns (r: Option<(string, string)>)
    requires config.Valid() && config.View() == view
    ensures config.Valid() && config.View() == view
    ensures r == UnknownOptionOf(view)
  {
    var names := SortKeys(config.sections.Keys);
    assert config.View() == view;
    assert view.Keys == config.sections.Keys;
    r := FindUnknownOption(config, names, SectionUnknowns(view));
  }

  /** The rest of `read_config` once its defaults are seeded: the file at `path` is read onto
      `config`, whose sections are `seed`, and then every setting name is checked. */
  method ReadOnto(config: Lib.Config, ghost seed: Lib.View, path: string, lines: Option<seq<string>>,
                  required: bool)
    returns (r: Result<Lib.Config, ReadError>)
    requires config.Valid() && config.View() == seed && config.defaultSection == Lib.DefaultsName
    modifies config, config.sections.Values
    ensures var expected := Judged(Lib.ReadAll(seed, Lib.DefaultsName, [Lib.File(path, lines)], required));
      (r.Success? <==> expected.Success?) &&
      (r.Failure? ==> r.error == expected.error) &&
      (r.Success? ==> r.value.Valid() && r.value.View() == expected.value)
  {
    var read := config.Read([Lib.File(path, lines)], required);
    ghost var view := config.View();
    if read.Fail? {
      return Failure(LibraryError(read.error));
    }
    var unknown := CheckOptions(config, view);
    if unknown.Some? {
      return Failure(UnknownOption(unknown.value.1, unknown.value.0));
    }
    return Success(config);
  }

  /** `read_config(config_file)`: see `ReadConfigResult`. */
  method ReadConfig(fs: string -> Option<seq<string>>, configFile: Option<string>) returns (r: Result<Lib.Config, ReadError>)
    ensures r.Success? <==> ReadConfigResult(fs, configFile).Success?
    ensures r.Failure? ==> r.error == ReadConfigResult(fs, configFile).error
    ensures r.Success? ==> r.value.Valid() && r.value.View() == ReadConfigResult(fs, configFile).value
  {
    var config := SeedDefaults();
    var path := ConfigPath(configFile);
    r := ReadOnto(config, config.View(), path, fs(path), configFile.Some?);
  }


  /** Without a configuration file, `read_config` returns the defaults section alone, holding
      the ten defaults. */
  lemma ReadConfigWithoutFile(fs: string -> Option<seq<string>>)
    requires fs(ConfigFile).None?
    ensures ReadConfigResult(fs, None) == Success(map[Lib.DefaultsName := DefaultSettings()])
  {
    var view := map[Lib.DefaultsName := DefaultSettings()];
    assert ReadFile(fs, None) == (Pass, view);
    DefaultSettingsAreOptions();
    UnknownOptionOfIsLeast(view);
  }

  /** A file that is given but cannot be opened raises IOError. */
  lemma ReadConfigMissingFile(fs: string -> Option<seq<string>>, path: string)
    requires fs(path).None?
    ensures ReadConfigResult(fs, Some(path)) == Failure(LibraryError(Lib.IOError(path)))
  {
  }

  /** Once the file has been read, `read_config` returns the sections read exactly when every
      setting of every section has one of the ten known names; otherwise it raises "unknown
      option" for the unknown name that comes first by section name, then by setting name. */
  lemma ReadConfigOnlyOptions(fs: string -> Option<seq<string>>, configFile: Option<string>)
    ensures ReadFile(fs, configFile).0.Fail? ==>
      ReadConfigResult(fs, configFile) == Failure(LibraryError(ReadFile(fs, configFile).0.error))
    ensures ReadConfigResult(fs, configFile).Success? ==>
      ReadConfigResult(fs, configFile).value == ReadFile(fs, configFile).1
    ensures ReadFile(fs, configFile).0.Pass? ==>
      var view := ReadFile(fs, configFile).1;
      (ReadConfigResult(fs, configFile).Success? <==> forall n :: n in view ==> view[n].Keys <= Cronwatch.Options)
    ensures ReadConfigResult(fs, configFile).Failure? && ReadConfigResult(fs, configFile).error.UnknownOption? ==>
      var view := ReadFile(fs, configFile).1;
      var e := ReadConfigResult(fs, configFile).error;
      ReadFile(fs, configFile).0.Pass? &&
      e.section in view && e.setting in view[e.section] && e.setting !in Cronwatch.Options &&
      (forall t :: t in view[e.section] && Less(t, e.setting) ==> t in Cronwatch.Options) &&
      forall m :: m in view && Less(m, e.section) ==> view[m].Keys <= Cronwatch.Options
  {
    UnknownOptionOfIsLeast(ReadFile(fs, configFile).1);
  }

  // ---------------------------------------------------------------------------------------
  // filter_text
  // ---------------------------------------------------------------------------------------

  /** `filter_text` with one pattern: a list with that pattern alone is searched, so the result
      has that one key, mapped to the lines it is found in. */
  lemma FilterTextOnePattern(engine: Cronwatch.Engine, p: string, lines: seq<string>)
    ensures Cronwatch.Filtered(engine, Cronwatch.One(p), lines).Failure? <==> engine.compileError(p).Some?
    ensures engine.compileError(p).None? ==>
      Cronwatch.Filtered(engine, Cronwatch.One(p), lines) == Success(map[p := Cronwatch.MatchingLines(engine.search, p, lines)])
  {
    assert Cronwatch.One(p).AsList() == [p];
    if engine.compileError(p).None? {
      assert Cronwatch.FirstInvalid(engine.compileError, [p]).None?;
      ghost var r := Cronwatch.Filtered(engine, Cronwatch.One(p), lines).value;
      assert r.Keys == {p};
      assert r == map[p := Cronwatch.MatchingLines(engine.search, p, lines)];
    }
  }
}
