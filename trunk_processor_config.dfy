/** trunk/processor/config.py: `ConfigSection`, a table of typed settings changed in place,
    and `Config`, a table of such sections. */
module TrunkProcessorConfig {
  import opened Wrappers
  import opened Values
  import opened Registry

  /** The exceptions of trunk/processor/config.py. */
  datatype Error =
    | NameExistsError(name: string)
    | NameInvalidError(name: string)
    | SettingTypeInvalidError(kind: string)
  {
    /** `str(e)` */
    function Message(): string {
      match this
      case NameExistsError(n) => "Already defined: " + n
      case NameInvalidError(n) => "Does not exist: " + n
      case SettingTypeInvalidError(k) => "Setting has invalid type: " + k
    }
  }

  /** The exception each way of failing raises. */
  function Raised(f: Failure): (e: Error)
    ensures f.Duplicate? <==> e.NameExistsError?
    ensures f.InvalidType? <==> e.SettingTypeInvalidError?
    ensures f.Missing? <==> e.NameInvalidError?
  {
    match f
    case Duplicate(n) => NameExistsError(n)
    case InvalidType(k) => SettingTypeInvalidError(k)
    case Missing(n) => NameInvalidError(n)
  }

  class ConfigSection {
    /** `self.__settings` */
    var settings: Table
    /** `self.global_only` */
    var globalOnly: bool

    /** `ConfigSection(global_only = False)` */
    constructor(globalOnly: bool := false)
      ensures settings == map[] && this.globalOnly == globalOnly
    {
      settings := map[];
      this.globalOnly := globalOnly;
    }

    /** `add_setting(name, type = 'string', default = None)`: NameExistsError for a name
        already defined, then SettingTypeInvalidError for an unknown type; a failed call
        changes nothing. */
    method AddSetting(name: string, kind: string := DefaultType, default: Value := DefaultValue)
      returns (r: Outcome<Error>)
      modifies this
      ensures globalOnly == old(globalOnly)
      ensures r.Fail? <==> Added(old(settings), name, kind, default).Failure?
      ensures r.Fail? ==> r.error == Raised(Added(old(settings), name, kind, default).error) &&
                          settings == old(settings)
      ensures r.Pass? ==> settings == Added(old(settings), name, kind, default).value
    {
      if name in settings {
        return Fail(NameExistsError(name));
      }
      if kind !in SettingTypes {
        return Fail(SettingTypeInvalidError(kind));
      }
      settings := settings[name := Entry(kind, default)];
      return Pass;
    }

    /** `get_type(name)` */
    method GetType(name: string) returns (r: Result<string, Error>)
      ensures r.Success? <==> name in settings
      ensures r.Failure? ==> r.error == NameInvalidError(name)
      ensures r.Success? ==> r.value == settings[name].kind
    {
      if name !in settings {
        return Failure(NameInvalidError(name));
      }
      return Success(settings[name].kind);
    }

    /** `get(name)` */
    method Get(name: string) returns (r: Result<Value, Error>)
      ensures r.Success? <==> name in settings
      ensures r.Failure? ==> r.error == NameInvalidError(name)
      ensures r.Success? ==> r.value == settings[name].val
    {
      if name !in settings {
        return Failure(NameInvalidError(name));
      }
      return Success(settings[name].val);
    }

    /** `set(name, val)`: NameInvalidError for an unknown name; otherwise only that setting's
        value changes. */
    method Set(name: string, val: Value) returns (r: Outcome<Error>)
      modifies this
      ensures globalOnly == old(globalOnly)
      ensures r.Fail? <==> Updated(old(settings), name, val).Failure?
      ensures r.Fail? ==> r.error == Raised(Updated(old(settings), name, val).error) && settings == old(settings)
      ensures r.Pass? ==> settings == Updated(old(settings), name, val).value
    {
      if name !in settings {
        return Fail(NameInvalidError(name));
      }
      settings := settings[name := settings[name].(val := val)];
      return Pass;
    }

    /** `c[name]`: the same as `get(name)`. */
    method GetItem(name: string) returns (r: Result<Value, Error>)
      ensures r.Success? <==> name in settings
      ensures r.Failure? ==> r.error == NameInvalidError(name)
      ensures r.Success? ==> r.value == settings[name].val
    {
      r := Get(name);
    }

    /** `c[name] = val`: the same as `set(name, val)`. */
    method SetItem(name: string, val: Value) returns (r: Outcome<Error>)
      modifies this
      ensures globalOnly == old(globalOnly)
      ensures r.Fail? <==> Updated(old(settings), name, val).Failure?
      ensures r.Fail? ==> r.error == Raised(Updated(old(settings), name, val).error) && settings == old(settings)
      ensures r.Pass? ==> settings == Updated(old(settings), name, val).value
    {
      r := Set(name, val);
    }
  }

  /** A section seen as a value: its `global_only` flag and its settings. */
  datatype SectionView = SectionView(globalOnly: bool, settings: Table)

  class Config {
    /** `self.__sections` */
    var sections: map<string, ConfigSection>

    /** Each name holds a section of its own: no two names share one. */
    ghost predicate Valid()
      reads this
    {
      forall a, b :: a in sections && b in sections && a != b ==> sections[a] != sections[b]
    }

    /** The sections as values. */
    ghost function View(): map<string, SectionView>
      reads this, sections.Values
    {
      map n | n in sections :: SectionView(sections[n].globalOnly, sections[n].settings)
    }

    /** `Config()` */
    constructor()
      ensures Valid() && sections == map[]
    {
      sections := map[];
    }

    /** `add_section(name, global_only = False)`: NameExistsError for a name already used;
        otherwise a new, empty section under `name`, every other section as it was. */
    method AddSection(name: string, globalOnly: bool := false) returns (r: Outcome<Error>)
      requires Valid()
      modifies this
      ensures Valid()
      ensures r.Fail? <==> name in old(sections)
      ensures r.Fail? ==> r.error == NameExistsError(name) && sections == old(sections)
      ensures r.Pass? ==> sections.Keys == old(sections.Keys) + {name} && fresh(sections[name]) &&
                          forall n :: n in old(sections) ==> sections[n] == old(sections[n])
      ensures View() == if r.Fail? then old(View()) else old(View())[name := SectionView(globalOnly, map[])]
    {
      if name in sections {
        return Fail(NameExistsError(name));
      }
      var section := new ConfigSection(globalOnly);
      sections := sections[name := section];
      return Pass;
    }

    /** `get(name)`: the section itself, not a copy; NameInvalidError for an unknown name. */
    method Get(name: string) returns (r: Result<ConfigSection, Error>)
      ensures r.Success? <==> name in sections
      ensures r.Failure? ==> r.error == NameInvalidError(name)
      ensures r.Success? ==> r.value == sections[name]
    {
      if name !in sections {
        return Failure(NameInvalidError(name));
      }
      return Success(sections[name]);
    }

    /** `c[name]`: the same as `get(name)`. */
    method GetItem(name: string) returns (r: Result<ConfigSection, Error>)
      ensures r.Success? <==> name in sections
      ensures r.Failure? ==> r.error == NameInvalidError(name)
      ensures r.Success? ==> r.value == sections[name]
    {
      r := Get(name);
    }
  }

  /** `c[name].add_setting(setting, kind, default)`: the section is looked up, then changed
      in place; every other section of `c` is left as it was. */
  method AddSettingIn(c: Config, name: string, setting: string, kind: string, default: Value)
    returns (r: Outcome<Error>)
    requires c.Valid()
    modifies c.sections.Values
    ensures c.Valid()
    ensures name !in c.sections ==> r == Fail(NameInvalidError(name)) && c.View() == old(c.View())
    ensures name in c.sections ==>
      var before := old(c.View()[name]);
      var added := Added(before.settings, name := setting, kind := kind, default := default);
      (r.Fail? <==> added.Failure?) &&
      (r.Fail? ==> r.error == Raised(added.error) && c.View() == old(c.View())) &&
      (r.Pass? ==> c.View() == old(c.View())[name := before.(settings := added.value)])
  {
    var section := c.GetItem(name);
    if section.Failure? {
      return Fail(section.error);
    }
    r := section.value.AddSetting(setting, kind, default);
  }

  /** Two sections of one configuration, each given a setting of its own, each read back its
      own value. */
  method DifferentSections() returns (v1: Result<Value, Error>, v2: Result<Value, Error>)
    ensures v1 == Success(VInt(1)) && v2 == Success(VInt(2))
  {
    var c := new Config();
    var r := c.AddSection("g", true);
    r := c.AddSection("l");
    r := AddSettingIn(c, "g", "i1", "int", VInt(1));
    r := AddSettingIn(c, "l", "i2", "int", VInt(2));
    var g := c.GetItem("g");
    var l := c.GetItem("l");
    v1 := g.value.GetItem("i1");
    v2 := l.value.GetItem("i2");
  }

  /** `global_only` is False unless given, and kept as given. */
  method GlobalOnlyFlag() returns (plain: bool, given: bool)
    ensures !plain && given
  {
    var c := new ConfigSection();
    var d := new ConfigSection(true);
    plain := c.globalOnly;
    given := d.globalOnly;
  }

  /** With sections 'g' and 'l', adding 'g' again raises NameExistsError and getting 'm'
      raises NameInvalidError. */
  method SectionMisuse() returns (again: Outcome<Error>, missing: Result<ConfigSection, Error>)
    ensures again == Fail(NameExistsError("g")) && missing == Failure(NameInvalidError("m"))
  {
    var c := new Config();
    var r := c.AddSection("g", true);
    r := c.AddSection("l");
    again := c.AddSection("g");
    missing := c.Get("m");
  }
}
