/** processor/config.py: `ConfigSetting`, a table of typed settings changed in place. */
module ProcessorConfig {
  import opened Wrappers
  import opened Values
  import opened Registry

  /** The exceptions of processor/config.py. */
  datatype Error =
    | SettingExistsError(name: string)
    | SettingTypeInvalidError(kind: string)
    | SettingNameInvalidError(name: string)
  {
    /** `str(e)` */
    function Message(): string {
      match this
      case SettingExistsError(n) => "Setting already defined: " + n
      case SettingTypeInvalidError(k) => "Setting has invalid type: " + k
      case SettingNameInvalidError(n) => "Setting does not exist: " + n
    }
  }

  /** The exception each way of failing raises. */
  function Raised(f: Failure): (e: Error)
    ensures f.Duplicate? <==> e.SettingExistsError?
    ensures f.InvalidType? <==> e.SettingTypeInvalidError?
    ensures f.Missing? <==> e.SettingNameInvalidError?
  {
    match f
    case Duplicate(n) => SettingExistsError(n)
    case InvalidType(k) => SettingTypeInvalidError(k)
    case Missing(n) => SettingNameInvalidError(n)
  }

  class ConfigSetting {
    /** `self.__settings` */
    var settings: Table

    /** `ConfigSetting()` */
    constructor()
      ensures settings == map[]
    {
      settings := map[];
    }

    /** `add_setting(name, type = 'string', default = None)`: SettingExistsError for a name
        already defined, then SettingTypeInvalidError for an unknown type; a failed call
        changes nothing. */
    method AddSetting(name: string, kind: string := DefaultType, default: Value := DefaultValue)
      returns (r: Outcome<Error>)
      modifies this
      ensures r.Fail? <==> Added(old(settings), name, kind, default).Failure?
      ensures r.Fail? ==> r.error == Raised(Added(old(settings), name, kind, default).error) &&
                          settings == old(settings)
      ensures r.Pass? ==> settings == Added(old(settings), name, kind, default).value
    {
      if name in settings {
        return Fail(SettingExistsError(name));
      }
      if kind !in SettingTypes {
        return Fail(SettingTypeInvalidError(kind));
      }
      settings := settings[name := Entry(kind, default)];
      return Pass;
    }

    /** `get_type(name)` */
    method GetType(name: string) returns (r: Result<string, Error>)
      ensures r.Success? <==> name in settings
      ensures r.Failure? ==> r.error == SettingNameInvalidError(name)
      ensures r.Success? ==> r.value == settings[name].kind
    {
      if name !in settings {
        return Failure(SettingNameInvalidError(name));
      }
      return Success(settings[name].kind);
    }

    /** `get(name)` */
    method Get(name: string) returns (r: Result<Value, Error>)
      ensures r.Success? <==> name in settings
      ensures r.Failure? ==> r.error == SettingNameInvalidError(name)
      ensures r.Success? ==> r.value == settings[name].val
    {
      if name !in settings {
        return Failure(SettingNameInvalidError(name));
      }
      return Success(settings[name].val);
    }

    /** `set(name, val)`: SettingNameInvalidError for an unknown name; otherwise only that
        setting's value changes. */
    method Set(name: string, val: Value) returns (r: Outcome<Error>)
      modifies this
      ensures r.Fail? <==> name !in old(settings)
      ensures r.Fail? ==> r.error == SettingNameInvalidError(name) && settings == old(settings)
      ensures r.Pass? ==> settings == Updated(old(settings), name, val).value
    {
      if name !in settings {
        return Fail(SettingNameInvalidError(name));
      }
      settings := settings[name := settings[name].(val := val)];
      return Pass;
    }

    /** `c[name]`: the same as `get(name)`. */
    method GetItem(name: string) returns (r: Result<Value, Error>)
      ensures r.Success? <==> name in settings
      ensures r.Failure? ==> r.error == SettingNameInvalidError(name)
      ensures r.Success? ==> r.value == settings[name].val
    {
      r := Get(name);
    }

    /** `c[name] = val`: the same as `set(name, val)`. */
    method SetItem(name: string, val: Value) returns (r: Outcome<Error>)
      modifies this
      ensures r.Fail? <==> Updated(old(settings), name, val).Failure?
      ensures r.Fail? ==> r.error == Raised(Updated(old(settings), name, val).error) && settings == old(settings)
      ensures r.Pass? ==> settings == Updated(old(settings), name, val).value
    {
      r := Set(name, val);
    }
  }

  /** The table the tests start from: one setting of each type, the first with the default
      type and value. */
  const SetUpTable: Table := map[
    "s" := Entry("string", VNone),
    "i" := Entry("int", VInt(2)),
    "f" := Entry("float", VFloat("2.1")),
    "b" := Entry("boolean", VBool(true)),
    "l" := Entry("list", VList([VStr("a"), VStr("b")]))]

  /** The five `add_setting` calls the tests start from. */
  method SetUp() returns (c: ConfigSetting)
    ensures fresh(c) && c.settings == SetUpTable
  {
    c := new ConfigSetting();
    var r := c.AddSetting("s");
    assert c.settings == map["s" := Entry("string", VNone)];
    r := c.AddSetting("i", "int", VInt(2));
    r := c.AddSetting("f", "float", VFloat("2.1"));
    assert c.settings.Keys == {"s", "i", "f"};
    r := c.AddSetting("b", "boolean", VBool(true));
    r := c.AddSetting("l", "list", VList([VStr("a"), VStr("b")]));
    assert c.settings.Keys == SetUpTable.Keys;
  }

  /** On that table a second `add_setting` of a name fails before its type is looked at, an
      unknown type is refused, and an unknown name cannot be read or set. */
  method Misuse() returns (again: Outcome<Error>, badType: Outcome<Error>, get: Result<Value, Error>,
                           put: Outcome<Error>)
    ensures again == Fail(SettingExistsError("s")) && badType == Fail(SettingTypeInvalidError("type"))
    ensures get == Failure(SettingNameInvalidError("m")) && put == Fail(SettingNameInvalidError("m"))
  {
    var c := SetUp();
    again := c.AddSetting("s", "int");
    badType := c.AddSetting("new", "type");
    get := c.Get("m");
    put := c.Set("m", VInt(1));
  }

  /** On that table `c['i'] = 3` is read back by `get`, under the type `int` it had. */
  method SetThenGet() returns (v: Result<Value, Error>, t: Result<string, Error>)
    ensures v == Success(VInt(3)) && t == Success("int")
  {
    var c := SetUp();
    var r := c.SetItem("i", VInt(3));
    v := c.Get("i");
    t := c.GetType("i");
  }
}
