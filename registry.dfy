/** The typed setting table shared by the two processor configuration classes,
    `ConfigSetting` in processor/config.py and `ConfigSection` in trunk/processor/config.py:
    a dictionary from setting name to its declared type and its current value, with the
    three ways an operation on it can fail. The classes differ only in the names and messages
    of their exceptions, so each maps `Failure` to its own. */
module Registry {
  import opened Wrappers
  import opened Values

  /** One row of the table: `{'type': kind, 'val': val}`. */
  datatype Entry = Entry(kind: string, val: Value)

  type Table = map<string, Entry>

  /** Why an operation on the table failed. */
  datatype Failure =
    | Duplicate(name: string)
    | InvalidType(kind: string)
    | Missing(name: string)

  /** The type names `add_setting` accepts. */
  const SettingTypes: seq<string> := ["string", "int", "float", "boolean", "list"]

  /** The type and default `add_setting` uses when none is given. */
  const DefaultType: string := "string"
  const DefaultValue: Value := VNone

  /** `add_setting(name, kind, default)`: a name already in the table fails first, then a type
      outside `SettingTypes`; otherwise the table gains exactly that one row. */
  function Added(table: Table, name: string, kind: string, default: Value): (r: Result<Table, Failure>)
    ensures name in table ==> r == Failure(Duplicate(name))
    ensures name !in table && kind !in SettingTypes ==> r == Failure(InvalidType(kind))
    ensures r.Success? <==> name !in table && kind in SettingTypes
    ensures r.Success? ==>
      r.value.Keys == table.Keys + {name} && r.value[name] == Entry(kind, default) &&
      forall n :: n in table ==> r.value[n] == table[n]
  {
    if name in table then Failure(Duplicate(name))
    else if kind !in SettingTypes then Failure(InvalidType(kind))
    else Success(table[name := Entry(kind, default)])
  }

  /** `get_type(name)` and `get(name)` look the row up; an absent name fails. */
  function Lookup(table: Table, name: string): (r: Result<Entry, Failure>)
    ensures r.Success? <==> name in table
    ensures r.Failure? ==> r.error == Missing(name)
    ensures r.Success? ==> r.value == table[name]
  {
    if name in table then Success(table[name]) else Failure(Missing(name))
  }

  /** `set(name, val)`: an absent name fails; otherwise only that row's value changes, to `val`,
      with no check against its declared type. */
  function Updated(table: Table, name: string, val: Value): (r: Result<Table, Failure>)
    ensures r.Success? <==> name in table
    ensures r.Failure? ==> r.error == Missing(name)
    ensures r.Success? ==>
      r.value.Keys == table.Keys && r.value[name] == Entry(table[name].kind, val) &&
      forall n :: n in table && n != name ==> r.value[n] == table[n]
  {
    if name !in table then Failure(Missing(name))
    else Success(table[name := table[name].(val := val)])
  }

  /** A setting that was just added reads back with the type and default it was added with,
      and adding it again fails as a duplicate, whatever the type. */
  lemma AddedThenLookup(table: Table, name: string, kind: string, default: Value, kind2: string, default2: Value)
    requires Added(table, name, kind, default).Success?
    ensures Lookup(Added(table, name, kind, default).value, name) == Success(Entry(kind, default))
    ensures Added(Added(table, name, kind, default).value, name, kind2, default2) == Failure(Duplicate(name))
  {
  }

  /** A value that was just set reads back, under the type it already had; every other name
      reads as before. */
  lemma UpdatedThenLookup(table: Table, name: string, val: Value, other: string)
    requires name in table && other != name
    ensures Lookup(Updated(table, name, val).value, name) == Success(Entry(table[name].kind, val))
    ensures Lookup(Updated(table, name, val).value, other) == Lookup(table, other)
  {
  }

  /** Setting a value twice leaves only the second; setting back the value a row already holds
      changes nothing. */
  lemma UpdatedTwice(table: Table, name: string, v1: Value, v2: Value)
    requires name in table
    ensures Updated(Updated(table, name, v1).value, name, v2) == Updated(table, name, v2)
    ensures Updated(table, name, table[name].val) == Success(table)
  {
    assert Updated(Updated(table, name, v1).value, name, v2).value == Updated(table, name, v2).value;
    assert Updated(table, name, table[name].val).value == table;
  }

  /** Adding and setting never remove a name, and never change a declared type. */
  lemma TypesAreFixed(table: Table, name: string, kind: string, default: Value, n: string, val: Value)
    requires n in table
    ensures Added(table, name, kind, default).Success? ==> Added(table, name, kind, default).value[n].kind == table[n].kind
    ensures Updated(table, name, val).Success? ==> Updated(table, name, val).value[n].kind == table[n].kind
  {
  }
}
