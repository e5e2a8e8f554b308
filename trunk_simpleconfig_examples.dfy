/** Concrete inputs to `Config.create_from_file` of trunk/simpleconfig.py, given as the
    classified lines `Classify` yields for them. */
module TrunkSimpleConfigExamples {
  import opened Wrappers
  import opened Text
  import opened Values
  import opened LineSyntax
  import opened TrunkSimpleConfig

  /** Appending the text of an integer to a setting read from the text of an integer. */
  lemma AppendedIntegers(m: nat, n: nat)
    ensures Appended(NewSetting(VStr(IntToString(m)), true), IntToString(n)).value == VList([VInt(m), VInt(n)])
  {
    AutoTypeIntegerRoundTrip(m);
    AutoTypeIntegerRoundTrip(n);
  }

  /** The renderings of the integers these examples use. */
  lemma SmallNumbers()
    ensures IntToString(1) == "1" && IntToString(2) == "2"
    ensures IntToString(10) == "10" && IntToString(101) == "101"
  {
    assert NatToString(10) == NatToString(1) + [DigitChar(0)] == "10";
    assert NatToString(101) == NatToString(10) + [DigitChar(1)] == "101";
  }

  /** A first header opens its section empty. */
  lemma FirstHeaderOpensSection(name: string)
    ensures ParseKinds([Header(name)]) == Success(ParseState(map[name := map[]], name))
  {
    ParseKindsStep([Header(name)], 0);
    assert [Header(name)][..1] == [Header(name)];
    var v: View := map[name := map[]];
    if name == DefaultsName {
      assert DefaultsApplied(v, DefaultsName, None)[name] == v[name];
    }
    assert DefaultsApplied(v, DefaultsName, None) == v;
  }

  /** A key given twice in one section collects both values, auto-typed, in a list:
      `[job]`, `exit_codes = 10`, `exit_codes = 101`. */
  lemma RepeatedKeyMakesList()
    ensures ParseKinds([Header("job"), Assign("exit_codes", "10"), Assign("exit_codes", "101")]).Success?
    ensures var v := ParseKinds([Header("job"), Assign("exit_codes", "10"), Assign("exit_codes", "101")]).value.view;
      "job" in v && "exit_codes" in v["job"] && v["job"]["exit_codes"].value == VList([VInt(10), VInt(101)])
  {
    var k := [Header("job"), Assign("exit_codes", "10"), Assign("exit_codes", "101")];
    var st1 := ParseState(map["job" := map[]], "job");
    FirstHeaderOpensSection("job");
    ParseKindsStep(k, 1);
    assert k[..1] == [Header("job")];
    var s10 := NewSetting(VStr("10"), true);
    var st2 := ParseState(map["job" := map["exit_codes" := s10]], "job");
    AssignNew("job", "exit_codes", "10");
    assert ParseStep(st1, k[1]) == st2;
    ParseKindsStep(k, 2);
    assert k[..|k|] == k;
    SmallNumbers();
    AppendedIntegers(10, 101);
  }

  /** A setting assigned in the current, existing section that lacks it. */
  lemma AssignNew(sec: string, key: string, text: string)
    ensures ParseStep(ParseState(map[sec := map[]], sec), Assign(key, text))
      == ParseState(map[sec := map[key := NewSetting(VStr(text), true)]], sec)
  {
    assert Stored(map[sec := map[]], DefaultsName, sec, key, NewSetting(VStr(text), true))
      == map[sec := map[key := NewSetting(VStr(text), true)]];
  }

  /** A new section opened after `[defaults]` receives the defaults' settings. */
  lemma OpenAfterDefaults(key: string, s: Setting)
    ensures ParseStep(ParseState(map[DefaultsName := map[key := s]], DefaultsName), Header("one"))
      == ParseState(map[DefaultsName := map[key := s], "one" := map[key := s]], "one")
  {
    var grown := map[DefaultsName := map[key := s], "one" := map[]];
    assert DefaultsName != "one";
    assert DefaultsApplied(grown, DefaultsName, None)["one"] == Inherit(map[], map[key := s]) == map[key := s];
    assert DefaultsApplied(grown, DefaultsName, None)[DefaultsName] == map[key := s];
    assert DefaultsApplied(grown, DefaultsName, None) == map[DefaultsName := map[key := s], "one" := map[key := s]];
  }

  /** `[defaults]`, `a = 1`, `[one]`: the new section starts with the default's setting. */
  lemma DefaultsThenSection()
    ensures ParseKinds([Header("defaults"), Assign("a", "1"), Header("one")])
      == Success(ParseState(map[DefaultsName := map["a" := NewSetting(VStr("1"), true)],
                                "one" := map["a" := NewSetting(VStr("1"), true)]], "one"))
  {
    var k := [Header("defaults"), Assign("a", "1"), Header("one")];
    var one := NewSetting(VStr("1"), true);
    FirstHeaderOpensSection("defaults");
    assert k[..1] == [Header("defaults")];
    ParseKindsStep(k, 1);
    AssignNew("defaults", "a", "1");
    ParseKindsStep(k, 2);
    OpenAfterDefaults("a", one);
    assert k[..|k|] == k;
  }

  /** A `[defaults]` section read before another section hands its settings to that section
      as it is created, so the section's own assignment of the same key is taken for a repeated
      key: `[defaults]`, `a = 1`, `[one]`, `a = 2` leaves `one.a` as the list [1, 2]. */
  lemma DefaultsBeforeSectionMakeList()
    ensures ParseKinds([Header("defaults"), Assign("a", "1"), Header("one"), Assign("a", "2")]).Success?
    ensures var v := ParseKinds([Header("defaults"), Assign("a", "1"), Header("one"), Assign("a", "2")]).value.view;
      "one" in v && "a" in v["one"] && v["one"]["a"].value == VList([VInt(1), VInt(2)])
  {
    var k := [Header("defaults"), Assign("a", "1"), Header("one"), Assign("a", "2")];
    DefaultsThenSection();
    assert k[..3] == [Header("defaults"), Assign("a", "1"), Header("one")];
    ParseKindsStep(k, 3);
    assert k[..|k|] == k;
    SmallNumbers();
    AppendedIntegers(1, 2);
  }
}
