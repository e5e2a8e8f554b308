/** The Python values the configuration code stores and the whole-string recognisers its two
    value auto-typers share. */
module Values {
  import opened Text

  /** A Python value as configuration settings hold it. Compiled regular expressions are kept
      as their source text; floats as their literal text (nothing here computes with them). */
  datatype Value =
    | VNone
    | VInt(i: int)
    | VBool(b: bool)
    | VStr(s: string)
    | VList(items: seq<Value>)
    | VPattern(source: string)
    | VFloat(literal: string)

  /** The range of Python 2's `int` on a 64-bit platform, `-sys.maxint - 1` to `sys.maxint`;
      `int(s)` gives a `long` for a number outside it. */
  const MinInt: int := -0x8000_0000_0000_0000
  const MaxInt: int := 0x7fff_ffff_ffff_ffff

  /** An integer Python 2 holds as an `int` rather than a `long`. */
  predicate InIntRange(i: int) {
    MinInt <= i <= MaxInt
  }

  /** `isinstance(v, int)`: in Python a boolean is an integer too, and a `long` is not one. */
  predicate IsInt(v: Value) {
    (v.VInt? && InIntRange(v.i)) || v.VBool?
  }

  /** `(?i)(none|null)$` matched at the start of `s`. */
  predicate IsNoneWord(s: string) {
    LowerString(Chomp(s)) in {"none", "null"}
  }

  /** `(?i)(true|yes|on)$` matched at the start of `s`. */
  predicate IsTrueWord(s: string) {
    LowerString(Chomp(s)) in {"true", "yes", "on"}
  }

  /** `(?i)(false|no|off)$` matched at the start of `s`. */
  predicate IsFalseWord(s: string) {
    LowerString(Chomp(s)) in {"false", "no", "off"}
  }

  /** `-?[0-9]+$` matched at the start of `s`. */
  predicate IsIntegerText(s: string) {
    var t := Chomp(s);
    |t| > 0 && if t[0] == '-' then |t| > 1 && AllDigits(t[1..]) else AllDigits(t)
  }

  /** Python's `int(s)` on a string `IsIntegerText` accepts (`int` ignores the final newline). */
  function IntegerValue(s: string): int
    requires IsIntegerText(s)
  {
    var t := Chomp(s);
    if t[0] == '-' then -(DecimalValue(t[1..]) as int) else DecimalValue(t)
  }

  /** Any of the four unquoted shapes both auto-typers convert. */
  predicate IsKeywordOrInteger(s: string) {
    IsNoneWord(s) || IsIntegerText(s) || IsTrueWord(s) || IsFalseWord(s)
  }

  /** The value the four unquoted shapes convert to, tried in the source's order. */
  function ConvertKeywordOrInteger(s: string): (r: Value)
    requires IsKeywordOrInteger(s)
    ensures !r.VStr? && !r.VList?
  {
    if IsNoneWord(s) then VNone
    else if IsIntegerText(s) then VInt(IntegerValue(s))
    else if IsTrueWord(s) then VBool(true)
    else VBool(false)
  }

  /** The recognisers only look at the text before a final newline. */
  lemma ChompedAlike(s: string, t: string)
    requires Chomp(s) == Chomp(t)
    ensures IsKeywordOrInteger(s) <==> IsKeywordOrInteger(t)
    ensures IsKeywordOrInteger(s) ==> ConvertKeywordOrInteger(s) == ConvertKeywordOrInteger(t)
  {
  }

  /** The decimal rendering of any integer is recognised as that integer. */
  lemma IntegerTextRoundTrip(n: int)
    ensures IsIntegerText(IntToString(n)) && !IsNoneWord(IntToString(n))
    ensures !IsTrueWord(IntToString(n)) && !IsFalseWord(IntToString(n))
    ensures ConvertKeywordOrInteger(IntToString(n)) == VInt(n)
  {
    var s := IntToString(n);
    var digits := NatToString(if n < 0 then -n else n);
    assert Chomp(s) == s by {
      assert s[|s| - 1] == digits[|digits| - 1];
    }
    DecimalValueOfNatToString(if n < 0 then -n else n);
    if n < 0 {
      assert s[1..] == digits;
    }
    var low := LowerString(s);
    assert low[0] == '-' || IsDigit(low[0]) by {
      assert s[0] == '-' || s[0] == digits[0];
    }
  }
}
