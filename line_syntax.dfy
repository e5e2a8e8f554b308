/** The three line shapes both generations of the configuration parser recognise, written as
    string predicates equivalent to their regular expressions (Python `re.match`, `\s` as in
    `Text.IsSpace`, `.` not matching a newline, `$` matching at the end or before a final newline). */
module LineSyntax {
  import opened Wrappers
  import opened Text

  /** The first index at or after `from` where `s` holds `c`. */
  function FirstIndex(s: string, c: char, from: nat): (r: Option<nat>)
    requires from <= |s|
    ensures r.Some? ==> from <= r.value < |s| && s[r.value] == c
    ensures r.Some? ==> forall i :: from <= i < r.value ==> s[i] != c
    ensures r.None? ==> forall i :: from <= i < |s| ==> s[i] != c
    decreases |s| - from
  {
    if from == |s| then None
    else if s[from] == c then Some(from)
    else FirstIndex(s, c, from + 1)
  }

  /** `^\s*(#.*)?$`: a blank line or a comment. */
  predicate IsBlankOrComment(line: string) {
    var t := LStrip(line);
    t == [] || (t[0] == '#' && !HasNewline(Chomp(t[1..])))
  }

  /** `^\s*\[\s*([^\]]*?)\s*\]\s*$`: a section header. The name is what stands between the
      '[' and the first ']', without whitespace at either end; only whitespace may follow. */
  function HeaderName(line: string): (r: Option<string>)
    ensures r.Some? ==> r.value == [] || (!IsSpace(r.value[0]) && !IsSpace(r.value[|r.value| - 1]))
    ensures r.Some? ==> forall i :: 0 <= i < |r.value| ==> r.value[i] != ']'
  {
    var t := LStrip(line);
    if |t| > 0 && t[0] == '[' then
      match FirstIndex(t, ']', 1)
      case Some(j) =>
        if AllSpace(t[j + 1..]) then
          StripEnds(t[1..j]);
          StripAvoids(t[1..j], ']');
          Some(Strip(t[1..j]))
        else None
      case None => None
    else None
  }

  /** `^\s*([^=]*?)\s*=\s*(.*?)\s*$`: a setting. The line splits at its first '='; key and value
      lose whitespace at either end, and the value may not span a newline. */
  function Assignment(line: string): (r: Option<(string, string)>)
    ensures r.Some? ==> forall i :: 0 <= i < |r.value.0| ==> r.value.0[i] != '='
    ensures r.Some? ==> !HasNewline(r.value.1)
  {
    match FirstIndex(line, '=', 0)
    case None => None
    case Some(e) =>
      StripAvoids(line[..e], '=');
      var value := Strip(line[e + 1..]);
      if HasNewline(value) then None else Some((Strip(line[..e]), value))
  }

  /** A line the parsers accept: blank or a comment, a section header, or `key = value`. */
  predicate LineParses(line: string) {
    IsBlankOrComment(line) || HeaderName(line).Some? || Assignment(line).Some?
  }

  /** How the parsers read one line, tried in this order: blank or a comment, a
      section header, a `key = value` assignment; otherwise the line is unparseable. */
  datatype LineKind = Ignored | Header(name: string) | Assign(key: string, text: string) | Unparseable(line: string)

  function Classify(line: string): (k: LineKind)
    ensures k.Unparseable? <==> !LineParses(line)
    ensures k.Unparseable? ==> k.line == line
  {
    if IsBlankOrComment(line) then Ignored
    else if HeaderName(line).Some? then Header(HeaderName(line).value)
    else if Assignment(line).Some? then Assign(Assignment(line).value.0, Assignment(line).value.1)
    else Unparseable(line)
  }

  /** The classification of every line. */
  function Kinds(lines: seq<string>): (r: seq<LineKind>)
    ensures |r| == |lines| && forall i {:trigger r[i]} :: 0 <= i < |lines| ==> r[i] == Classify(lines[i])
  {
    seq(|lines|, i requires 0 <= i < |lines| => Classify(lines[i]))
  }

  /** Which classification each branch of the line parsers yields. */
  lemma ClassifyCases(line: string)
    ensures IsBlankOrComment(line) ==> Classify(line) == Ignored
    ensures !IsBlankOrComment(line) && HeaderName(line).Some? ==> Classify(line) == Header(HeaderName(line).value)
    ensures !IsBlankOrComment(line) && HeaderName(line).None? && Assignment(line).Some? ==>
      Classify(line) == Assign(Assignment(line).value.0, Assignment(line).value.1)
    ensures !LineParses(line) ==> Classify(line) == Unparseable(line)
  {
  }

  /** The classification of line `i` of a file. */
  lemma KindIs(lines: seq<string>, i: int)
    requires 0 <= i < |lines|
    ensures Kinds(lines)[i] == Classify(lines[i])
  {
  }

  /** What the classification of a file says about its line `i`, without its regular
      expressions. */
  lemma KindsAt(lines: seq<string>, i: int)
    requires 0 <= i < |lines|
    ensures Kinds(lines)[i].Unparseable? <==> !LineParses(lines[i])
    ensures Kinds(lines)[i].Unparseable? ==> Kinds(lines)[i].line == lines[i]
  {
    assert Kinds(lines)[i] == Classify(lines[i]);
  }
}
