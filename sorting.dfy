/** Python's ordering of byte strings and the sorted name lists that `get_settings`,
    `get_sections` and the section and config iterators return. */
module Sorting {

  /** Lexicographic order on strings: a proper prefix comes first, otherwise the first
      differing character decides. */
  predicate Less(a: string, b: string) {
    if |a| == 0 then |b| > 0
    else if |b| == 0 then false
    else a[0] < b[0] || (a[0] == b[0] && Less(a[1..], b[1..]))
  }

  lemma {:induction false} LessIrreflexive(a: string)
    ensures !Less(a, a)
  {
    if |a| > 0 { LessIrreflexive(a[1..]); }
  }

  lemma {:induction false} LessAsymmetric(a: string, b: string)
    ensures !(Less(a, b) && Less(b, a))
  {
    if |a| > 0 && |b| > 0 && a[0] == b[0] { LessAsymmetric(a[1..], b[1..]); }
  }

  lemma {:induction false} LessTransitive(a: string, b: string, c: string)
    requires Less(a, b) && Less(b, c)
    ensures Less(a, c)
  {
    if |a| > 0 && a[0] == b[0] && b[0] == c[0] {
      LessTransitive(a[1..], b[1..], c[1..]);
    }
  }

  lemma {:induction false} LessTotal(a: string, b: string)
    ensures a == b || Less(a, b) || Less(b, a)
  {
    if |a| > 0 && |b| > 0 && a[0] == b[0] {
      LessTotal(a[1..], b[1..]);
      if a[1..] == b[1..] {
        assert a == [a[0]] + a[1..] && b == [b[0]] + b[1..];
      }
    }
  }

  /** Each string is less than the one after it. */
  predicate StrictlySorted(s: seq<string>) {
    |s| < 2 || (Less(s[0], s[1]) && StrictlySorted(s[1..]))
  }

  /** In a strictly ascending sequence each string is less than every later one. */
  lemma {:induction false} SortedPairs(s: seq<string>)
    requires StrictlySorted(s)
    ensures forall i, j :: 0 <= i < j < |s| ==> Less(s[i], s[j])
    decreases |s|
  {
    if |s| >= 2 {
      var t := s[1..];
      SortedPairs(t);
      forall i, j | 0 <= i < j < |s| ensures Less(s[i], s[j]) {
        if i > 0 {
          assert s[i] == t[i - 1] && s[j] == t[j - 1];
        } else if j > 1 {
          assert s[1] == t[0] && s[j] == t[j - 1];
          LessTransitive(s[0], s[1], s[j]);
        }
      }
    }
  }

  /** A string less than the head of an ascending sequence extends it at the front. */
  lemma SortedCons(x: string, s: seq<string>)
    requires StrictlySorted(s) && (s != [] ==> Less(x, s[0]))
    ensures StrictlySorted([x] + s)
  {
    assert ([x] + s)[1..] == s;
  }

  /** A strictly ascending sequence repeats no string. */
  lemma SortedDistinct(s: seq<string>)
    requires StrictlySorted(s)
    ensures forall i, j :: 0 <= i < j < |s| ==> s[i] != s[j]
  {
    SortedPairs(s);
    forall i, j | 0 <= i < j < |s| ensures s[i] != s[j] {
      if s[i] == s[j] { LessIrreflexive(s[i]); }
    }
  }

  /** `r` lists exactly the strings of `keys`, each once, in ascending order. */
  ghost predicate SortedListing(r: seq<string>, keys: set<string>) {
    StrictlySorted(r) && forall k :: k in r <==> k in keys
  }

  /** `m` is the least element of `keys`. */
  ghost predicate IsMinimum(m: string, keys: set<string>) {
    m in keys && forall k :: k in keys && k != m ==> Less(m, k)
  }

  lemma {:induction false} MinimumExists(keys: set<string>)
    requires keys != {}
    ensures exists m :: IsMinimum(m, keys)
  {
    var x :| x in keys;
    if keys == {x} {
      assert IsMinimum(x, keys);
    } else {
      var rest := keys - {x};
      MinimumExists(rest);
      var m :| IsMinimum(m, rest);
      LessTotal(x, m);
      if Less(x, m) {
        forall k | k in keys && k != x ensures Less(x, k) {
          if k != m { LessTransitive(x, m, k); }
        }
        assert IsMinimum(x, keys);
      } else {
        assert IsMinimum(m, keys);
      }
    }
  }

  /** The ascending listing of a finite set of strings. */
  ghost function SortedOf(keys: set<string>): (r: seq<string>)
    ensures SortedListing(r, keys)
    decreases keys
  {
    if keys == {} then []
    else
      MinimumExists(keys);
      var m :| IsMinimum(m, keys);
      var rest := SortedOf(keys - {m});
      assert rest != [] ==> Less(m, rest[0]) by {
        if rest != [] { assert rest[0] in keys - {m}; }
      }
      SortedCons(m, rest);
      [m] + rest
  }

  lemma ListingEmpty(a: seq<string>, keys: set<string>)
    requires SortedListing(a, keys)
    ensures a == [] <==> keys == {}
  {
    if a != [] {
      assert a[0] in keys;
    }
    if keys != {} {
      var k :| k in keys;
      assert k in a;
    }
  }

  /** Two ascending listings of the same set are the same sequence. */
  lemma {:induction false} SortedListingUnique(a: seq<string>, b: seq<string>, keys: set<string>)
    requires SortedListing(a, keys) && SortedListing(b, keys)
    ensures a == b
    decreases |a|
  {
    SortedPairs(a);
    SortedPairs(b);
    if a != [] && b != [] {
      assert a[0] == b[0] by {
        assert a[0] in b && b[0] in a;
        if a[0] != b[0] {
          var i :| 0 <= i < |b| && b[i] == a[0];
          var j :| 0 <= j < |a| && a[j] == b[0];
          assert Less(b[0], a[0]) by { if i == 0 { assert false; } }
          assert Less(a[0], b[0]) by { if j == 0 { assert false; } }
          LessAsymmetric(a[0], b[0]);
        }
      }
      forall k ensures k in a[1..] <==> k in keys - {a[0]} {
        if k in a[1..] {
          var i :| 1 <= i < |a| && a[i] == k;
          LessIrreflexive(k);
        }
        if k in a && k != a[0] {
          var i :| 0 <= i < |a| && a[i] == k;
          assert a[1..][i - 1] == k;
        }
      }
      forall k ensures k in b[1..] <==> k in keys - {a[0]} {
        if k in b[1..] {
          var i :| 1 <= i < |b| && b[i] == k;
          LessIrreflexive(k);
        }
        if k in b && k != b[0] {
          var i :| 0 <= i < |b| && b[i] == k;
          assert b[1..][i - 1] == k;
        }
      }
      assert StrictlySorted(a[1..]) && StrictlySorted(b[1..]);
      SortedListingUnique(a[1..], b[1..], keys - {a[0]});
      assert a == [a[0]] + a[1..] && b == [b[0]] + b[1..];
    } else {
      ListingEmpty(a, keys);
      ListingEmpty(b, keys);
    }
  }

  /** `s` with `x` inserted at its place in the order. */
  function Insert(s: seq<string>, x: string): (r: seq<string>)
    requires StrictlySorted(s) && x !in s
    ensures StrictlySorted(r) && forall k :: k in r <==> k in s || k == x
  {
    if s == [] then [x]
    else if Less(x, s[0]) then
      SortedCons(x, s);
      [x] + s
    else
      LessTotal(x, s[0]);
      assert StrictlySorted(s[1..]);
      var tail := Insert(s[1..], x);
      assert Less(s[0], tail[0]) by {
        assert tail[0] in s[1..] || tail[0] == x;
        if tail[0] in s[1..] {
          var j :| 1 <= j < |s| && s[j] == tail[0];
          SortedPairs(s);
        }
      }
      SortedCons(s[0], tail);
      [s[0]] + tail
  }

  /** Sort the names of a key set, as `keys()` followed by `sort()` does. */
  method SortKeys(keys: set<string>) returns (r: seq<string>)
    ensures r == SortedOf(keys)
  {
    r := [];
    var rest := keys;
    while rest != {}
      invariant rest <= keys
      invariant StrictlySorted(r)
      invariant forall k :: k in r <==> k in keys && k !in rest
      decreases rest
    {
      var x :| x in rest;
      r := Insert(r, x);
      rest := rest - {x};
    }
    SortedListingUnique(r, SortedOf(keys), keys);
  }
}
