/**
 Canonical order: strings by code point, and collections sorted by a string key. Everything the
 artifacts call canonical goes through these two functions, `SortBy` and `Unique`.
 */
module Ordering {
  import opened Basics

  // Lexicographic order by code point, Python's order on str.
  predicate Less(a: string, b: string)
    decreases |a|
  {
    b != [] && (a == [] || a[0] < b[0] || (a[0] == b[0] && Less(a[1..], b[1..])))
  }

  lemma {:induction false} LessIsTotal(a: string, b: string)
    ensures Less(a, b) || a == b || Less(b, a)
    ensures !(Less(a, b) && Less(b, a)) && !(Less(a, b) && a == b)
    decreases |a|
  {
    if a != [] && b != [] && a[0] == b[0] {
      LessIsTotal(a[1..], b[1..]);
      assert a == [a[0]] + a[1..] && b == [b[0]] + b[1..];
    }
  }

  lemma {:induction false} LessIsTransitive(a: string, b: string, c: string)
    requires Less(a, b) && Less(b, c)
    ensures Less(a, c)
    decreases |a|
  {
    if a != [] && a[0] == b[0] == c[0] {
      LessIsTransitive(a[1..], b[1..], c[1..]);
    }
  }

  function Insert<T>(x: T, ys: seq<T>, key: T -> string): (r: seq<T>)
    ensures multiset(r) == multiset{x} + multiset(ys)
    ensures |r| == |ys| + 1
  {
    if ys != [] && Less(key(ys[0]), key(x)) then
      assert ys == [ys[0]] + ys[1..];
      [ys[0]] + Insert(x, ys[1..], key)
    else [x] + ys
  }

  // `sorted(xs, key=key)`: stable.
  function SortBy<T>(xs: seq<T>, key: T -> string): (r: seq<T>)
    ensures multiset(r) == multiset(xs)
    ensures |r| == |xs|
  {
    if xs == [] then [] else
    assert xs == [xs[0]] + xs[1..];
    Insert(xs[0], SortBy(xs[1..], key), key)
  }

  predicate DistinctKeys<T>(xs: seq<T>, key: T -> string) {
    forall i, j :: 0 <= i < j < |xs| ==> key(xs[i]) != key(xs[j])
  }

  ghost predicate Ascending<T>(xs: seq<T>, key: T -> string) {
    forall i, j :: 0 <= i < j < |xs| ==> Less(key(xs[i]), key(xs[j]))
  }

  // `unique`: refuses repeated identities and sorts by identity.
  ghost function Unique<T>(xs: seq<T>, key: T -> string): Option<seq<T>> {
    if DistinctKeys(xs, key) then Some(SortBy(xs, key)) else None
  }

  lemma ConsAscends<T>(x: T, ys: seq<T>, key: T -> string)
    requires Ascending(ys, key) && forall j :: 0 <= j < |ys| ==> Less(key(x), key(ys[j]))
    ensures Ascending([x] + ys, key)
  {
    var r := [x] + ys;
    forall i, j | 0 <= i < j < |r| ensures Less(key(r[i]), key(r[j])) {
      assert r[j] == ys[j - 1];
      if i > 0 { assert r[i] == ys[i - 1]; }
    }
  }

  lemma {:induction false} InsertAscends<T>(x: T, ys: seq<T>, key: T -> string)
    requires Ascending(ys, key) && forall i :: 0 <= i < |ys| ==> key(ys[i]) != key(x)
    ensures Ascending(Insert(x, ys, key), key)
    decreases |ys|
  {
    if ys != [] && Less(key(ys[0]), key(x)) {
      var rest := Insert(x, ys[1..], key);
      InsertAscends(x, ys[1..], key);
      forall j | 0 <= j < |rest| ensures Less(key(ys[0]), key(rest[j])) {
        assert rest[j] in multiset(rest);
        assert rest[j] == x || rest[j] in ys[1..];
      }
      ConsAscends(ys[0], rest, key);
    } else {
      forall j | 0 <= j < |ys| ensures Less(key(x), key(ys[j])) {
        LessIsTotal(key(x), key(ys[0]));
        if j > 0 { LessIsTransitive(key(x), key(ys[0]), key(ys[j])); }
      }
      ConsAscends(x, ys, key);
    }
  }

  lemma {:induction false} SortAscends<T>(xs: seq<T>, key: T -> string)
    requires DistinctKeys(xs, key)
    ensures Ascending(SortBy(xs, key), key)
    decreases |xs|
  {
    if xs != [] {
      var rest := SortBy(xs[1..], key);
      SortAscends(xs[1..], key);
      forall i | 0 <= i < |rest| ensures key(rest[i]) != key(xs[0]) {
        assert rest[i] in multiset(xs[1..]);
        var k :| 0 <= k < |xs[1..]| && xs[1..][k] == rest[i];
        assert xs[k + 1] == rest[i];
      }
      InsertAscends(xs[0], rest, key);
    }
  }

  lemma SameFirst<T>(xs: seq<T>, ys: seq<T>, key: T -> string)
    requires Ascending(xs, key) && Ascending(ys, key) && multiset(xs) == multiset(ys) && xs != [] && ys != []
    ensures xs[0] == ys[0]
  {
    assert xs[0] in multiset(ys) && ys[0] in multiset(xs);
    var i :| 0 <= i < |ys| && ys[i] == xs[0];
    var j :| 0 <= j < |xs| && xs[j] == ys[0];
    LessIsTotal(key(xs[0]), key(ys[0]));
  }

  // An ascending sequence is determined by its elements.
  lemma {:induction false} AscendingIsUnique<T>(xs: seq<T>, ys: seq<T>, key: T -> string)
    requires Ascending(xs, key) && Ascending(ys, key) && multiset(xs) == multiset(ys)
    ensures xs == ys
    decreases |xs|
  {
    assert |xs| == |multiset(xs)| == |ys|;
    if xs != [] {
      SameFirst(xs, ys, key);
      assert multiset(xs[1..]) == multiset(ys[1..]) by {
        assert xs == [xs[0]] + xs[1..] && ys == [ys[0]] + ys[1..];
        assert multiset(xs[1..]) == multiset(xs) - multiset{xs[0]};
        assert multiset(ys[1..]) == multiset(ys) - multiset{ys[0]};
      }
      AscendingIsUnique(xs[1..], ys[1..], key);
      assert xs == [xs[0]] + xs[1..] && ys == [ys[0]] + ys[1..];
    }
  }

  lemma {:induction false} AscendingIsSorted<T>(xs: seq<T>, key: T -> string)
    requires Ascending(xs, key)
    ensures DistinctKeys(xs, key) && SortBy(xs, key) == xs
  {
    forall i, j | 0 <= i < j < |xs| ensures key(xs[i]) != key(xs[j]) {
      LessIsTotal(key(xs[i]), key(xs[j]));
    }
    SortAscends(xs, key);
    AscendingIsUnique(SortBy(xs, key), xs, key);
  }

  lemma {:induction false} PermutationKeepsDistinct<T>(xs: seq<T>, ys: seq<T>, key: T -> string)
    requires DistinctKeys(xs, key) && multiset(xs) == multiset(ys)
    ensures DistinctKeys(ys, key)
  {
    SortAscends(xs, key);
    var s := SortBy(xs, key);
    forall i, j | 0 <= i < j < |ys| ensures key(ys[i]) != key(ys[j]) {
      assert ys[i] in multiset(s) && ys[j] in multiset(s);
      var a :| 0 <= a < |s| && s[a] == ys[i];
      var b :| 0 <= b < |s| && s[b] == ys[j];
      if a == b {
        TwiceInMultiset(ys, i, j);
        OnceWhenAscending(s, a, key);
        assert false;
      }
      LessIsTotal(key(s[a]), key(s[b]));
      if a < b { assert Less(key(s[a]), key(s[b])); } else { assert Less(key(s[b]), key(s[a])); }
    }
  }

  lemma TwiceInMultiset<T>(ys: seq<T>, i: nat, j: nat)
    requires i < j < |ys| && ys[i] == ys[j]
    ensures multiset(ys)[ys[i]] >= 2
  {
    assert ys == ys[..i] + [ys[i]] + ys[i + 1..j] + [ys[j]] + ys[j + 1..];
  }

  lemma OnceWhenAscending<T>(s: seq<T>, a: nat, key: T -> string)
    requires a < |s| && Ascending(s, key)
    ensures multiset(s)[s[a]] == 1
  {
    assert s == s[..a] + [s[a]] + s[a + 1..];
    forall k | 0 <= k < |s| && k != a ensures s[k] != s[a] {
      LessIsTotal(key(s[k]), key(s[a]));
      if k < a { assert Less(key(s[k]), key(s[a])); } else { assert Less(key(s[a]), key(s[k])); }
    }
    assert s[a] !in s[..a] && s[a] !in s[a + 1..];
  }

  /** `unique` is blind to the order of its input. */
  lemma UniqueIsCanonical<T>(xs: seq<T>, ys: seq<T>, key: T -> string)
    requires multiset(xs) == multiset(ys)
    ensures Unique(xs, key) == Unique(ys, key)
  {
    if DistinctKeys(xs, key) {
      PermutationKeepsDistinct(xs, ys, key);
      SortAscends(xs, key);
      SortAscends(ys, key);
      AscendingIsUnique(SortBy(xs, key), SortBy(ys, key), key);
    } else if DistinctKeys(ys, key) {
      PermutationKeepsDistinct(ys, xs, key);
    }
  }

  /** What `unique` returns is accepted unchanged a second time. */
  lemma UniqueIsIdempotent<T>(xs: seq<T>, key: T -> string)
    requires Unique(xs, key).Some?
    ensures Unique(Unique(xs, key).value, key) == Unique(xs, key)
    ensures Ascending(Unique(xs, key).value, key)
  {
    SortAscends(xs, key);
    AscendingIsSorted(SortBy(xs, key), key);
  }

  // -- Sorting where keys may repeat ------------------------------------------------------------

  ghost predicate Sorted<T>(xs: seq<T>, key: T -> string) {
    forall i, j :: 0 <= i < j < |xs| ==> !Less(key(xs[j]), key(xs[i]))
  }

  // Elements with one key are one element.
  ghost predicate KeyTells<T>(xs: seq<T>, key: T -> string) {
    forall i, j :: 0 <= i < |xs| && 0 <= j < |xs| && key(xs[i]) == key(xs[j]) ==> xs[i] == xs[j]
  }

  lemma NotLessIsTransitive(a: string, b: string, c: string)
    requires !Less(b, a) && !Less(c, b)
    ensures !Less(c, a)
  {
    LessIsTotal(a, b);
    LessIsTotal(b, c);
    LessIsTotal(a, c);
    if Less(a, b) && Less(b, c) { LessIsTransitive(a, b, c); }
  }

  lemma ConsSorts<T>(x: T, ys: seq<T>, key: T -> string)
    requires Sorted(ys, key) && forall j :: 0 <= j < |ys| ==> !Less(key(ys[j]), key(x))
    ensures Sorted([x] + ys, key)
  {
    var r := [x] + ys;
    forall i, j | 0 <= i < j < |r| ensures !Less(key(r[j]), key(r[i])) {
      assert r[j] == ys[j - 1];
      if i > 0 { assert r[i] == ys[i - 1]; }
    }
  }

  lemma {:induction false} InsertSorts<T>(x: T, ys: seq<T>, key: T -> string)
    requires Sorted(ys, key)
    ensures Sorted(Insert(x, ys, key), key)
    decreases |ys|
  {
    if ys != [] && Less(key(ys[0]), key(x)) {
      var rest := Insert(x, ys[1..], key);
      InsertSorts(x, ys[1..], key);
      LessIsTotal(key(ys[0]), key(x));
      forall j | 0 <= j < |rest| ensures !Less(key(rest[j]), key(ys[0])) {
        assert rest[j] in multiset(rest);
        assert rest[j] == x || rest[j] in ys[1..];
      }
      ConsSorts(ys[0], rest, key);
    } else {
      forall j | 0 <= j < |ys| ensures !Less(key(ys[j]), key(x)) {
        if j > 0 { NotLessIsTransitive(key(x), key(ys[0]), key(ys[j])); }
      }
      ConsSorts(x, ys, key);
    }
  }

  lemma {:induction false} SortSorts<T>(xs: seq<T>, key: T -> string)
    ensures Sorted(SortBy(xs, key), key)
    decreases |xs|
  {
    if xs != [] {
      SortSorts(xs[1..], key);
      InsertSorts(xs[0], SortBy(xs[1..], key), key);
    }
  }

  lemma SameLeast<T>(xs: seq<T>, ys: seq<T>, key: T -> string)
    requires Sorted(xs, key) && Sorted(ys, key) && KeyTells(xs, key)
    requires multiset(xs) == multiset(ys) && xs != [] && ys != []
    ensures xs[0] == ys[0]
  {
    assert xs[0] in multiset(ys) && ys[0] in multiset(xs);
    var i :| 0 <= i < |ys| && ys[i] == xs[0];
    var j :| 0 <= j < |xs| && xs[j] == ys[0];
    LessIsTotal(key(xs[0]), key(xs[j]));
  }

  lemma {:induction false} SortedIsUnique<T>(xs: seq<T>, ys: seq<T>, key: T -> string)
    requires Sorted(xs, key) && Sorted(ys, key) && KeyTells(xs, key) && multiset(xs) == multiset(ys)
    ensures xs == ys
    decreases |xs|
  {
    assert |xs| == |multiset(xs)| == |ys|;
    if xs != [] {
      SameLeast(xs, ys, key);
      assert multiset(xs[1..]) == multiset(ys[1..]) by {
        assert xs == [xs[0]] + xs[1..] && ys == [ys[0]] + ys[1..];
        assert multiset(xs[1..]) == multiset(xs) - multiset{xs[0]};
        assert multiset(ys[1..]) == multiset(ys) - multiset{ys[0]};
      }
      SortedIsUnique(xs[1..], ys[1..], key);
      assert xs == [xs[0]] + xs[1..] && ys == [ys[0]] + ys[1..];
    }
  }

  /** Sorting by a key that tells elements apart is blind to the order of the input, and sorting
      twice is sorting once. */
  lemma SortIsCanonical<T>(xs: seq<T>, ys: seq<T>, key: T -> string)
    requires KeyTells(xs, key) && multiset(xs) == multiset(ys)
    ensures SortBy(xs, key) == SortBy(ys, key)
    ensures SortBy(SortBy(xs, key), key) == SortBy(xs, key)
  {
    var s := SortBy(xs, key);
    SortSorts(xs, key);
    SortSorts(ys, key);
    SortSorts(s, key);
    forall i, j | 0 <= i < |s| && 0 <= j < |s| && key(s[i]) == key(s[j]) ensures s[i] == s[j] {
      assert s[i] in multiset(xs) && s[j] in multiset(xs);
    }
    SortedIsUnique(s, SortBy(ys, key), key);
    SortedIsUnique(s, SortBy(s, key), key);
  }

  // A pair of keys as one key. NUL is below every character of an identifier, so joining the parts
  // with it orders pairs as Python orders tuples.
  function Joined(a: string, b: string): string { a + "\0" + b }

  predicate NoNul(s: string) { forall i :: 0 <= i < |s| ==> s[i] > '\0' }

  lemma {:induction false} JoinedOrder(a: string, b: string, c: string, d: string)
    requires NoNul(a) && NoNul(c)
    ensures Less(Joined(a, b), Joined(c, d)) <==> Less(a, c) || (a == c && Less(b, d))
    ensures Joined(a, b) == Joined(c, d) <==> a == c && b == d
    decreases |a|
  {
    var p, q := Joined(a, b), Joined(c, d);
    if a != [] && c != [] {
      assert p[1..] == Joined(a[1..], b) && q[1..] == Joined(c[1..], d);
      JoinedOrder(a[1..], b, c[1..], d);
      assert a == [a[0]] + a[1..] && c == [c[0]] + c[1..];
      assert p == [p[0]] + p[1..] && q == [q[0]] + q[1..];
    } else if a == [] && c == [] {
      assert p[1..] == b && q[1..] == d;
    } else if a == [] {
      assert p[0] == '\0' && q[0] == c[0];
    } else {
      assert q[0] == '\0' && p[0] == a[0];
    }
  }

  function Itself(s: string): string { s }

  function Elements(xs: seq<string>): set<string> { set x | x in xs }
}
