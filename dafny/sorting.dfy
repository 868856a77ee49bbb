/** The stable sorts of the modelled code (`Array.prototype.sort` with a
    comparator, Rust's `sort_by`) as a stable insertion sort on a sort key.
    A key compares an integer, then a second integer, then a string in code
    point order (Rust's `String` ordering), which covers every comparator the
    code uses. */
module Sorting {

  datatype Key = Key(major: int, minor: int, name: string)

  /** Lexicographic order of strings by code point. */
  predicate StrLe(a: string, b: string) {
    a == [] || (b != [] && (a[0] < b[0] || (a[0] == b[0] && StrLe(a[1..], b[1..]))))
  }

  predicate KeyLe(a: Key, b: Key) {
    a.major < b.major
    || (a.major == b.major && (a.minor < b.minor || (a.minor == b.minor && StrLe(a.name, b.name))))
  }

  lemma {:induction false} StrLeRefl(a: string)
    ensures StrLe(a, a)
  {
    if a != [] { StrLeRefl(a[1..]); }
  }

  lemma {:induction false} StrLeTotal(a: string, b: string)
    ensures StrLe(a, b) || StrLe(b, a)
  {
    if a != [] && b != [] && a[0] == b[0] { StrLeTotal(a[1..], b[1..]); }
  }

  lemma {:induction false} StrLeTrans(a: string, b: string, c: string)
    requires StrLe(a, b) && StrLe(b, c)
    ensures StrLe(a, c)
  {
    if a != [] && b != [] && c != [] && a[0] == b[0] == c[0] {
      StrLeTrans(a[1..], b[1..], c[1..]);
    }
  }

  lemma {:induction false} StrLeAntisym(a: string, b: string)
    requires StrLe(a, b) && StrLe(b, a)
    ensures a == b
  {
    if a != [] && b != [] {
      StrLeAntisym(a[1..], b[1..]);
      assert a == [a[0]] + a[1..] && b == [b[0]] + b[1..];
    }
  }

  lemma KeyLeRefl(a: Key)
    ensures KeyLe(a, a)
  {
    StrLeRefl(a.name);
  }

  lemma KeyLeTotal(a: Key, b: Key)
    ensures KeyLe(a, b) || KeyLe(b, a)
  {
    StrLeTotal(a.name, b.name);
  }

  lemma KeyLeTrans(a: Key, b: Key, c: Key)
    requires KeyLe(a, b) && KeyLe(b, c)
    ensures KeyLe(a, c)
  {
    if a.major == b.major == c.major && a.minor == b.minor == c.minor {
      StrLeTrans(a.name, b.name, c.name);
    }
  }

  /** Keys that compare equal both ways are the same key (so equal-comparing
      elements are exactly the elements with one key). */
  lemma KeyLeAntisym(a: Key, b: Key)
    requires KeyLe(a, b) && KeyLe(b, a)
    ensures a == b
  {
    StrLeAntisym(a.name, b.name);
  }

  ghost predicate Sorted<T>(s: seq<T>, key: T -> Key) {
    forall i, j :: 0 <= i < j < |s| ==> KeyLe(key(s[i]), key(s[j]))
  }

  /** Insert `x` before the first element whose key is not below `x`'s key. */
  function Insert<T>(x: T, s: seq<T>, key: T -> Key): (r: seq<T>)
    ensures multiset(r) == multiset{x} + multiset(s)
  {
    if s == [] then [x]
    else if KeyLe(key(x), key(s[0])) then [x] + s
    else
      var r := [s[0]] + Insert(x, s[1..], key);
      assert s == [s[0]] + s[1..];
      r
  }

  /** Stable sort: each element is inserted ahead of the equal keys that
      follow it in the input. */
  function SortBy<T>(s: seq<T>, key: T -> Key): (r: seq<T>)
    ensures multiset(r) == multiset(s)
  {
    if s == [] then []
    else
      var r := Insert(s[0], SortBy(s[1..], key), key);
      assert s == [s[0]] + s[1..];
      r
  }

  /** The values of `f` on `s` are pairwise different. */
  ghost predicate DistinctBy<T, U>(s: seq<T>, f: T -> U) {
    forall i, j :: 0 <= i < j < |s| ==> f(s[i]) != f(s[j])
  }

  lemma {:induction false} InsertDistinctBy<T, U>(x: T, s: seq<T>, key: T -> Key, f: T -> U)
    requires DistinctBy(s, f) && forall y :: y in s ==> f(y) != f(x)
    ensures DistinctBy(Insert(x, s, key), f)
  {
    if s == [] {
    } else if KeyLe(key(x), key(s[0])) {
      assert Insert(x, s, key) == [x] + s;
    } else {
      var rest := s[1..];
      assert DistinctBy(rest, f) by {
        forall i, j | 0 <= i < j < |rest| ensures f(rest[i]) != f(rest[j]) {
          assert rest[i] == s[i + 1] && rest[j] == s[j + 1];
        }
      }
      assert forall y :: y in rest ==> f(y) != f(x) by {
        forall y | y in rest ensures y in s { }
      }
      InsertDistinctBy(x, rest, key, f);
      var t := Insert(x, rest, key);
      assert forall y :: y in t ==> f(y) != f(s[0]) by {
        forall y | y in t ensures f(y) != f(s[0]) {
          assert y in multiset{x} + multiset(rest);
          if y != x {
            var k :| 0 <= k < |rest| && rest[k] == y;
            assert s[k + 1] == y;
          }
        }
      }
      DistinctByCons(s[0], t, f);
      assert Insert(x, s, key) == [s[0]] + t;
    }
  }

  lemma DistinctByCons<T, U>(x: T, t: seq<T>, f: T -> U)
    requires DistinctBy(t, f) && forall y :: y in t ==> f(y) != f(x)
    ensures DistinctBy([x] + t, f)
  {
    var u := [x] + t;
    forall i, j | 0 <= i < j < |u| ensures f(u[i]) != f(u[j]) {
      assert u[j] == t[j - 1];
      if i > 0 { assert u[i] == t[i - 1]; }
    }
  }

  /** Sorting keeps values of `f` that were pairwise different so: no
      element is duplicated or merged with another. */
  lemma {:induction false} SortByDistinctBy<T, U>(s: seq<T>, key: T -> Key, f: T -> U)
    requires DistinctBy(s, f)
    ensures DistinctBy(SortBy(s, key), f)
  {
    if s != [] {
      assert DistinctBy(s[1..], f) by {
        forall i, j | 0 <= i < j < |s[1..]| ensures f(s[1..][i]) != f(s[1..][j]) {
          assert s[1..][i] == s[i + 1] && s[1..][j] == s[j + 1];
        }
      }
      SortByDistinctBy(s[1..], key, f);
      var t := SortBy(s[1..], key);
      forall y | y in t ensures f(y) != f(s[0]) {
        assert y in multiset(s[1..]);
        var k :| 0 <= k < |s[1..]| && s[1..][k] == y;
        assert s[k + 1] == y;
      }
      InsertDistinctBy(s[0], t, key, f);
    }
  }

  lemma {:induction false} InsertSorted<T>(x: T, s: seq<T>, key: T -> Key)
    requires Sorted(s, key)
    ensures Sorted(Insert(x, s, key), key)
  {
    if s == [] {
    } else if KeyLe(key(x), key(s[0])) {
      var r := [x] + s;
      forall i, j | 0 <= i < j < |r| ensures KeyLe(key(r[i]), key(r[j])) {
        if i == 0 && j > 1 { KeyLeTrans(key(x), key(s[0]), key(s[j - 1])); }
      }
    } else {
      KeyLeTotal(key(x), key(s[0]));
      InsertSorted(x, s[1..], key);
      var t := Insert(x, s[1..], key);
      var r := [s[0]] + t;
      forall j | 0 <= j < |t| ensures KeyLe(key(s[0]), key(t[j])) {
        assert t[j] in multiset(t);
        if t[j] != x {
          assert t[j] in multiset(s[1..]);
          var k :| 0 <= k < |s[1..]| && s[1..][k] == t[j];
          assert s[k + 1] == t[j];
        }
      }
      forall i, j | 0 <= i < j < |r| ensures KeyLe(key(r[i]), key(r[j])) {
        if i == 0 { assert r[j] == t[j - 1]; } else { assert r[i] == t[i - 1] && r[j] == t[j - 1]; }
      }
    }
  }

  /** The result of SortBy is ordered by key. */
  lemma {:induction false} SortBySorted<T>(s: seq<T>, key: T -> Key)
    ensures Sorted(SortBy(s, key), key)
  {
    if s != [] {
      SortBySorted(s[1..], key);
      InsertSorted(s[0], SortBy(s[1..], key), key);
    }
  }

  /** The elements of `s` with key `k`, in order. */
  function WithKey<T>(s: seq<T>, key: T -> Key, k: Key): seq<T> {
    if s == [] then []
    else (if key(s[0]) == k then [s[0]] else []) + WithKey(s[1..], key, k)
  }

  lemma {:induction false} WithKeyAppend<T>(a: seq<T>, b: seq<T>, key: T -> Key, k: Key)
    ensures WithKey(a + b, key, k) == WithKey(a, key, k) + WithKey(b, key, k)
  {
    if a == [] {
      assert a + b == b;
    } else {
      assert (a + b)[1..] == a[1..] + b;
      WithKeyAppend(a[1..], b, key, k);
    }
  }

  lemma {:induction false} InsertWithKey<T>(x: T, s: seq<T>, key: T -> Key, k: Key)
    ensures WithKey(Insert(x, s, key), key, k) == (if key(x) == k then [x] else []) + WithKey(s, key, k)
  {
    if s == [] {
    } else if KeyLe(key(x), key(s[0])) {
      assert ([x] + s)[1..] == s;
    } else {
      KeyLeRefl(key(x));
      assert key(s[0]) != key(x);
      InsertWithKey(x, s[1..], key, k);
      var t := Insert(x, s[1..], key);
      var r := [s[0]] + t;
      assert Insert(x, s, key) == r;
      assert r[1..] == t;
      var sx := if key(x) == k then [x] else [];
      var s0 := if key(s[0]) == k then [s[0]] else [];
      var w := WithKey(s[1..], key, k);
      assert WithKey(r, key, k) == s0 + (sx + w);
      assert WithKey(s, key, k) == s0 + w;
      if key(x) == k {
        assert s0 == [] && s0 + (sx + w) == sx + w && s0 + w == w;
      } else {
        assert sx == [] && sx + w == w && sx + (s0 + w) == s0 + w;
      }
    }
  }

  /** Stability: the elements sharing any one key keep their input order. */
  lemma {:induction false} SortByStable<T>(s: seq<T>, key: T -> Key, k: Key)
    ensures WithKey(SortBy(s, key), key, k) == WithKey(s, key, k)
  {
    if s != [] {
      SortByStable(s[1..], key, k);
      InsertWithKey(s[0], SortBy(s[1..], key), key, k);
    }
  }

  /** `Array.prototype.sort` / `slice::sort_by` with a comparator derived
      from `key`: the elements are inserted one by one, from the last. */
  method Sort<T>(s: seq<T>, key: T -> Key) returns (sorted: seq<T>)
    ensures sorted == SortBy(s, key)
  {
    sorted := [];
    var m := |s|;
    while m > 0
      invariant 0 <= m <= |s|
      invariant sorted == SortBy(s[m..], key)
    {
      m := m - 1;
      assert s[m..][1..] == s[m + 1..];
      sorted := Insert(s[m], sorted, key);
    }
    assert s[0..] == s;
  }
}
