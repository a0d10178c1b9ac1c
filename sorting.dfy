/**
 * Ordering of sort keys as the document store compares them (absent values
 * first, then numbers, then strings by code point, then booleans) and a sort
 * that orders a sequence by a key in either direction. The order of elements
 * with equal keys is whatever the sort produces: callers must not rely on it.
 */
module Sorting {

  datatype Key = Missing | Num(n: int) | Text(s: string) | Flag(b: bool)

  function Rank(k: Key): nat {
    match k
    case Missing => 0
    case Num(_) => 1
    case Text(_) => 2
    case Flag(_) => 3
  }

  /** Lexicographic order on strings by character code. */
  predicate StrLe(a: string, b: string)
    decreases |a|
  {
    a == [] || (b != [] && (a[0] < b[0] || (a[0] == b[0] && StrLe(a[1..], b[1..]))))
  }

  predicate KeyLe(a: Key, b: Key) {
    if Rank(a) != Rank(b) then Rank(a) < Rank(b)
    else match a
      case Missing => true
      case Num(x) => x <= b.n
      case Text(x) => StrLe(x, b.s)
      case Flag(x) => !x || b.b
  }

  lemma {:induction false} StrLeTotal(a: string, b: string)
    ensures StrLe(a, b) || StrLe(b, a)
    decreases |a|
  {
    if a != [] && b != [] && a[0] == b[0] {
      StrLeTotal(a[1..], b[1..]);
    }
  }

  lemma {:induction false} StrLeTransitive(a: string, b: string, c: string)
    requires StrLe(a, b) && StrLe(b, c)
    ensures StrLe(a, c)
    decreases |a|
  {
    if a != [] && b != [] && c != [] && a[0] == b[0] == c[0] {
      StrLeTransitive(a[1..], b[1..], c[1..]);
    }
  }

  /** Any two keys are comparable. */
  lemma KeyLeTotal(a: Key, b: Key)
    ensures KeyLe(a, b) || KeyLe(b, a)
  {
    if a.Text? && b.Text? {
      StrLeTotal(a.s, b.s);
    }
  }

  lemma KeyLeTransitive(a: Key, b: Key, c: Key)
    requires KeyLe(a, b) && KeyLe(b, c)
    ensures KeyLe(a, c)
  {
    if a.Text? && b.Text? && c.Text? {
      StrLeTransitive(a.s, b.s, c.s);
    }
  }

  /** `x` may precede `y` when sorting by `key` in the given direction. */
  predicate InOrder<T>(x: T, y: T, key: T -> Key, ascending: bool) {
    if ascending then KeyLe(key(x), key(y)) else KeyLe(key(y), key(x))
  }

  lemma InOrderTotal<T>(x: T, y: T, key: T -> Key, ascending: bool)
    ensures InOrder(x, y, key, ascending) || InOrder(y, x, key, ascending)
  {
    KeyLeTotal(key(x), key(y));
  }

  lemma InOrderTransitive<T>(x: T, y: T, z: T, key: T -> Key, ascending: bool)
    requires InOrder(x, y, key, ascending) && InOrder(y, z, key, ascending)
    ensures InOrder(x, z, key, ascending)
  {
    if ascending {
      KeyLeTransitive(key(x), key(y), key(z));
    } else {
      KeyLeTransitive(key(z), key(y), key(x));
    }
  }

  predicate Sorted<T>(s: seq<T>, key: T -> Key, ascending: bool) {
    forall i, j :: 0 <= i < j < |s| ==> InOrder(s[i], s[j], key, ascending)
  }

  /** Inserts `x` into a sorted sequence, before the first element it may precede. */
  function Insert<T>(x: T, s: seq<T>, key: T -> Key, ascending: bool): (r: seq<T>)
    requires Sorted(s, key, ascending)
    ensures Sorted(r, key, ascending)
    ensures multiset(r) == multiset(s) + multiset{x}
  {
    if s == [] then
      [x]
    else if InOrder(x, s[0], key, ascending) then
      assert forall j :: 0 < j < |s| ==> InOrder(x, s[j], key, ascending) by {
        forall j | 0 < j < |s| ensures InOrder(x, s[j], key, ascending) {
          InOrderTransitive(x, s[0], s[j], key, ascending);
        }
      }
      [x] + s
    else
      InOrderTotal(x, s[0], key, ascending);
      var rest := Insert(x, s[1..], key, ascending);
      assert s == [s[0]] + s[1..];
      var r := [s[0]] + rest;
      assert forall j :: 0 < j < |r| ==> InOrder(s[0], r[j], key, ascending) by {
        forall j | 0 < j < |r| ensures InOrder(s[0], r[j], key, ascending) {
          assert r[j] in multiset(rest);
          if r[j] != x {
            assert r[j] in multiset(s[1..]);
            var k :| 0 <= k < |s[1..]| && s[1..][k] == r[j];
            assert s[k + 1] == r[j];
          }
        }
      }
      r
  }

  /** The sequence ordered by `key`, ascending or descending; a permutation of the input. */
  function SortByKey<T>(s: seq<T>, key: T -> Key, ascending: bool): (r: seq<T>)
    ensures Sorted(r, key, ascending)
    ensures multiset(r) == multiset(s)
    ensures |r| == |s|
    decreases |s|
  {
    if s == [] then []
    else
      assert s == [s[0]] + s[1..];
      Insert(s[0], SortByKey(s[1..], key, ascending), key, ascending)
  }
}
