/**
 * A document collection as the controllers see it: records keyed by an
 * identifier assigned on insertion, kept in natural (insertion) order.
 * `Entries` is the collection as a query without a sort sees it.
 */
module Tables {
  import opened Wrappers

  type Id = nat

  datatype Record<T> = Record(id: Id, value: T)

  /** Number of elements of `s` that satisfy `p`. */
  function CountWhere<T>(s: seq<T>, p: T -> bool): (n: nat)
    ensures n <= |s|
  {
    if s == [] then 0 else (if p(s[0]) then 1 else 0) + CountWhere(s[1..], p)
  }

  lemma {:induction false} CountWhereSplit<T>(a: seq<T>, b: seq<T>, p: T -> bool)
    ensures CountWhere(a + b, p) == CountWhere(a, p) + CountWhere(b, p)
    decreases |a|
  {
    if a != [] {
      assert (a + b)[0] == a[0] && (a + b)[1..] == a[1..] + b;
      CountWhereSplit(a[1..], b, p);
      assert CountWhere(a + b, p) == (if p(a[0]) then 1 else 0) + CountWhere(a[1..] + b, p);
    } else {
      assert a + b == b;
    }
  }

  /** The elements of `s` that satisfy `p`, in order. */
  function Where<T(==)>(s: seq<T>, p: T -> bool): (r: seq<T>)
    ensures |r| == CountWhere(s, p)
    ensures forall i :: 0 <= i < |r| ==> p(r[i])
    ensures forall i :: 0 <= i < |s| && p(s[i]) ==> s[i] in r
    ensures multiset(r) <= multiset(s)
  {
    if s == [] then []
    else
      assert s == [s[0]] + s[1..];
      (if p(s[0]) then [s[0]] else []) + Where(s[1..], p)
  }

  /** Position of the first element of `s` that satisfies `p`. */
  function FirstIndexWhere<T>(s: seq<T>, p: T -> bool): (r: Option<nat>)
    ensures r.None? <==> forall i :: 0 <= i < |s| ==> !p(s[i])
    ensures r.Some? ==> r.value < |s| && p(s[r.value]) && forall j :: 0 <= j < r.value ==> !p(s[j])
  {
    if s == [] then None
    else if p(s[0]) then Some(0)
    else
      match FirstIndexWhere(s[1..], p)
      case None => None
      case Some(i) =>
        assert forall j :: 0 < j < i + 1 ==> s[j] == s[1..][j - 1];
        Some(i + 1)
  }

  function EntriesOf<T>(order: seq<Id>, rows: map<Id, T>): seq<Record<T>> {
    if order == [] then []
    else (if order[0] in rows then [Record(order[0], rows[order[0]])] else []) + EntriesOf(order[1..], rows)
  }

  lemma {:induction false} EntriesOfIndex<T>(order: seq<Id>, rows: map<Id, T>)
    requires forall id :: id in order ==> id in rows
    ensures |EntriesOf(order, rows)| == |order|
    ensures forall i :: 0 <= i < |order| ==> EntriesOf(order, rows)[i] == Record(order[i], rows[order[i]])
  {
    if order != [] {
      EntriesOfIndex(order[1..], rows);
    }
  }

  /** Drops `id` from an order. */
  function Without(order: seq<Id>, id: Id): (r: seq<Id>)
    ensures forall x :: x in r <==> x in order && x != id
  {
    if order == [] then [] else (if order[0] == id then [] else [order[0]]) + Without(order[1..], id)
  }

  datatype Table<T> = Table(rows: map<Id, T>, order: seq<Id>, nextId: Id) {

    /** Identifiers are unique, the order lists exactly the stored records, and fresh ids are unused. */
    ghost predicate Valid() {
      && (forall i, j :: 0 <= i < j < |order| ==> order[i] != order[j])
      && (forall id :: id in order <==> id in rows)
      && (forall id :: id in rows ==> id < nextId)
    }

    function Entries(): seq<Record<T>> {
      EntriesOf(order, rows)
    }

    function Size(): nat {
      |order|
    }

    function Find(id: Id): (r: Option<T>)
      ensures r.Some? <==> id in rows
      ensures r.Some? ==> r.value == rows[id]
    {
      if id in rows then Some(rows[id]) else None
    }

    /** The first record in natural order whose value satisfies `p` (`findOne`). */
    function FirstWhere(p: T -> bool): Option<Record<T>> {
      var e := Entries();
      match FirstIndexWhere(e, (r: Record<T>) => p(r.value))
      case None => None
      case Some(i) => Some(e[i])
    }

    /** Adds `x` under the next fresh identifier. */
    function Insert(x: T): Table<T> {
      Table(rows[nextId := x], order + [nextId], nextId + 1)
    }

    /** Adds every element of `xs`, in order (`insertMany`). */
    function InsertAll(xs: seq<T>): Table<T>
      decreases |xs|
    {
      if xs == [] then this else Insert(xs[0]).InsertAll(xs[1..])
    }

    /** Replaces the stored record `id`. */
    function Put(id: Id, x: T): Table<T> {
      Table(rows[id := x], order, nextId)
    }

    /** Removes the record `id`. */
    function Delete(id: Id): Table<T> {
      Table(rows - {id}, Without(order, id), nextId)
    }
  }

  function EmptyTable<T>(): (t: Table<T>)
    ensures t.Valid() && t.Entries() == []
  {
    Table(map[], [], 0)
  }

  lemma EntriesIndex<T>(t: Table<T>)
    requires t.Valid()
    ensures |t.Entries()| == |t.order| == |t.rows|
    ensures forall i :: 0 <= i < |t.order| ==> t.Entries()[i] == Record(t.order[i], t.rows[t.order[i]])
  {
    EntriesOfIndex(t.order, t.rows);
    DistinctCard(t.order, t.rows);
  }

  lemma {:induction false} DistinctCard<T>(order: seq<Id>, rows: map<Id, T>)
    requires forall i, j :: 0 <= i < j < |order| ==> order[i] != order[j]
    requires forall id :: id in order <==> id in rows
    ensures |order| == |rows|
    decreases |order|
  {
    if order == [] {
      assert rows.Keys == {};
    } else {
      var rest := rows - {order[0]};
      forall i, j | 0 <= i < j < |order[1..]| ensures order[1..][i] != order[1..][j] {
        assert order[1..][i] == order[i + 1] && order[1..][j] == order[j + 1];
      }
      forall id ensures id in order[1..] <==> id in rest {
        if id in order[1..] {
          var k :| 0 <= k < |order[1..]| && order[1..][k] == id;
          assert order[k + 1] == id;
        }
        if id in rest {
          assert id in order && id != order[0];
          var k :| 0 <= k < |order| && order[k] == id;
          assert k > 0 && order[1..][k - 1] == id;
        }
      }
      DistinctCard(order[1..], rest);
    }
  }

  /** Inserting keeps the table valid and appends exactly one record, under the fresh id. */
  lemma InsertEntries<T>(t: Table<T>, x: T)
    requires t.Valid()
    ensures t.Insert(x).Valid()
    ensures t.Insert(x).Entries() == t.Entries() + [Record(t.nextId, x)]
    ensures t.Insert(x).Size() == t.Size() + 1
  {
    var u := t.Insert(x);
    EntriesIndex(t);
    assert t.nextId !in t.order;
    assert u.Valid();
    EntriesIndex(u);
  }

  /** Inserting many appends one record per element, in order, under consecutive fresh ids. */
  lemma {:induction false} InsertAllEntries<T>(t: Table<T>, xs: seq<T>)
    requires t.Valid()
    ensures t.InsertAll(xs).Valid()
    ensures t.InsertAll(xs).nextId == t.nextId + |xs|
    ensures |t.InsertAll(xs).Entries()| == |t.Entries()| + |xs|
    ensures t.InsertAll(xs).Entries()[..|t.Entries()|] == t.Entries()
    ensures forall i :: 0 <= i < |xs| ==> t.InsertAll(xs).Entries()[|t.Entries()| + i] == Record(t.nextId + i, xs[i])
    decreases |xs|
  {
    if xs != [] {
      var u := t.Insert(xs[0]);
      InsertEntries(t, xs[0]);
      InsertAllEntries(u, xs[1..]);
      assert t.InsertAll(xs) == u.InsertAll(xs[1..]);
      AppendAfterOne(t.Entries(), u.Entries(), t.nextId, xs, t.InsertAll(xs).Entries());
    } else {
      assert t.InsertAll(xs) == t;
    }
  }

  /** Appending `xs[0]` under `id` and then the rest under the following ids appends all of `xs`. */
  lemma AppendAfterOne<T>(a: seq<Record<T>>, b: seq<Record<T>>, id: Id, xs: seq<T>, e: seq<Record<T>>)
    requires xs != []
    requires b == a + [Record(id, xs[0])]
    requires |e| == |b| + |xs[1..]| && e[..|b|] == b
    requires forall i :: 0 <= i < |xs[1..]| ==> e[|b| + i] == Record(id + 1 + i, xs[1..][i])
    ensures e[..|a|] == a
    ensures |e| == |a| + |xs|
    ensures forall i :: 0 <= i < |xs| ==> e[|a| + i] == Record(id + i, xs[i])
  {
    assert e[..|a|] == b[..|a|];
    forall i | 0 <= i < |xs| ensures e[|a| + i] == Record(id + i, xs[i]) {
      if i == 0 {
        assert e[..|b|][|a|] == e[|a|];
      } else {
        assert xs[1..][i - 1] == xs[i];
        assert e[|b| + (i - 1)] == Record(id + 1 + (i - 1), xs[1..][i - 1]);
      }
    }
  }

  /** Replacing a stored record keeps the table valid and changes that record only. */
  lemma PutEntries<T>(t: Table<T>, id: Id, x: T)
    requires t.Valid() && id in t.rows
    ensures t.Put(id, x).Valid()
    ensures |t.Put(id, x).Entries()| == |t.Entries()|
    ensures forall i :: 0 <= i < |t.Entries()| ==>
      t.Put(id, x).Entries()[i] == if t.Entries()[i].id == id then Record(id, x) else t.Entries()[i]
  {
    EntriesIndex(t);
    EntriesIndex(t.Put(id, x));
  }

  /** Deleting a stored record keeps the table valid and removes exactly that record. */
  lemma DeleteEntries<T>(t: Table<T>, id: Id)
    requires t.Valid() && id in t.rows
    ensures t.Delete(id).Valid()
    ensures t.Delete(id).Size() == t.Size() - 1
    ensures id !in t.Delete(id).rows
    ensures forall k :: k != id ==> t.Delete(id).Find(k) == t.Find(k)
  {
    var u := t.Delete(id);
    WithoutDistinct(t.order, id);
    assert u.Valid();
    DistinctCard(t.order, t.rows);
    DistinctCard(u.order, u.rows);
  }

  lemma {:induction false} WithoutDistinct(order: seq<Id>, id: Id)
    requires forall i, j :: 0 <= i < j < |order| ==> order[i] != order[j]
    ensures forall i, j :: 0 <= i < j < |Without(order, id)| ==> Without(order, id)[i] != Without(order, id)[j]
    decreases |order|
  {
    if order != [] {
      forall i, j | 0 <= i < j < |order[1..]| ensures order[1..][i] != order[1..][j] {
        assert order[1..][i] == order[i + 1] && order[1..][j] == order[j + 1];
      }
      WithoutDistinct(order[1..], id);
      forall k | 0 <= k < |order[1..]| ensures order[1..][k] != order[0] {
        assert order[1..][k] == order[k + 1];
      }
      var rest := Without(order[1..], id);
      var w := Without(order, id);
      if order[0] != id {
        assert w == [order[0]] + rest;
        forall i, j | 0 <= i < j < |w| ensures w[i] != w[j] {
          assert w[j] == rest[j - 1];
          if i > 0 {
            assert w[i] == rest[i - 1];
          } else {
            assert rest[j - 1] in rest;
          }
        }
      }
    }
  }

  /**
   * `findOne` finds a record exactly when some stored value satisfies the
   * filter, and then the first such record in natural order.
   */
  lemma FirstWhereFound<T>(t: Table<T>, p: T -> bool)
    requires t.Valid()
    ensures t.FirstWhere(p).Some? <==> exists id :: id in t.rows && p(t.rows[id])
    ensures t.FirstWhere(p).Some? ==> var r := t.FirstWhere(p).value; r.id in t.rows && t.rows[r.id] == r.value && p(r.value)
    ensures t.FirstWhere(p).Some? ==>
      exists k :: 0 <= k < |t.Entries()| && t.Entries()[k] == t.FirstWhere(p).value &&
        forall j :: 0 <= j < k ==> !p(t.Entries()[j].value)
  {
    EntriesIndex(t);
    var e := t.Entries();
    FirstWhereIsFirst(t, p);
    if exists id :: id in t.rows && p(t.rows[id]) {
      var id :| id in t.rows && p(t.rows[id]);
      var k :| 0 <= k < |t.order| && t.order[k] == id;
      assert e[k].value == t.rows[id];
    }
  }

  lemma FirstWhereIsFirst<T>(t: Table<T>, p: T -> bool)
    ensures t.FirstWhere(p).Some? ==>
      exists k :: 0 <= k < |t.Entries()| && t.Entries()[k] == t.FirstWhere(p).value &&
        forall j :: 0 <= j < k ==> !p(t.Entries()[j].value)
  {
    var e := t.Entries();
    var q := (r: Record<T>) => p(r.value);
    var i := FirstIndexWhere(e, q);
    if i.Some? {
      assert forall j :: 0 <= j < i.value ==> !q(e[j]);
      assert e[i.value] == t.FirstWhere(p).value;
    }
  }
}
