/** TreeMultimap: a map from each key to the set of its values, both kept
    in comparator order. It is seen as its asMap() rows: one row per key,
    in key order, each holding the key's values in value order. */
module Multimaps {
  import opened IoTypes
  import opened Comparators

  /** The comparator pair a TreeMultimap is created with. */
  datatype Orders = Orders(keys: KeyOrder, values: ValueOrder)

  /** One entry of asMap(): a key and its values. */
  datatype Row = Row(key: Key, vals: seq<Value>)

  /** What put and putAll answer: whether the multimap changed, or the
      NullPointerException a natural ordering throws on a null. */
  datatype PutResult = Changed(changed: bool) | NullPointerException

  predicate Admitted(o: Orders, k: Key, v: Value)
  {
    KeyAdmitted(o.keys, k) && ValueAdmitted(o.values, v)
  }

  /** a comes strictly before b in the key order. */
  predicate KeyLess(o: KeyOrder, a: Key, b: Key)
  {
    KeyAdmitted(o, a) && KeyAdmitted(o, b) && CompareKeys(o, a, b) < 0
  }

  predicate ValueLess(o: ValueOrder, a: Value, b: Value)
  {
    ValueAdmitted(o, a) && ValueAdmitted(o, b) && CompareValues(o, a, b) < 0
  }

  /** The values of one key as its TreeSet holds them: admitted by the
      comparator, strictly increasing, hence without duplicates. */
  predicate SortedValues(o: ValueOrder, vs: seq<Value>)
  {
    && (forall i :: 0 <= i < |vs| ==> ValueAdmitted(o, vs[i]))
    && (forall i, j :: 0 <= i < j < |vs| ==> ValueLess(o, vs[i], vs[j]))
  }

  /** The shape of a TreeMultimap: keys admitted and strictly increasing,
      each with a non-empty set of sorted values. */
  predicate WellOrdered(o: Orders, rows: seq<Row>)
  {
    && (forall i :: 0 <= i < |rows| ==> KeyAdmitted(o.keys, rows[i].key))
    && (forall i, j :: 0 <= i < j < |rows| ==> KeyLess(o.keys, rows[i].key, rows[j].key))
    && (forall i :: 0 <= i < |rows| ==> rows[i].vals != [] && SortedValues(o.values, rows[i].vals))
  }

  /** keySet(), in key order. */
  function KeySet(rows: seq<Row>): seq<Key>
  {
    seq(|rows|, i requires 0 <= i < |rows| => rows[i].key)
  }

  /** get(k): the values of k in value order, empty for an absent key. */
  function Get(o: Orders, rows: seq<Row>, k: Key): (vs: seq<Value>)
    requires WellOrdered(o, rows)
    ensures SortedValues(o.values, vs)
    ensures vs != [] <==> k in KeySet(rows)
    decreases |rows|
  {
    if rows == [] then []
    else
      assert KeySet(rows) == [rows[0].key] + KeySet(rows[1..]);
      if rows[0].key == k then rows[0].vals
      else Get(o, rows[1..], k)
  }

  /** The entries of one asMap() row. */
  function RowEntries(row: Row): seq<(Key, Value)>
  {
    seq(|row.vals|, i requires 0 <= i < |row.vals| => (row.key, row.vals[i]))
  }

  /** entries(): the keys in key order, each key's values in value order. */
  function Entries(rows: seq<Row>): seq<(Key, Value)>
  {
    if rows == [] then [] else RowEntries(rows[0]) + Entries(rows[1..])
  }

  /** values(): the values of entries(), in the same order. */
  function Values(rows: seq<Row>): seq<Value>
  {
    var es := Entries(rows);
    seq(|es|, i requires 0 <= i < |es| => es[i].1)
  }

  // ---------------------------------------------------- ordering facts

  lemma KeyLessTransitive(o: KeyOrder, a: Key, b: Key, c: Key)
    requires KeyLess(o, a, b) && KeyLess(o, b, c)
    ensures KeyLess(o, a, c) && a != c
  {
    KeyOrderLaws(o, a, b, c);
    KeyOrderLaws(o, a, c, a);
  }

  lemma ValueLessTransitive(o: ValueOrder, a: Value, b: Value, c: Value)
    requires ValueLess(o, a, b) && ValueLess(o, b, c)
    ensures ValueLess(o, a, c)
  {
    ValueOrderLaws(o, a, b, c);
  }

  /** The rest of a well-ordered multimap is well ordered, and its first key
      comes before every other key. */
  lemma {:induction false} WellOrderedTail(o: Orders, rows: seq<Row>)
    requires WellOrdered(o, rows) && rows != []
    ensures WellOrdered(o, rows[1..])
    ensures KeySet(rows) == [rows[0].key] + KeySet(rows[1..])
    ensures forall x :: x in KeySet(rows[1..]) ==> KeyLess(o.keys, rows[0].key, x) && x != rows[0].key
  {
    forall x | x in KeySet(rows[1..])
      ensures KeyLess(o.keys, rows[0].key, x) && x != rows[0].key
    {
      var j :| 0 <= j < |rows| - 1 && KeySet(rows[1..])[j] == x;
      assert KeyLess(o.keys, rows[0].key, rows[j + 1].key);
      KeyOrderLaws(o.keys, rows[0].key, x, x);
    }
  }

  /** Putting a row in front of a well-ordered multimap whose keys all come
      after the row's key. */
  lemma {:induction false} WellOrderedCons(o: Orders, row: Row, rows: seq<Row>)
    requires WellOrdered(o, rows) && KeyAdmitted(o.keys, row.key)
    requires row.vals != [] && SortedValues(o.values, row.vals)
    requires forall x :: x in KeySet(rows) ==> KeyLess(o.keys, row.key, x)
    ensures WellOrdered(o, [row] + rows)
  {
    var r := [row] + rows;
    forall i, j | 0 <= i < j < |r|
      ensures KeyLess(o.keys, r[i].key, r[j].key)
    {
      if i == 0 {
        assert r[j].key == KeySet(rows)[j - 1];
      }
    }
  }

  // ----------------------------------------------------------- put

  /** TreeSet.add: v inserted at its place in the value order, unless
      already there. */
  function InsertValue(o: ValueOrder, vs: seq<Value>, v: Value): (r: seq<Value>)
    requires SortedValues(o, vs) && ValueAdmitted(o, v)
    ensures SortedValues(o, r)
    ensures forall x :: x in r <==> x in vs || x == v
    ensures |r| == if v in vs then |vs| else |vs| + 1
    decreases |vs|
  {
    if vs == [] then [v]
    else
      ValueOrderLaws(o, v, vs[0], v);
      var c := CompareValues(o, v, vs[0]);
      if c < 0 then
        InsertBelow(o, vs, v);
        [v] + vs
      else if c == 0 then vs
      else
        var rest := InsertValue(o, vs[1..], v);
        assert forall x :: x in rest ==> ValueLess(o, vs[0], x) by {
          forall x | x in rest
            ensures ValueLess(o, vs[0], x)
          {
            if x != v {
              var j :| 0 <= j < |vs| - 1 && vs[1..][j] == x;
              assert ValueLess(o, vs[0], vs[j + 1]);
            }
          }
        }
        [vs[0]] + rest
  }

  /** A value before the first of a sorted sequence comes before all of it. */
  lemma InsertBelow(o: ValueOrder, vs: seq<Value>, v: Value)
    requires SortedValues(o, vs) && vs != [] && ValueLess(o, v, vs[0])
    ensures SortedValues(o, [v] + vs)
    ensures v !in vs
  {
    forall j | 0 < j < |vs|
      ensures ValueLess(o, v, vs[j])
    {
      ValueLessTransitive(o, v, vs[0], vs[j]);
    }
    forall j | 0 <= j < |vs|
      ensures vs[j] != v
    {
      ValueOrderLaws(o, v, vs[j], v);
    }
  }

  /** put(k, v) on the rows: v joins the values of k, a new row is made at
      its place in the key order if k was absent, and nothing else changes. */
  function PutRows(o: Orders, rows: seq<Row>, k: Key, v: Value): (r: seq<Row>)
    requires WellOrdered(o, rows) && Admitted(o, k, v)
    ensures WellOrdered(o, r)
    ensures forall x :: x in KeySet(r) <==> x in KeySet(rows) || x == k
    decreases |rows|
  {
    if rows == [] then
      assert KeySet([Row(k, [v])]) == [k];
      [Row(k, [v])]
    else
      WellOrderedTail(o, rows);
      KeyOrderLaws(o.keys, k, rows[0].key, k);
      var c := CompareKeys(o.keys, k, rows[0].key);
      if c < 0 then
        forall x | x in KeySet(rows)
          ensures KeyLess(o.keys, k, x)
        {
          if x != rows[0].key {
            KeyLessTransitive(o.keys, k, rows[0].key, x);
          }
        }
        WellOrderedCons(o, Row(k, [v]), rows);
        assert KeySet([Row(k, [v])] + rows) == [k] + KeySet(rows);
        [Row(k, [v])] + rows
      else if c == 0 then
        var row := Row(k, InsertValue(o.values, rows[0].vals, v));
        WellOrderedCons(o, row, rows[1..]);
        assert KeySet([row] + rows[1..]) == [k] + KeySet(rows[1..]);
        [row] + rows[1..]
      else
        var rest := PutRows(o, rows[1..], k, v);
        KeyOrderLaws(o.keys, rows[0].key, k, k);
        WellOrderedCons(o, rows[0], rest);
        assert KeySet([rows[0]] + rest) == [rows[0].key] + KeySet(rest);
        [rows[0]] + rest
  }

  // ------------------------------------------------------- entries

  /** An entry is listed exactly when its value is among its key's values. */
  lemma {:induction false} EntriesMembership(o: Orders, rows: seq<Row>)
    requires WellOrdered(o, rows)
    ensures forall k, v :: (k, v) in Entries(rows) <==> v in Get(o, rows, k)
    decreases |rows|
  {
    if rows != [] {
      WellOrderedTail(o, rows);
      EntriesMembership(o, rows[1..]);
      var row := rows[0];
      forall k, v
        ensures (k, v) in Entries(rows) <==> v in Get(o, rows, k)
      {
        if k == row.key && v in row.vals {
          var i :| 0 <= i < |row.vals| && row.vals[i] == v;
          assert RowEntries(row)[i] == (k, v);
        }
        if k == row.key {
          assert Get(o, rows[1..], k) == [];
        }
      }
    }
  }

  /** The order of entries(): by key, and by value within a key. */
  predicate EntryLess(o: Orders, a: (Key, Value), b: (Key, Value))
  {
    KeyLess(o.keys, a.0, b.0) || (a.0 == b.0 && ValueLess(o.values, a.1, b.1))
  }

  /** entries() lists the keys in key order and, within a key, its values
      in value order. */
  lemma {:induction false} EntriesOrdered(o: Orders, rows: seq<Row>)
    requires WellOrdered(o, rows)
    ensures forall i, j :: 0 <= i < j < |Entries(rows)| ==> EntryLess(o, Entries(rows)[i], Entries(rows)[j])
    decreases |rows|
  {
    if rows != [] {
      WellOrderedTail(o, rows);
      EntriesOrdered(o, rows[1..]);
      EntriesMembership(o, rows[1..]);
      var head, rest := RowEntries(rows[0]), Entries(rows[1..]);
      forall i, j | 0 <= i < j < |head + rest|
        ensures EntryLess(o, (head + rest)[i], (head + rest)[j])
      {
        if j < |head| {
          assert ValueLess(o.values, rows[0].vals[i], rows[0].vals[j]);
        } else if i < |head| {
          var e := rest[j - |head|];
          assert e.1 in Get(o, rows[1..], e.0);
        } else {
          assert (head + rest)[j] == rest[j - |head|];
        }
      }
    }
  }

  // ---------------------------------------------------- range views

  /** The keys strictly before `to`: a prefix of keySet(). */
  function KeysBelow(o: Orders, rows: seq<Row>, to: Key): (r: seq<Key>)
    requires WellOrdered(o, rows) && KeyAdmitted(o.keys, to)
    ensures |r| <= |rows| && r == KeySet(rows)[..|r|]
    ensures forall x :: x in r <==> x in KeySet(rows) && KeyLess(o.keys, x, to)
    decreases |rows|
  {
    if rows == [] then []
    else
      WellOrderedTail(o, rows);
      if CompareKeys(o.keys, rows[0].key, to) < 0 then
        var rest := KeysBelow(o, rows[1..], to);
        assert [rows[0].key] + rest == KeySet(rows)[..|rest| + 1];
        [rows[0].key] + rest
      else
        forall x | x in KeySet(rows[1..])
          ensures !KeyLess(o.keys, x, to)
        {
          if KeyLess(o.keys, x, to) {
            KeyLessTransitive(o.keys, rows[0].key, x, to);
          }
        }
        []
  }

  /** The rows from `from` on: a suffix of the rows. */
  function RowsFrom(o: Orders, rows: seq<Row>, from: Key): (r: seq<Row>)
    requires WellOrdered(o, rows) && KeyAdmitted(o.keys, from)
    ensures WellOrdered(o, r)
    ensures KeysBelow(o, rows, from) + KeySet(r) == KeySet(rows)
    ensures forall x :: x in KeySet(r) <==> x in KeySet(rows) && !KeyLess(o.keys, x, from)
    decreases |rows|
  {
    if rows == [] then []
    else
      WellOrderedTail(o, rows);
      if CompareKeys(o.keys, rows[0].key, from) < 0 then RowsFrom(o, rows[1..], from)
      else rows
  }

  /** keySet().headSet(to); None is the NullPointerException of a natural
      ordering given a null bound. */
  function HeadSet(o: Orders, rows: seq<Row>, to: Key): (r: Option<seq<Key>>)
    requires WellOrdered(o, rows)
    ensures r.Some? <==> KeyAdmitted(o.keys, to)
    ensures r.Some? ==> forall x :: x in r.value <==> x in KeySet(rows) && KeyLess(o.keys, x, to)
  {
    if KeyAdmitted(o.keys, to) then Some(KeysBelow(o, rows, to)) else None
  }

  /** keySet().tailSet(from). */
  function TailSet(o: Orders, rows: seq<Row>, from: Key): (r: Option<seq<Key>>)
    requires WellOrdered(o, rows)
    ensures r.Some? <==> KeyAdmitted(o.keys, from)
    ensures r.Some? ==> forall x :: x in r.value <==> x in KeySet(rows) && !KeyLess(o.keys, x, from)
  {
    if KeyAdmitted(o.keys, from) then Some(KeySet(RowsFrom(o, rows, from))) else None
  }

  /** keySet().subSet(from, to); None is the exception thrown for a
      rejected null bound or for from after to (IllegalArgumentException). */
  function SubSet(o: Orders, rows: seq<Row>, from: Key, to: Key): (r: Option<seq<Key>>)
    requires WellOrdered(o, rows)
    ensures r.Some? <==> KeyAdmitted(o.keys, from) && KeyAdmitted(o.keys, to) && !KeyLess(o.keys, to, from)
    ensures r.Some? ==>
              forall x :: x in r.value <==> x in KeySet(rows) && !KeyLess(o.keys, x, from) && KeyLess(o.keys, x, to)
  {
    if !KeyAdmitted(o.keys, from) || !KeyAdmitted(o.keys, to) then None
    else
      KeyOrderLaws(o.keys, to, from, from);
      if CompareKeys(o.keys, from, to) > 0 then None
      else Some(KeysBelow(o, RowsFrom(o, rows, from), to))
  }

  /** headSet(t) and tailSet(t) split keySet() at t, in order. */
  lemma HeadTailSplit(o: Orders, rows: seq<Row>, t: Key)
    requires WellOrdered(o, rows) && KeyAdmitted(o.keys, t)
    ensures HeadSet(o, rows, t).value + TailSet(o, rows, t).value == KeySet(rows)
  {
  }

  /** keySet().first(); None is the NoSuchElementException of an empty multimap. */
  function First(o: Orders, rows: seq<Row>): (r: Option<Key>)
    requires WellOrdered(o, rows)
    ensures r.Some? <==> rows != []
    ensures r.Some? ==> r.value in KeySet(rows)
    ensures r.Some? ==> forall x :: x in KeySet(rows) && x != r.value ==> KeyLess(o.keys, r.value, x)
  {
    if rows == [] then None
    else
      WellOrderedTail(o, rows);
      Some(rows[0].key)
  }

  /** keySet().last(). */
  function Last(o: Orders, rows: seq<Row>): (r: Option<Key>)
    requires WellOrdered(o, rows)
    ensures r.Some? <==> rows != []
    ensures r.Some? ==> r.value in KeySet(rows)
    ensures r.Some? ==> forall x :: x in KeySet(rows) && x != r.value ==> KeyLess(o.keys, x, r.value)
  {
    if rows == [] then None
    else
      var n := |rows| - 1;
      assert KeySet(rows)[n] == rows[n].key;
      Some(rows[n].key)
  }

  // -------------------------------------------------------- putAll

  /** The number of entries putAll gets through before the first one the
      comparators reject. */
  function AdmittedPrefix(o: Orders, es: seq<(Key, Value)>): (n: nat)
    ensures n <= |es|
    ensures forall i :: 0 <= i < n ==> Admitted(o, es[i].0, es[i].1)
    ensures n < |es| ==> !Admitted(o, es[n].0, es[n].1)
    decreases |es|
  {
    if es == [] || !Admitted(o, es[0].0, es[0].1) then 0 else 1 + AdmittedPrefix(o, es[1..])
  }

  lemma PrefixEndsAt(o: Orders, es: seq<(Key, Value)>, i: nat)
    requires i <= |es| && forall j :: 0 <= j < i ==> Admitted(o, es[j].0, es[j].1)
    requires i < |es| ==> !Admitted(o, es[i].0, es[i].1)
    ensures AdmittedPrefix(o, es) == i
  {
  }

  /** put of each entry, in turn. */
  function PutEach(o: Orders, rows: seq<Row>, es: seq<(Key, Value)>): (r: seq<Row>)
    requires WellOrdered(o, rows)
    requires forall i :: 0 <= i < |es| ==> Admitted(o, es[i].0, es[i].1)
    ensures WellOrdered(o, r)
    decreases |es|
  {
    if es == [] then rows
    else
      var last := es[|es| - 1];
      PutRows(o, PutEach(o, rows, es[..|es| - 1]), last.0, last.1)
  }

  /** put(k, v) inserts v among the values of k, in value order, and
      leaves every other key's values alone. */
  lemma {:induction false} PutRowsGet(o: Orders, rows: seq<Row>, k: Key, v: Value)
    requires WellOrdered(o, rows) && Admitted(o, k, v)
    ensures Get(o, PutRows(o, rows, k, v), k) == InsertValue(o.values, Get(o, rows, k), v)
    ensures forall x :: x != k ==> Get(o, PutRows(o, rows, k, v), x) == Get(o, rows, x)
    decreases |rows|
  {
    if rows != [] {
      WellOrderedTail(o, rows);
      KeyOrderLaws(o.keys, k, rows[0].key, k);
      var r := PutRows(o, rows, k, v);
      var c := CompareKeys(o.keys, k, rows[0].key);
      if c < 0 {
        assert r[1..] == rows;
        assert Get(o, rows, k) == [] by {
          assert k !in KeySet(rows);
        }
      } else if c == 0 {
        assert r[1..] == rows[1..];
      } else {
        PutRowsGet(o, rows[1..], k, v);
        assert r[1..] == PutRows(o, rows[1..], k, v);
      }
    }
  }

  /** put(k, v) adds the entry (k, v) and no other. */
  lemma PutRowsEntries(o: Orders, rows: seq<Row>, k: Key, v: Value)
    requires WellOrdered(o, rows) && Admitted(o, k, v)
    ensures forall e :: e in Entries(PutRows(o, rows, k, v)) <==> e in Entries(rows) || e == (k, v)
  {
    var r := PutRows(o, rows, k, v);
    PutRowsGet(o, rows, k, v);
    EntriesMembership(o, rows);
    EntriesMembership(o, r);
    forall e
      ensures e in Entries(r) <==> e in Entries(rows) || e == (k, v)
    {
      assert e in Entries(r) <==> e.1 in Get(o, r, e.0);
      assert e in Entries(rows) <==> e.1 in Get(o, rows, e.0);
    }
  }

  /** After putting each entry, the multimap holds its old entries and the
      entries put, and nothing else. */
  lemma {:induction false} PutEachEntries(o: Orders, rows: seq<Row>, es: seq<(Key, Value)>)
    requires WellOrdered(o, rows)
    requires forall i :: 0 <= i < |es| ==> Admitted(o, es[i].0, es[i].1)
    ensures forall e :: e in Entries(PutEach(o, rows, es)) <==> e in Entries(rows) || e in es
    decreases |es|
  {
    if es != [] {
      var init, last := es[..|es| - 1], es[|es| - 1];
      PutEachEntries(o, rows, init);
      PutRowsEntries(o, PutEach(o, rows, init), last.0, last.1);
      assert es == init + [last];
    }
  }

  /** The two multimaps hold the same entries: Multimap.equals. */
  ghost predicate SameEntries(a: seq<Row>, b: seq<Row>)
  {
    forall e :: e in Entries(a) <==> e in Entries(b)
  }

  /** Putting each entry of a multimap into an empty one gives an equal
      multimap, whatever comparators either one has. */
  lemma CopyIsEqual(o: Orders, rows: seq<Row>)
    requires forall i :: 0 <= i < |Entries(rows)| ==> Admitted(o, Entries(rows)[i].0, Entries(rows)[i].1)
    ensures SameEntries(PutEach(o, [], Entries(rows)), rows)
  {
    PutEachEntries(o, [], Entries(rows));
  }

  class TreeMultimap {
    const orders: Orders
    var rows: seq<Row>

    ghost predicate Valid()
      reads this
    {
      WellOrdered(orders, rows)
    }

    /** TreeMultimap.create(keyComparator, valueComparator): empty. */
    constructor (orders: Orders)
      ensures this.orders == orders && rows == [] && Valid()
    {
      this.orders := orders;
      rows := [];
    }

    /** put(k, v): true when the pair was not there before; the rejection
        of a null by a natural ordering leaves the multimap unchanged. */
    method Put(k: Key, v: Value) returns (r: PutResult)
      requires Valid()
      modifies this`rows
      ensures Valid()
      ensures Admitted(orders, k, v) ==>
                rows == PutRows(orders, old(rows), k, v) && r == Changed((k, v) !in Entries(old(rows)))
      ensures !Admitted(orders, k, v) ==> rows == old(rows) && r == NullPointerException
    {
      if !Admitted(orders, k, v) {
        return NullPointerException;
      }
      EntriesMembership(orders, rows);
      r := Changed(v !in Get(orders, rows, k));
      rows := PutRows(orders, rows, k, v);
    }

    /** putAll(entries): put of each entry in order, stopping at the first
        one rejected; true when some entry was not there before. */
    method PutAll(es: seq<(Key, Value)>) returns (r: PutResult)
      requires Valid()
      modifies this`rows
      ensures Valid()
      ensures var n := AdmittedPrefix(orders, es);
              && rows == PutEach(orders, old(rows), es[..n])
              && r == if n < |es| then NullPointerException
                      else Changed(exists i :: 0 <= i < |es| && es[i] !in Entries(old(rows)))
    {
      ghost var start := rows;
      var i := 0;
      var changed, rejected := false, false;
      while i < |es| && !rejected
        invariant i <= |es|
        invariant forall j :: 0 <= j < i ==> Admitted(orders, es[j].0, es[j].1)
        invariant rejected ==> i < |es| && !Admitted(orders, es[i].0, es[i].1)
        invariant rows == PutEach(orders, start, es[..i])
        invariant changed <==> exists j :: 0 <= j < i && es[j] !in Entries(start)
        decreases |es| - i, !rejected
      {
        var p;
        p, changed := PutNext(es, i, start, changed);
        if p.NullPointerException? {
          rejected := true;
        } else {
          i := i + 1;
        }
      }
      PrefixEndsAt(orders, es, i);
      r := if rejected then NullPointerException else Changed(changed);
    }

    /** One round of putAll's loop: put of the entry es[i], after the
        entries before it went in; `changed` tells whether any of them was
        not in `start`, the multimap before the loop. */
    method PutNext(es: seq<(Key, Value)>, i: nat, ghost start: seq<Row>, changed: bool)
      returns (p: PutResult, changed': bool)
      requires WellOrdered(orders, start) && i < |es|
      requires forall j :: 0 <= j < i ==> Admitted(orders, es[j].0, es[j].1)
      requires rows == PutEach(orders, start, es[..i])
      requires changed <==> exists j :: 0 <= j < i && es[j] !in Entries(start)
      modifies this`rows
      ensures Valid()
      ensures p.NullPointerException? ==> rows == old(rows) && changed' == changed && !Admitted(orders, es[i].0, es[i].1)
      ensures p.Changed? ==>
                && Admitted(orders, es[i].0, es[i].1)
                && rows == PutEach(orders, start, es[..i + 1])
                && (changed' <==> exists j :: 0 <= j < i + 1 && es[j] !in Entries(start))
    {
      p := Put(es[i].0, es[i].1);
      changed' := changed;
      if p.Changed? {
        PutAllStep(orders, start, es, i, changed);
        changed' := changed || p.changed;
      }
    }
  }

  /** One more entry put: the loop flag of putAll keeps meaning "some
      entry so far was not there before". */
  lemma PutAllStep(o: Orders, start: seq<Row>, es: seq<(Key, Value)>, i: nat, changed: bool)
    requires WellOrdered(o, start) && i < |es|
    requires forall j :: 0 <= j <= i ==> Admitted(o, es[j].0, es[j].1)
    requires changed <==> exists j :: 0 <= j < i && es[j] !in Entries(start)
    ensures var before := PutEach(o, start, es[..i]);
            && PutEach(o, start, es[..i + 1]) == PutRows(o, before, es[i].0, es[i].1)
            && ((changed || es[i] !in Entries(before)) <==>
                exists j :: 0 <= j < i + 1 && es[j] !in Entries(start))
  {
    var before := PutEach(o, start, es[..i]);
    assert es[..i + 1][..i] == es[..i];
    PutEachEntries(o, start, es[..i]);
    if es[i] !in Entries(start) && es[i] in Entries(before) {
      var j :| 0 <= j < i && es[..i][j] == es[i];
    }
  }

  /** TreeMultimap.create(multimap): a multimap with natural orderings
      holding the same entries, reordered; a null in the source is
      rejected by the natural orderings. */
  method CreateFrom(source: TreeMultimap) returns (copy: TreeMultimap, r: PutResult)
    requires source.Valid()
    ensures fresh(copy) && copy.orders == Orders(NaturalKeys, NaturalValues) && copy.Valid()
    ensures r == NullPointerException <==>
              exists i :: 0 <= i < |Entries(source.rows)| && !Admitted(copy.orders, Entries(source.rows)[i].0, Entries(source.rows)[i].1)
    ensures r.Changed? ==> copy.rows == PutEach(copy.orders, [], Entries(source.rows))
    ensures r.Changed? ==> SameEntries(copy.rows, source.rows)
  {
    copy := new TreeMultimap(Orders(NaturalKeys, NaturalValues));
    var es := Entries(source.rows);
    r := copy.PutAll(es);
    ghost var n := AdmittedPrefix(copy.orders, es);
    if n < |es| {
      assert !Admitted(copy.orders, es[n].0, es[n].1);
    } else {
      assert es[..n] == es;
      CopyIsEqual(copy.orders, source.rows);
    }
    assert es == Entries(source.rows);
  }
}
