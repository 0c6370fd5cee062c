/** The insertion-ordered map (`LinkedHashMap`) that every identifier-keyed table of the core
    uses: `order` lists the keys in first-insertion order, `entries` holds the values. Writing
    an existing key replaces its value and keeps its place in the order. */
module LinkedMaps {
  import opened Outcomes
  import opened Identifiers

  datatype LinkedMap<V> = LinkedMap(order: seq<Identifier>, entries: map<Identifier, V>) {

    /** The order lists each key of the map exactly once. */
    ghost predicate Valid() {
      && (forall i, j :: 0 <= i < j < |order| ==> order[i] != order[j])
      && (forall k :: k in entries <==> k in order)
    }

    /** `put`: the new value is stored under `k`; a new key goes to the end of the order. */
    function Put(k: Identifier, v: V): (r: LinkedMap<V>)
      ensures r.entries == entries[k := v]
      ensures k in entries ==> r.order == order
      ensures k !in entries ==> r.order == order + [k]
    {
      if k in entries then LinkedMap(order, entries[k := v])
      else LinkedMap(order + [k], entries[k := v])
    }

    /** `get`: the stored value, or `None` (Java's null) for a key never written. */
    function Get(k: Identifier): (r: Option<V>)
      ensures r.Some? <==> k in entries
      ensures r.Some? ==> r.value == entries[k]
    {
      if k in entries then Some(entries[k]) else None
    }

    /** `values()`: the stored values in the order their keys were first inserted. */
    function Values(): (r: seq<V>)
      requires Valid()
      ensures |r| == |order|
      ensures forall i :: 0 <= i < |order| ==> r[i] == entries[order[i]]
    {
      seq(|order|, i requires 0 <= i < |order| => entries[order[i]])
    }

    /** `size()`. */
    function Size(): nat {
      |order|
    }
  }

  /** `put` keeps the order listing each key exactly once. */
  lemma PutValid<V>(m: LinkedMap<V>, k: Identifier, v: V)
    requires m.Valid()
    ensures m.Put(k, v).Valid()
  {
  }

  /** `n` grew out of `m` by writes: every key of `m` is still there, and the keys of `m` keep
      their places at the front of the order. */
  ghost predicate Extends<V>(m: LinkedMap<V>, n: LinkedMap<V>) {
    && |m.order| <= |n.order| && n.order[..|m.order|] == m.order
    && m.entries.Keys <= n.entries.Keys
  }

  /** A write extends the map it is made on. */
  lemma PutExtends<V>(m: LinkedMap<V>, k: Identifier, v: V)
    ensures Extends(m, m.Put(k, v))
  {
    assert (m.order + [k])[..|m.order|] == m.order;
  }

  lemma {:induction false} ExtendsTransitive<V>(a: LinkedMap<V>, b: LinkedMap<V>, c: LinkedMap<V>)
    requires Extends(a, b) && Extends(b, c)
    ensures Extends(a, c)
  {
    assert c.order[..|a.order|] == c.order[..|b.order|][..|a.order|];
  }

  function Empty<V>(): (r: LinkedMap<V>)
    ensures r.Valid() && r.Size() == 0
  {
    LinkedMap([], map[])
  }

  /** A sequence without repetitions has as many elements as the set of its elements. */
  lemma {:induction false} DistinctCardinality(s: seq<Identifier>)
    requires forall i, j :: 0 <= i < j < |s| ==> s[i] != s[j]
    ensures |set k | k in s| == |s|
  {
    if s != [] {
      var rest := s[..|s| - 1];
      DistinctCardinality(rest);
      assert (set k | k in s) == (set k | k in rest) + {s[|s| - 1]};
      assert s[|s| - 1] !in rest;
    }
  }

  /** The size of a map is the number of its distinct keys. */
  lemma SizeIsKeyCount<V>(m: LinkedMap<V>)
    requires m.Valid()
    ensures m.Size() == |m.entries.Keys|
  {
    DistinctCardinality(m.order);
    assert (set k | k in m.order) == m.entries.Keys;
  }

  /** The values collection holds exactly the values stored under some key, each key once. */
  lemma ValuesAreStoredValues<V>(m: LinkedMap<V>, v: V)
    requires m.Valid()
    ensures v in m.Values() <==> exists k :: k in m.entries && m.entries[k] == v
  {
    var vs := m.Values();
    if v in vs {
      var i :| 0 <= i < |vs| && vs[i] == v;
      assert m.order[i] in m.entries;
    }
    if k :| k in m.entries && m.entries[k] == v {
      var i :| 0 <= i < |m.order| && m.order[i] == k;
      assert vs[i] == v;
    }
  }
}
