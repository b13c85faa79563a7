/**
 * A java.util.TreeMap<Double, V> as the list of its entries in ascending key
 * order, with the three operations the planet selector uses: put, lastKey and
 * ceilingEntry. Keys are exact reals; floating-point rounding is not modelled.
 */
module WeightTable {
  import opened Wrappers

  type Table<V> = seq<(real, V)>

  /** Keys strictly increase along the table, so no key occurs twice. */
  ghost predicate Ascending<V>(t: Table<V>) {
    forall i, j :: 0 <= i < j < |t| ==> t[i].0 < t[j].0
  }

  /** The values the table maps to. */
  ghost function Values<V>(t: Table<V>): set<V> {
    set e | e in t :: e.1
  }

  /** TreeMap.lastKey: the largest key. */
  function LastKey<V>(t: Table<V>): real
    requires |t| > 0
  {
    t[|t| - 1].0
  }

  /**
   * TreeMap.put: inserts the entry in key order, replacing the entry that
   * already has key k. Its effect on the contents is stated by PutContents.
   */
  function Put<V>(t: Table<V>, k: real, v: V): (r: Table<V>)
    requires Ascending(t)
    ensures Ascending(r) && |r| > 0
    ensures r[0].0 == if t == [] || k < t[0].0 then k else t[0].0
    decreases |t|
  {
    if t == [] then [(k, v)]
    else if k < t[0].0 then [(k, v)] + t
    else if k == t[0].0 then [(k, v)] + t[1..]
    else [t[0]] + Put(t[1..], k, v)
  }

  /**
   * After a put, k maps to v, every entry under another key is still there,
   * and there is nothing else.
   */
  lemma {:induction false} PutContents<V>(t: Table<V>, k: real, v: V)
    requires Ascending(t)
    ensures forall e :: e in Put(t, k, v) <==> e == (k, v) || (e in t && e.0 != k)
    decreases |t|
  {
    if t != [] && k > t[0].0 {
      PutContents(t[1..], k, v);
      assert t == [t[0]] + t[1..];
    } else if t != [] && k == t[0].0 {
      assert t == [t[0]] + t[1..];
      assert forall e :: e in t[1..] ==> e.0 != k by {
        forall e | e in t[1..] ensures e.0 != k {
          var j :| 0 <= j < |t[1..]| && t[1..][j] == e;
          assert t[0].0 < t[j + 1].0;
        }
      }
    }
  }

  /** A key above every key of the table is appended at its end. */
  lemma {:induction false} PutAppends<V>(t: Table<V>, k: real, v: V)
    requires Ascending(t)
    requires t == [] || LastKey(t) < k
    ensures Put(t, k, v) == t + [(k, v)]
    decreases |t|
  {
    if t != [] {
      var tail := t[1..];
      assert t[0].0 <= LastKey(t);
      if tail != [] {
        assert LastKey(tail) == LastKey(t);
        PutAppends(tail, k, v);
      }
      assert t == [t[0]] + tail;
    }
  }

  /** A key equal to the last key overwrites the last entry. */
  lemma {:induction false} PutOverwritesLast<V>(t: Table<V>, k: real, v: V)
    requires Ascending(t)
    requires t != [] && LastKey(t) == k
    ensures Put(t, k, v) == t[..|t| - 1] + [(k, v)]
    decreases |t|
  {
    var tail := t[1..];
    if tail != [] {
      assert t[0].0 < t[|t| - 1].0;
      assert LastKey(tail) == LastKey(t);
      PutOverwritesLast(tail, k, v);
      assert t[..|t| - 1] == [t[0]] + tail[..|tail| - 1];
    }
  }

  /**
   * The position TreeMap.ceilingEntry(x) looks at: every key before it is
   * below x, and the key there, if any, is at least x. In an ascending table
   * that is the smallest key at or above x.
   */
  function CeilingIndex<V>(t: Table<V>, x: real): (i: nat)
    ensures i <= |t|
    ensures forall j :: 0 <= j < i ==> t[j].0 < x
    ensures i < |t| ==> x <= t[i].0
    decreases |t|
  {
    if t == [] || x <= t[0].0 then 0 else 1 + CeilingIndex(t[1..], x)
  }

  /** TreeMap.ceilingEntry: the entry with the least key at or above x. */
  function Ceiling<V>(t: Table<V>, x: real): (r: Option<(real, V)>)
    requires Ascending(t)
    ensures r.None? <==> t == [] || LastKey(t) < x
    ensures r.Some? ==> r.value in t && x <= r.value.0
    ensures r.Some? ==> forall e :: e in t && x <= e.0 ==> r.value.0 <= e.0
  {
    var i := CeilingIndex(t, x);
    if i < |t| then Some(t[i]) else None
  }

  /**
   * ThreadLocalRandom.nextDouble(bound) for a positive bound: the uniform
   * value u in [0, 1) scaled to [0, bound).
   */
  function Draw(u: real, bound: real): (x: real)
    requires 0.0 <= u < 1.0 && bound > 0.0
    ensures 0.0 <= x < bound
  {
    assert bound - u * bound == (1.0 - u) * bound;
    u * bound
  }

  /** The entry at i is the ceiling entry of x: the first one whose key is at least x. */
  ghost predicate CeilingAt<V>(t: Table<V>, x: real, i: int) {
    0 <= i < |t| && x <= t[i].0 && forall j :: 0 <= j < i ==> t[j].0 < x
  }

  /**
   * The selector's draw: Draw(u, lastKey), then the ceiling entry's value.
   * nextDouble throws for a bound that is not positive; that is the
   * None case. Otherwise the ceiling entry always exists, and the result is
   * the value at the smallest key at or above the draw.
   */
  function Pick<V>(t: Table<V>, u: real): (r: Option<V>)
    requires |t| > 0 && Ascending(t) && 0.0 <= u < 1.0
    ensures r.Some? <==> LastKey(t) > 0.0
    ensures r.Some? ==> exists i :: CeilingAt(t, Draw(u, LastKey(t)), i) && t[i].1 == r.value
    ensures r.Some? ==> Ceiling(t, Draw(u, LastKey(t))).Some? && r.value == Ceiling(t, Draw(u, LastKey(t))).value.1
  {
    var bound := LastKey(t);
    if bound > 0.0 then
      var x := Draw(u, bound);
      var i := CeilingIndex(t, x);
      assert CeilingAt(t, x, i);
      Some(t[i].1)
    else None
  }
}
