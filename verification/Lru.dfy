/**
 The least-recently-used cache of krd/vendor/github.com/golang/groupcache/lru.
 A cache is its recency list: the front entry was used last, the back entry is
 the next one to be evicted.
 */
module Lru {
  import opened Basics

  datatype Entry<+K, +V> = Entry(key: K, value: V)
  type Cache<+K, +V> = seq<Entry<K, V>>

  predicate Has<K(==), V>(c: Cache<K, V>, k: K) {
    exists i :: 0 <= i < |c| && c[i].key == k
  }

  /** No key is cached twice. */
  ghost predicate Distinct<K, V>(c: Cache<K, V>) {
    forall i, j :: 0 <= i < j < |c| ==> c[i].key != c[j].key
  }

  function Lookup<K(==), V>(c: Cache<K, V>, k: K): (r: Option<V>)
    ensures r.Some? <==> Has(c, k)
    ensures r.Some? ==> Entry(k, r.value) in c
  {
    if c == [] then None
    else if c[0].key == k then Some(c[0].value)
    else
      var r := Lookup(c[1..], k);
      assert forall i :: 0 <= i < |c[1..]| ==> c[1..][i] == c[i + 1];
      assert Has(c, k) ==> Has(c[1..], k);
      r
  }

  /** The cache without the entry for `k`, if there is one. */
  function Without<K(==), V>(c: Cache<K, V>, k: K): (r: Cache<K, V>)
    ensures |r| == if Has(c, k) then |c| - 1 else |c|
    ensures forall e :: e in r ==> e in c
  {
    if c == [] then []
    else if c[0].key == k then c[1..]
    else
      assert c == [c[0]] + c[1..];
      assert forall i :: 0 <= i < |c[1..]| ==> c[1..][i] == c[i + 1];
      assert Has(c, k) <==> Has(c[1..], k);
      [c[0]] + Without(c[1..], k)
  }

  /** Get moves a hit to the front of the recency list. */
  function Touch<K(==), V>(c: Cache<K, V>, k: K): (r: Cache<K, V>)
    ensures |r| == |c|
  {
    match Lookup(c, k)
    case None => c
    case Some(v) => [Entry(k, v)] + Without(c, k)
  }

  /** Add replaces the value of a cached key, or inserts and drops the back entry past `max`. */
  function Add<K(==), V>(c: Cache<K, V>, k: K, v: V, max: nat): (r: Cache<K, V>)
    ensures max != 0 && |c| <= max ==> |r| <= max
  {
    if Has(c, k) then [Entry(k, v)] + Without(c, k)
    else if max != 0 && |c| + 1 > max then ([Entry(k, v)] + c)[..|c|]
    else [Entry(k, v)] + c
  }

  /** The entry that Add pushes out: the overwritten one, or the least recently used one. */
  function Displaced<K(==), V>(c: Cache<K, V>, k: K, max: nat): (r: Option<V>)
  {
    if Has(c, k) then Lookup(c, k)
    else if max != 0 && |c| + 1 > max && c != [] then Some(c[|c| - 1].value)
    else None
  }

  lemma {:induction false} LookupUnique<K, V>(c: Cache<K, V>, e: Entry<K, V>)
    requires Distinct(c) && e in c
    ensures Lookup(c, e.key) == Some(e.value)
  {
    if c[0].key != e.key {
      LookupUnique(c[1..], e);
    } else {
      var i :| 0 <= i < |c| && c[i] == e;
      assert i == 0;
    }
  }

  lemma {:induction false} WithoutKeeps<K, V>(c: Cache<K, V>, k: K)
    requires Distinct(c)
    ensures Distinct(Without(c, k))
    ensures !Has(Without(c, k), k)
    ensures forall e :: e in Without(c, k) <==> e in c && e.key != k
  {
    if c == [] {
    } else if c[0].key == k {
      assert c == [c[0]] + c[1..];
      assert forall i :: 0 <= i < |c[1..]| ==> c[1..][i] == c[i + 1];
    } else {
      assert c == [c[0]] + c[1..];
      var r := Without(c[1..], k);
      WithoutKeeps(c[1..], k);
      assert forall j :: 0 <= j < |r| ==> r[j] in c[1..];
      assert Without(c, k) == [c[0]] + r;
    }
  }

  lemma DistinctCons<K, V>(e: Entry<K, V>, c: Cache<K, V>)
    requires Distinct(c) && !Has(c, e.key)
    ensures Distinct([e] + c)
    ensures forall x :: x in [e] + c <==> x == e || x in c
  {
  }

  lemma TouchKeeps<K, V>(c: Cache<K, V>, k: K)
    requires Distinct(c)
    ensures Distinct(Touch(c, k))
    ensures forall e :: e in Touch(c, k) <==> e in c
  {
    if Has(c, k) {
      var hit := Entry(k, Lookup(c, k).value);
      WithoutKeeps(c, k);
      DistinctCons(hit, Without(c, k));
      forall e | e in c && e.key == k ensures e == hit { LookupUnique(c, e); }
    }
  }

  lemma AddKeeps<K, V>(c: Cache<K, V>, k: K, v: V, max: nat)
    requires Distinct(c) && max != 0
    ensures var r := Add(c, k, v, max);
            && Distinct(r)
            && Entry(k, v) in r
            && (forall e :: e in r ==> e == Entry(k, v) || (e in c && e.key != k))
            && (forall e :: e in c && e !in r ==> Displaced(c, k, max) == Some(e.value) || e == Entry(k, v))
            && (Displaced(c, k, max).Some? ==>
                  exists e :: e in c && e.value == Displaced(c, k, max).value && (e in r ==> e == Entry(k, v)))
  {
    WithoutKeeps(c, k);
    var r := Add(c, k, v, max);
    if Has(c, k) {
      DistinctCons(Entry(k, v), Without(c, k));
      assert Entry(k, Lookup(c, k).value) in c;
      forall e | e in c && e !in r
        ensures Displaced(c, k, max) == Some(e.value)
      {
        LookupUnique(c, e);
      }
    } else if |c| + 1 > max {
      var n := |c| - 1;
      assert r == [Entry(k, v)] + c[..n] && c == c[..n] + [c[n]];
      assert !Has(c[..n], k);
      DistinctCons(Entry(k, v), c[..n]);
      assert c[n] !in c[..n];
      assert c[n] in c && c[n] !in r;
    } else {
      DistinctCons(Entry(k, v), c);
    }
  }

  // ---------- recency ----------

  datatype Op<+K, +V> = AddOp(key: K, value: V) | GetOp(key: K) | RemoveOp(key: K) | RemoveOldestOp

  function Apply<K(==), V>(c: Cache<K, V>, op: Op<K, V>, max: nat): Cache<K, V> {
    match op
    case AddOp(k, v) => Add(c, k, v, max)
    case GetOp(k) => Touch(c, k)
    case RemoveOp(k) => Without(c, k)
    case RemoveOldestOp => if c == [] then [] else c[..|c| - 1]
  }

  function ApplyAll<K(==), V>(ops: seq<Op<K, V>>, max: nat): Cache<K, V>
    decreases |ops|
  {
    if ops == [] then [] else Apply(ApplyAll(ops[..|ops| - 1], max), ops[|ops| - 1], max)
  }

  /** When `k` was last added or looked up; -1 if never. */
  function LastUse<K(==), V>(ops: seq<Op<K, V>>, k: K): (r: int)
    ensures -1 <= r < |ops|
    decreases |ops|
  {
    if ops == [] then -1
    else
      var n := |ops| - 1;
      if (ops[n].AddOp? || ops[n].GetOp?) && ops[n].key == k then n else LastUse(ops[..n], k)
  }

  /** Earlier in the list means used later. */
  ghost predicate ByRecency<K(!new), V(!new)>(c: Cache<K, V>, ops: seq<Op<K, V>>) {
    forall i, j :: 0 <= i < j < |c| ==> LastUse(ops, c[i].key) > LastUse(ops, c[j].key)
  }

  lemma {:induction false} RecencyWithout<K(!new), V(!new)>(c: Cache<K, V>, ops: seq<Op<K, V>>, k: K)
    requires ByRecency(c, ops)
    ensures ByRecency(Without(c, k), ops)
    decreases |c|
  {
    if c != [] {
      var tail := c[1..];
      assert forall i :: 0 <= i < |tail| ==> tail[i] == c[i + 1];
      if c[0].key != k {
        RecencyWithout(tail, ops, k);
        var r := Without(tail, k);
        assert forall j :: 0 <= j < |r| ==> r[j] in tail;
      }
    }
  }

  /** Using `k` last puts it in front of entries that are already in order. */
  lemma RecencyFront<K(!new), V(!new)>(c: Cache<K, V>, ops: seq<Op<K, V>>, op: Op<K, V>, e: Entry<K, V>)
    requires ByRecency(c, ops) && !Has(c, e.key) && (op.AddOp? || op.GetOp?) && op.key == e.key
    ensures ByRecency([e] + c, ops + [op])
  {
    var all := ops + [op];
    assert all[..|ops|] == ops;
    assert forall k :: LastUse(all, k) == if k == e.key then |ops| else LastUse(ops, k);
    assert forall i :: 0 <= i < |c| ==> c[i].key != e.key;
  }

  lemma RecencySame<K(!new), V(!new)>(c: Cache<K, V>, ops: seq<Op<K, V>>, op: Op<K, V>)
    requires ByRecency(c, ops) && (op.RemoveOp? || op.RemoveOldestOp? || !Has(c, op.key))
    ensures ByRecency(c, ops + [op])
  {
    var all := ops + [op];
    assert all[..|ops|] == ops;
    assert forall i :: 0 <= i < |c| ==> LastUse(all, c[i].key) == LastUse(ops, c[i].key);
  }

  lemma RecencyStep<K(!new), V(!new)>(c: Cache<K, V>, ops: seq<Op<K, V>>, op: Op<K, V>, max: nat)
    requires Distinct(c) && ByRecency(c, ops) && max != 0
    ensures Distinct(Apply(c, op, max)) && ByRecency(Apply(c, op, max), ops + [op])
  {
    match op
    case AddOp(k, v) =>
      AddKeeps(c, k, v, max);
      WithoutKeeps(c, k);
      RecencyWithout(c, ops, k);
      var full := Without(c, k);
      RecencyFront(full, ops, op, Entry(k, v));
      if !Has(c, k) { WithoutNothing(c, k); }
    case GetOp(k) =>
      TouchKeeps(c, k);
      WithoutKeeps(c, k);
      RecencyWithout(c, ops, k);
      if Has(c, k) {
        RecencyFront(Without(c, k), ops, op, Entry(k, Lookup(c, k).value));
      } else {
        RecencySame(c, ops, op);
      }
    case RemoveOp(k) =>
      WithoutKeeps(c, k);
      RecencyWithout(c, ops, k);
      RecencySame(Without(c, k), ops, op);
    case RemoveOldestOp =>
      RecencySame(c, ops, op);
  }

  lemma {:induction false} WithoutNothing<K, V>(c: Cache<K, V>, k: K)
    requires !Has(c, k)
    ensures Without(c, k) == c
  {
    if c != [] {
      var tail := c[1..];
      assert forall i :: 0 <= i < |tail| ==> tail[i] == c[i + 1];
      assert !Has(tail, k) && c[0].key != k;
      WithoutNothing(tail, k);
      assert c == [c[0]] + tail;
    }
  }

  lemma {:induction false} RecencyRun<K(!new), V(!new)>(ops: seq<Op<K, V>>, max: nat)
    requires max != 0
    ensures Distinct(ApplyAll(ops, max)) && ByRecency(ApplyAll(ops, max), ops)
    decreases |ops|
  {
    if ops != [] {
      var n := |ops| - 1;
      RecencyRun(ops[..n], max);
      RecencyStep(ApplyAll(ops[..n], max), ops[..n], ops[n], max);
      assert ops == ops[..n] + [ops[n]];
    }
  }

  /**
   After every history of operations, adding a new key to a full cache pushes out one entry:
   the one whose key was added or looked up least recently. Nothing else goes.
   */
  lemma LeastRecentlyUsedGoes<K(!new), V(!new)>(ops: seq<Op<K, V>>, k: K, v: V, max: nat)
    requires max != 0 && !Has(ApplyAll(ops, max), k) && |ApplyAll(ops, max)| == max
    ensures var c := ApplyAll(ops, max);
            var r := Add(c, k, v, max);
            exists gone :: gone in c && Displaced(c, k, max) == Some(gone.value) && gone !in r
                     && forall e :: e in c && e != gone ==> e in r && LastUse(ops, e.key) > LastUse(ops, gone.key)
  {
    var c := ApplyAll(ops, max);
    var n := max - 1;
    RecencyRun(ops, max);
    var gone, r := c[n], Add(c, k, v, max);
    assert r == [Entry(k, v)] + c[..n];
    assert gone !in r by {
      assert gone.key != k;
      assert forall i :: 0 <= i < n ==> c[..n][i] == c[i];
    }
    forall e | e in c && e != gone ensures e in r && LastUse(ops, e.key) > LastUse(ops, gone.key) {
      var i :| 0 <= i < |c| && c[i] == e;
      assert r[i + 1] == e;
    }
    assert gone in c;
  }
}
