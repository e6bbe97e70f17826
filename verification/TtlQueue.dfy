/**
 The bounded, time-limited map behind both submission guards: a map of stamped entries and a queue of
 keys. Pruning first drops the front of the queue while it is stale or expired, then while the map is
 over its capacity.
 */
module TtlQueue {
  datatype Entry<+O> = Entry(ts: int, value: O)

  datatype Queue<!K(==), +O> = Queue(ttl: nat, max: nat, entries: map<K, Entry<O>>, order: seq<K>)

  // `Instant::duration_since`: zero when the clock readings are out of order.
  function Elapsed(now: int, ts: int): nat {
    if now < ts then 0 else now - ts
  }

  predicate Expired<K, O>(q: Queue<K, O>, now: int, key: K) {
    key in q.entries && Elapsed(now, q.entries[key].ts) > q.ttl
  }

  predicate FrontGoes<K, O>(q: Queue<K, O>, now: int)
    requires q.order != []
  {
    q.order[0] !in q.entries || Expired(q, now, q.order[0])
  }

  function DropFront<K, O>(q: Queue<K, O>): Queue<K, O>
    requires q.order != []
  {
    q.(entries := q.entries - {q.order[0]}, order := q.order[1..])
  }

  function DropExpired<K, O>(q: Queue<K, O>, now: int): Queue<K, O>
    decreases |q.order|
  {
    if q.order != [] && FrontGoes(q, now) then DropExpired(DropFront(q), now) else q
  }

  function DropExcess<K, O>(q: Queue<K, O>): Queue<K, O>
    decreases |q.order|
  {
    if |q.entries| > q.max && q.order != [] then DropExcess(DropFront(q)) else q
  }

  function Pruned<K, O>(q: Queue<K, O>, now: int): Queue<K, O> {
    DropExcess(DropExpired(q, now))
  }

  // The two loops of `prune`.
  method Prune<K(==), O>(q: Queue<K, O>, now: int) returns (r: Queue<K, O>)
    ensures r == Pruned(q, now)
  {
    var entries, order := q.entries, q.order;
    while order != []
      invariant DropExpired(q.(entries := entries, order := order), now) == DropExpired(q, now)
      decreases |order|
    {
      var front := order[0];
      var remove := if front in entries then Elapsed(now, entries[front].ts) > q.ttl else true;
      if !remove {
        break;
      }
      entries, order := entries - {front}, order[1..];
    }
    ghost var mid := DropExpired(q, now);
    assert mid == q.(entries := entries, order := order);
    while |entries| > q.max && order != []
      invariant DropExcess(q.(entries := entries, order := order)) == DropExcess(mid)
      decreases |order|
    {
      entries, order := entries - {order[0]}, order[1..];
    }
    r := q.(entries := entries, order := order);
  }

  // Every key of the map is queued.
  ghost predicate Covered<K, O>(q: Queue<K, O>) {
    forall k :: k in q.entries ==> k in q.order
  }

  // The queue lists exactly the keys of the map, each once.
  ghost predicate Listing<K, O>(q: Queue<K, O>) {
    && Covered(q)
    && (forall i :: 0 <= i < |q.order| ==> q.order[i] in q.entries)
    && (forall i, j :: 0 <= i < j < |q.order| ==> q.order[i] != q.order[j])
  }

  // The keys that a pruning drops.
  function Lost<K, O>(q: Queue<K, O>, now: int): set<K> {
    q.entries.Keys - Pruned(q, now).entries.Keys
  }

  // What pruning leaves: some of the entries, unchanged, and a suffix of the queue.
  ghost predicate Shrinks<K, O>(q: Queue<K, O>, r: Queue<K, O>) {
    && r.ttl == q.ttl && r.max == q.max
    && (forall k :: k in r.entries ==> k in q.entries && r.entries[k] == q.entries[k])
    && |r.order| <= |q.order| && r.order == q.order[|q.order| - |r.order|..]
  }

  lemma ShrinksStep<K, O>(q: Queue<K, O>, r: Queue<K, O>)
    requires q.order != [] && Shrinks(DropFront(q), r)
    ensures Shrinks(q, r)
  {
    var d := |q.order| - 1 - |r.order|;
    assert q.order[1..][d..] == q.order[d + 1..];
  }

  lemma DropFrontCovered<K, O>(q: Queue<K, O>)
    requires Covered(q) && q.order != []
    ensures Covered(DropFront(q))
  {
    assert q.order == [q.order[0]] + q.order[1..];
  }

  lemma {:induction false} DropExpiredShrinks<K, O>(q: Queue<K, O>, now: int)
    requires Covered(q)
    ensures Shrinks(q, DropExpired(q, now)) && Covered(DropExpired(q, now))
    decreases |q.order|
  {
    if q.order != [] && FrontGoes(q, now) {
      DropFrontCovered(q);
      DropExpiredShrinks(DropFront(q), now);
      ShrinksStep(q, DropExpired(q, now));
    }
  }

  lemma {:induction false} DropExpiredReason<K, O>(q: Queue<K, O>, now: int, k: K)
    requires k in q.entries && k !in DropExpired(q, now).entries
    ensures Expired(q, now, k)
    decreases |q.order|
  {
    if k != q.order[0] {
      DropExpiredReason(DropFront(q), now, k);
    }
  }

  lemma {:induction false} DropExcessShrinks<K, O>(q: Queue<K, O>)
    requires Covered(q)
    ensures Shrinks(q, DropExcess(q)) && Covered(DropExcess(q)) && |DropExcess(q).entries| <= q.max
    decreases |q.order|
  {
    if |q.entries| > q.max {
      SomeKey(q.entries);
      DropFrontCovered(q);
      DropExcessShrinks(DropFront(q));
      ShrinksStep(q, DropExcess(q));
    }
  }

  lemma {:induction false} DropExcessOrder<K, O>(q: Queue<K, O>)
    ensures |DropExcess(q).order| <= |q.order|
    decreases |q.order|
  {
    if |q.entries| > q.max && q.order != [] {
      DropExcessOrder(DropFront(q));
    }
  }

  lemma {:induction false} DropExcessReason<K, O>(q: Queue<K, O>, k: K) returns (i: nat)
    requires k in q.entries && k !in DropExcess(q).entries
    ensures |q.entries| > q.max
    ensures i < |q.order| - |DropExcess(q).order| && q.order[i] == k
    decreases |q.order|
  {
    if k == q.order[0] {
      DropExcessOrder(DropFront(q));
      i := 0;
    } else {
      var j := DropExcessReason(DropFront(q), k);
      i := j + 1;
    }
  }

  lemma SomeKey<K, O>(m: map<K, O>)
    ensures |m| == 0 || exists k :: k in m
  {
    if forall k :: k !in m {
      assert m == map[];
    }
  }

  lemma PruneSizes<K, O>(q: Queue<K, O>, now: int)
    requires Covered(q)
    ensures var r := Pruned(q, now);
            Covered(r) && |r.entries| <= q.max && r.max == q.max && r.ttl == q.ttl
  {
    DropExpiredShrinks(q, now);
    DropExcessShrinks(DropExpired(q, now));
  }

  // Pruning terminates with at most `max` entries, changes no entry it keeps, and drops one only
  // because its last stamp is older than the TTL, or because the map was over capacity and the key
  // stood at the front of the queue.
  lemma WhyDropped<K, O>(q: Queue<K, O>, now: int, k: K)
    requires Covered(q) && k in q.entries && k !in Pruned(q, now).entries && |Pruned(q, now).order| <= |q.order|
    ensures Expired(q, now, k) || (|q.entries| > q.max && k in q.order[..|q.order| - |Pruned(q, now).order|])
  {
    var mid := DropExpired(q, now);
    DropExpiredShrinks(q, now);
    DropExcessShrinks(mid);
    if k in mid.entries {
      var i := OverCapacity(q, mid, k);
      assert q.order[..|q.order| - |Pruned(q, now).order|][i] == k;
    } else {
      DropExpiredReason(q, now, k);
    }
  }

  lemma PruneFacts<K, O>(q: Queue<K, O>, now: int)
    requires Covered(q)
    ensures var r := Pruned(q, now);
            && Shrinks(q, r) && Covered(r) && |r.entries| <= q.max
            && (forall k :: k in q.entries && k !in r.entries ==>
                              Expired(q, now, k)
                              || (|q.entries| > q.max && k in q.order[..|q.order| - |r.order|]))
  {
    var r := Pruned(q, now);
    DropExpiredShrinks(q, now);
    DropExcessShrinks(DropExpired(q, now));
    ShrinksTwice(q, DropExpired(q, now), r);
    forall k | k in q.entries && k !in r.entries
      ensures Expired(q, now, k) || (|q.entries| > q.max && k in q.order[..|q.order| - |r.order|])
    {
      WhyDropped(q, now, k);
    }
  }

  lemma ShrinksTwice<K, O>(q: Queue<K, O>, mid: Queue<K, O>, r: Queue<K, O>)
    requires Shrinks(q, mid) && Shrinks(mid, r)
    ensures Shrinks(q, r)
  {
    var d, e := |q.order| - |mid.order|, |mid.order| - |r.order|;
    assert q.order[d..][e..] == q.order[d + e..];
  }

  lemma OverCapacity<K, O>(q: Queue<K, O>, mid: Queue<K, O>, k: K) returns (i: nat)
    requires Shrinks(q, mid) && k in mid.entries && k !in DropExcess(mid).entries
    ensures |q.entries| > q.max
    ensures i < |q.order| - |DropExcess(mid).order| && q.order[i] == k
  {
    SubMapSize(mid.entries, q.entries);
    var j := DropExcessReason(mid, k);
    i := |q.order| - |mid.order| + j;
    assert mid.order[j] == q.order[i];
  }

  lemma SubMapSize<K, O>(a: map<K, O>, b: map<K, O>)
    requires forall k :: k in a ==> k in b
    ensures |a| <= |b|
  {
    assert a.Keys <= b.Keys;
    SubSetSize(a.Keys, b.Keys);
  }

  lemma {:induction false} SubSetSize<K>(a: set<K>, b: set<K>)
    requires a <= b
    ensures |a| <= |b|
    decreases |a|
  {
    if |a| > 0 {
      var x :| x in a;
      SubSetSize(a - {x}, b - {x});
    }
  }

  // Pruning keeps a listing a listing.
  lemma {:induction false} DropExpiredListing<K, O>(q: Queue<K, O>, now: int)
    requires Listing(q)
    ensures Listing(DropExpired(q, now))
    decreases |q.order|
  {
    if q.order != [] && FrontGoes(q, now) {
      DropFrontListing(q);
      DropExpiredListing(DropFront(q), now);
    }
  }

  lemma {:induction false} DropExcessListing<K, O>(q: Queue<K, O>)
    requires Listing(q)
    ensures Listing(DropExcess(q))
    decreases |q.order|
  {
    if |q.entries| > q.max && q.order != [] {
      DropFrontListing(q);
      DropExcessListing(DropFront(q));
    }
  }

  lemma DropFrontListing<K, O>(q: Queue<K, O>)
    requires Listing(q) && q.order != []
    ensures Listing(DropFront(q))
  {
    DropFrontCovered(q);
  }

  lemma PrunedListing<K, O>(q: Queue<K, O>, now: int)
    requires Listing(q)
    ensures Listing(Pruned(q, now))
  {
    DropExpiredListing(q, now);
    DropExcessListing(DropExpired(q, now));
  }

  lemma RemoveKeySize<K, O>(m: map<K, O>, k: K)
    requires k in m
    ensures |m - {k}| == |m| - 1
  {
    assert (m - {k}).Keys == m.Keys - {k};
    assert |m.Keys - {k}| == |m.Keys| - 1;
    assert |m| == |m.Keys| && |m - {k}| == |(m - {k}).Keys|;
  }

  lemma {:induction false} ListingSize<K, O>(q: Queue<K, O>)
    requires Listing(q)
    ensures |q.entries| == |q.order|
    decreases |q.order|
  {
    if q.order == [] {
      SomeKey(q.entries);
    } else {
      DropFrontListing(q);
      ListingSize(DropFront(q));
      RemoveKeySize(q.entries, q.order[0]);
    }
  }

  lemma AppendListing<K, O>(g: Queue<K, O>, key: K, e: Entry<O>)
    requires Listing(g) && key !in g.entries
    ensures var s := g.(entries := g.entries[key := e], order := g.order + [key]);
            Listing(s) && |s.entries| == |g.entries| + 1
  {
    var s := g.(entries := g.entries[key := e], order := g.order + [key]);
    assert s.entries.Keys == g.entries.Keys + {key};
    assert |s.entries| == |s.entries.Keys| && |g.entries| == |g.entries.Keys|;
    assert s.order[|g.order|] == key;
    forall k | k in s.entries
      ensures k in s.order
    {
      if k != key {
        assert k in g.order;
      }
    }
    assert forall i :: 0 <= i < |g.order| ==> s.order[i] == g.order[i] != key;
  }

  lemma UpdateListing<K, O>(g: Queue<K, O>, key: K, e: Entry<O>)
    requires Listing(g) && key in g.entries
    ensures var s := g.(entries := g.entries[key := e]);
            Listing(s) && |s.entries| == |g.entries|
  {
    var s := g.(entries := g.entries[key := e]);
    assert s.entries.Keys == g.entries.Keys;
    assert |s.entries| == |s.entries.Keys| && |g.entries| == |g.entries.Keys|;
  }
}
