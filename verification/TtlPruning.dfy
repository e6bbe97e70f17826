/** Exactly what a pruning drops, by the stamps and the size of the map alone. */
module TtlPruning {
  import opened TtlQueue

  // The key is not in the map, or was stamped more than the TTL ago.
  predicate Outdated<K, O>(q: Queue<K, O>, now: int, k: K) {
    k in q.entries ==> now - q.entries[k].ts > q.ttl
  }

  predicate OutdatedTo<K, O>(q: Queue<K, O>, now: int, n: nat)
    requires n <= |q.order|
  {
    forall j :: 0 <= j < n ==> Outdated(q, now, q.order[j])
  }

  // The queue without its first n positions and their keys.
  function Cut<K, O>(q: Queue<K, O>, n: nat): (r: Queue<K, O>)
    requires n <= |q.order|
    ensures |r.order| == |q.order| - n && r.max == q.max && r.ttl == q.ttl
    decreases n
  {
    if n == 0 then q else Cut(DropFront(q), n - 1)
  }

  lemma {:induction false} CutIs<K, O>(q: Queue<K, O>, n: nat, k: K)
    requires n <= |q.order|
    ensures Cut(q, n).order == q.order[n..]
    ensures k in Cut(q, n).entries <==> k in q.entries && k !in q.order[..n]
    ensures k in Cut(q, n).entries ==> Cut(q, n).entries[k] == q.entries[k]
    decreases n
  {
    if n > 0 {
      CutIs(DropFront(q), n - 1, k);
      assert q.order[..n] == [q.order[0]] + q.order[1..][..n - 1];
      assert q.order[1..][n - 1..] == q.order[n..];
    }
  }

  lemma CutSize<K, O>(q: Queue<K, O>, n: nat, r: Queue<K, O>)
    requires n <= |q.order| && r == Cut(q, n)
    ensures |r.entries| <= |q.entries|
  {
    forall k | k in r.entries
      ensures k in q.entries
    {
      CutIs(q, n, k);
    }
    SubMapSize(r.entries, q.entries);
  }

  lemma CutFront<K, O>(q: Queue<K, O>, m: nat, r: Queue<K, O>)
    requires q.order != [] && m <= |q.order| - 1 && r == Cut(DropFront(q), m)
    ensures r == Cut(q, m + 1)
  {
  }

  lemma {:induction false} CutTwice<K, O>(q: Queue<K, O>, n: nat, m: nat)
    requires n + m <= |q.order|
    ensures Cut(Cut(q, n), m) == Cut(q, n + m)
    decreases n
  {
    if n > 0 {
      CutTwice(DropFront(q), n - 1, m);
    }
  }

  // The map is over its capacity without the first n positions.
  predicate OverAt<K, O>(q: Queue<K, O>, n: nat)
    requires n <= |q.order|
  {
    |Cut(q, n).entries| > q.max
  }

  // Position i goes exactly when every position up to it is stale, or when the map is still over its
  // capacity without the positions before it.
  ghost predicate Goes<K, O>(q: Queue<K, O>, now: int, i: nat)
    requires i < |q.order|
  {
    OutdatedTo(q, now, i + 1) || OverAt(q, i)
  }

  // Some position of the key goes.
  ghost predicate Dropped<K, O>(q: Queue<K, O>, now: int, k: K) {
    exists i: nat :: i < |q.order| && q.order[i] == k && Goes(q, now, i)
  }

  // ---- the two loops, position by position ---------------------------------------------------------------------

  function Taken<K, O>(q: Queue<K, O>, r: Queue<K, O>): int {
    |q.order| - |r.order|
  }

  ghost predicate IsCut<K, O>(q: Queue<K, O>, r: Queue<K, O>) {
    0 <= Taken(q, r) <= |q.order| && r == Cut(q, Taken(q, r))
  }

  lemma NoCut<K, O>(q: Queue<K, O>, r: Queue<K, O>)
    requires r == q
    ensures IsCut(q, r)
  {
  }

  lemma CutOneMore<K, O>(q: Queue<K, O>, next: Queue<K, O>, r: Queue<K, O>)
    requires q.order != [] && next == DropFront(q) && IsCut(next, r)
    ensures IsCut(q, r)
  {
    CutFront(q, Taken(next, r), r);
  }

  lemma {:induction false} DropExpiredCuts<K, O>(q: Queue<K, O>, now: int)
    ensures IsCut(q, DropExpired(q, now))
    decreases |q.order|
  {
    if q.order != [] && FrontGoes(q, now) {
      DropExpiredCuts(DropFront(q), now);
      CutOneMore(q, DropFront(q), DropExpired(q, now));
    } else {
      NoCut(q, DropExpired(q, now));
    }
  }

  lemma {:induction false} DropExcessCuts<K, O>(q: Queue<K, O>)
    ensures IsCut(q, DropExcess(q))
    decreases |q.order|
  {
    if |q.entries| > q.max && q.order != [] {
      DropExcessCuts(DropFront(q));
      CutOneMore(q, DropFront(q), DropExcess(q));
    } else {
      NoCut(q, DropExcess(q));
    }
  }

  lemma OutdatedBehindFront<K, O>(q: Queue<K, O>, now: int, m: nat)
    requires q.order != [] && m <= |q.order| - 1 && Outdated(q, now, q.order[0])
    ensures OutdatedTo(q, now, m + 1) <==> OutdatedTo(DropFront(q), now, m)
  {
    if OutdatedTo(q, now, m + 1) {
      forall j | 0 <= j < m
        ensures Outdated(DropFront(q), now, DropFront(q).order[j])
      {
        assert Outdated(q, now, q.order[j + 1]);
      }
    } else {
      var j :| 0 <= j < m + 1 && !Outdated(q, now, q.order[j]);
      assert !Outdated(DropFront(q), now, DropFront(q).order[j - 1]);
    }
  }

  lemma {:induction false} ExpiredGoes<K, O>(q: Queue<K, O>, now: int, i: nat)
    requires i < |q.order|
    ensures i < Taken(q, DropExpired(q, now)) <==> OutdatedTo(q, now, i + 1)
    decreases i
  {
    DropExpiredCuts(q, now);
    if FrontGoes(q, now) {
      DropExpiredCuts(DropFront(q), now);
      if i > 0 {
        ExpiredGoes(DropFront(q), now, i - 1);
        OutdatedBehindFront(q, now, i);
      }
    } else {
      assert !Outdated(q, now, q.order[0]);
    }
  }

  // ---- the capacity ------------------------------------------------------------------------------------------------

  // The last step of the second loop started from a map over its capacity.
  lemma {:induction false} LastExcess<K, O>(q: Queue<K, O>) returns (prev: Queue<K, O>)
    requires |q.entries| > q.max && q.order != []
    ensures prev.order != [] && DropExcess(q) == DropFront(prev) && |prev.entries| > prev.max && IsCut(q, prev)
    decreases |q.order|
  {
    var next := DropFront(q);
    if |next.entries| > next.max && next.order != [] {
      prev := LastExcess(next);
      CutOneMore(q, next, prev);
    } else {
      prev := q;
      NoCut(q, prev);
    }
  }

  // Over the capacity here, over it at every earlier position.
  lemma OverBefore<K, O>(q: Queue<K, O>, i: nat, m: nat, a: Queue<K, O>, b: Queue<K, O>)
    requires i + m <= |q.order| && a == Cut(q, i) && b == Cut(q, i + m)
    ensures |b.entries| <= |a.entries| && a.max == b.max == q.max
  {
    CutTwice(q, i, m);
    CutSize(a, m, b);
  }

  lemma TakenIsOver<K, O>(q: Queue<K, O>, prev: Queue<K, O>, i: nat, m: nat)
    requires IsCut(q, prev) && |prev.entries| > prev.max && i + m == Taken(q, prev)
    ensures OverAt(q, i)
  {
    OverBefore(q, i, m, Cut(q, i), prev);
    OverIn(q, i, Cut(q, i));
  }

  lemma LeftIsNotOver<K, O>(q: Queue<K, O>, n: nat, r: Queue<K, O>, m: nat)
    requires n + m <= |q.order| && r == Cut(q, n) && |r.entries| <= r.max
    ensures !OverAt(q, n + m)
  {
    OverBefore(q, n, m, r, Cut(q, n + m));
    OverIn(q, n + m, Cut(q, n + m));
  }

  lemma OverIn<K, O>(q: Queue<K, O>, i: nat, r: Queue<K, O>)
    requires i <= |q.order| && r == Cut(q, i)
    ensures OverAt(q, i) <==> |r.entries| > r.max
  {
  }

  lemma {:induction false} DropExcessEnds<K, O>(q: Queue<K, O>)
    ensures DropExcess(q).order == [] || |DropExcess(q).entries| <= DropExcess(q).max
    decreases |q.order|
  {
    if |q.entries| > q.max && q.order != [] {
      DropExcessEnds(DropFront(q));
    }
  }

  // ---- pruning ----------------------------------------------------------------------------------------------------

  // A position that the first loop left goes exactly for the capacity.
  lemma LaterGoes<K, O>(q: Queue<K, O>, mid: Queue<K, O>, r: Queue<K, O>, i: nat)
    requires IsCut(q, mid) && r == DropExcess(mid) && Taken(q, mid) <= i < |q.order|
    ensures IsCut(q, r) && (i < Taken(q, r) <==> OverAt(q, i))
  {
    DropExcessCuts(mid);
    CutOfCut(q, mid, r);
    DropExcessEnds(mid);
    if i >= Taken(q, r) {
      LeftIsNotOver(q, Taken(q, r), r, i - Taken(q, r));
    } else {
      EarlierIsOver(q, mid, r, i);
    }
  }

  lemma EarlierIsOver<K, O>(q: Queue<K, O>, mid: Queue<K, O>, r: Queue<K, O>, i: nat)
    requires IsCut(q, mid) && r == DropExcess(mid) && Taken(q, mid) <= i < Taken(q, r)
    ensures OverAt(q, i)
  {
    assert |mid.entries| > mid.max && mid.order != [];
    var prev := LastExcess(mid);
    CutOfCut(q, mid, prev);
    TakenIsOver(q, prev, i, Taken(q, prev) - i);
  }

  lemma PositionGoes<K, O>(q: Queue<K, O>, now: int, mid: Queue<K, O>, r: Queue<K, O>, i: nat)
    requires i < |q.order| && mid == DropExpired(q, now) && r == DropExcess(mid)
    ensures IsCut(q, r) && (i < Taken(q, r) <==> Goes(q, now, i))
  {
    DropExpiredCuts(q, now);
    ExpiredGoes(q, now, i);
    if i >= Taken(q, mid) {
      LaterGoes(q, mid, r, i);
    } else {
      DropExcessCuts(mid);
      CutOfCut(q, mid, r);
    }
  }

  lemma CutOfCut<K, O>(q: Queue<K, O>, mid: Queue<K, O>, r: Queue<K, O>)
    requires IsCut(q, mid) && IsCut(mid, r)
    ensures IsCut(q, r)
  {
    CutTwice(q, Taken(q, mid), Taken(mid, r));
  }

  /**
   Pruning cuts off the positions that go, and nothing else: those stale up to the first live one, and
   then as many as the capacity takes.
   */
  lemma PruneIsExactly<K, O>(q: Queue<K, O>, now: int)
    ensures var d := Taken(q, Pruned(q, now));
      && 0 <= d <= |q.order| && Pruned(q, now) == Cut(q, d)
      && forall i: nat :: i < |q.order| ==> (i < d <==> Goes(q, now, i))
  {
    var mid := DropExpired(q, now);
    DropExpiredCuts(q, now);
    DropExcessCuts(mid);
    CutOfCut(q, mid, Pruned(q, now));
    forall i: nat | i < |q.order|
      ensures i < Taken(q, Pruned(q, now)) <==> Goes(q, now, i)
    {
      PositionGoes(q, now, mid, Pruned(q, now), i);
    }
  }

  // A key stays in the map, with its entry, exactly when none of its positions goes.
  lemma KeptIff<K, O>(q: Queue<K, O>, now: int, k: K)
    ensures k in Pruned(q, now).entries <==> k in q.entries && !Dropped(q, now, k)
    ensures k in Pruned(q, now).entries ==> Pruned(q, now).entries[k] == q.entries[k]
  {
    PruneIsExactly(q, now);
    var d := Taken(q, Pruned(q, now));
    CutIs(q, d, k);
    InFront(q.order, d, k);
    if k in q.order[..d] {
      var i: nat :| i < d && q.order[i] == k;
      assert Goes(q, now, i);
    }
  }

  lemma InFront<K>(order: seq<K>, d: nat, k: K)
    requires d <= |order|
    ensures k in order[..d] <==> exists i: nat :: i < d && order[i] == k
  {
    if k in order[..d] {
      var i :| 0 <= i < d && order[..d][i] == k;
      assert order[i] == k;
    }
  }

  // In a listing the map shrinks by one with every position.
  lemma {:induction false} OverInListing<K, O>(q: Queue<K, O>, n: nat)
    requires Listing(q) && n <= |q.order|
    ensures OverAt(q, n) <==> |q.order| - n > q.max
    decreases n
  {
    if n == 0 {
      ListingSize(q);
    } else {
      DropFrontListing(q);
      OverInListing(DropFront(q), n - 1);
    }
  }
}
