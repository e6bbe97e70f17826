/** The allocation engine as it runs: one call closes the window, reads it, computes and commits. */
module AllocationEngine {
  import opened Wrappers
  import opened Sums
  import opened FeeModel
  import opened ProRata
  import opened ShareWindow
  import opened Ledger
  import opened LedgerTheorems

  datatype Outcome =
    | Allocated(walletCount: nat, netPayout: int, nachoAccrual: int, poolFee: int, residue: int)
    | AlreadyAllocated
    | NoContributingWallets(retained: int)

  datatype EngineError =
    | Math(error: AllocationError)
    | BadWindow(message: string)
    | InvalidWindowWeight(total: real)
    | UnknownReward(id: nat)

  class Engine {
    const config: Config
    var db: State

    // A fee configuration exists only as the result of its own constructor.
    constructor (config: Config)
      requires NewFeeConfig(config.fee.toplineBps) == Ok(config.fee)
      ensures Valid() && this.config == config && db == INIT
    {
      this.config := config;
      db := INIT;
      new;
      NothingClosed();
    }

    ghost predicate Valid()
      reads this
    {
      config.fee.Valid() && SnapshotsAt(db.shares, db.rollups, db.closures)
    }

    // One call of the engine. The window closure is a transaction of its own and stays; everything
    // else is one transaction, so the call either leaves the closed database as it is or commits all.
    // `listing` is what the database returns for the closed window, `tiers` what the classifier says.
    method AllocateCoinbaseReward(id: nat, reward: int, start: nat, end: nat, now: int,
                                  listing: seq<WindowRow>, tiers: seq<WalletTier>)
      returns (r: Result<Outcome, EngineError>)
      requires Valid() && reward <= I64_MAX && |tiers| == |listing|
      requires start < end ==> IsListing(Closed(db.shares, db.rollups, start, end, now), start, end, listing)
      modifies this`db
      ensures Valid()
      ensures reward < 0 <==> r == Err(Math(NegativeGross(reward)))
      ensures reward >= 0 && end <= start <==> r.Err? && r.error.BadWindow?
      ensures !(r.Err? && r.error.InvalidWindowWeight?)
      ensures db == if reward < 0 then old(db)
                    else EngineCall(config, old(db), id, reward, start, end, now, listing, tiers)
      ensures reward >= 0 && start < end ==>
                var split := SplitOf(config, reward, listing, tiers);
                if split.Err? then r == Err(Math(Overflow("fee_share")))
                else if id >= |old(db).rewards| then r == Err(UnknownReward(id))
                else if old(db).rewards[id].isAllocated then r == Ok(AlreadyAllocated)
                else if listing == [] then r == Ok(NoContributingWallets(reward))
                else
                  var t := TrueTotals(split.value);
                  && r == Ok(Allocated(|listing|, t.net, t.nacho, t.poolFee, Residue(reward, listing)))
                  && t.net + t.nacho + t.poolFee == reward
    {
      if reward < 0 {
        return Err(Math(NegativeGross(reward)));
      }
      if end <= start {
        return Err(BadWindow("close_window: daa_end must be > daa_start"));
      }
      ghost var before := db;
      db := CloseTx(db, start, end, now);
      ClosedKeepsSnapshotsAt(before.shares, before.rollups, before.closures, start, end, now);
      ClosedListing(before, start, end, now, listing);
      r := AllocateListed(id, reward, listing, tiers);
    }

    // The rest of the call, once the window is closed and listed.
    method AllocateListed(id: nat, reward: nat, listing: seq<WindowRow>, tiers: seq<WalletTier>)
      returns (r: Result<Outcome, EngineError>)
      requires config.fee.Valid() && reward <= I64_MAX && |tiers| == |listing|
      requires NonNegative(listing) && (listing != [] ==> TotalWeight(listing) > 0.0)
      modifies this`db
      ensures db == Committed(config, old(db), id, reward, listing, tiers)
      ensures var split := SplitOf(config, reward, listing, tiers);
              if split.Err? then r == Err(Math(Overflow("fee_share")))
              else if id >= |old(db).rewards| then r == Err(UnknownReward(id))
              else if old(db).rewards[id].isAllocated then r == Ok(AlreadyAllocated)
              else if listing == [] then r == Ok(NoContributingWallets(reward))
              else
                var t := TrueTotals(split.value);
                && r == Ok(Allocated(|listing|, t.net, t.nacho, t.poolFee, Residue(reward, listing)))
                && t.net + t.nacho + t.poolFee == reward
    {
      if listing == [] {
        r := FinaliseEmpty(id, reward);
        return;
      }
      var grosses, residue := ProRateWindow(reward, listing);
      if grosses.Err? {
        assert false; // `InvalidWindowWeight`: a closed window with a row has a positive total weight
      }
      GrossesArePropSplit(reward, listing);
      var splits := SplitAll(config.fee, grosses.value, tiers);
      SplitGrossesOutcome(config.fee, grosses.value, tiers);
      if splits.Err? {
        return Err(Math(splits.error));
      }
      PartsAddUp(splits.value);
      r := CommitAllocation(id, reward, listing, splits.value, residue);
    }

    // The window had no shares: the reward is stamped allocated and stays with the pool.
    method FinaliseEmpty(id: nat, reward: nat) returns (r: Result<Outcome, EngineError>)
      modifies this`db
      ensures id >= |old(db).rewards| ==> r == Err(UnknownReward(id)) && db == old(db)
      ensures id < |old(db).rewards| && old(db).rewards[id].isAllocated ==> r == Ok(AlreadyAllocated) && db == old(db)
      ensures id < |old(db).rewards| && !old(db).rewards[id].isAllocated ==>
                r == Ok(NoContributingWallets(reward)) && db == CommitTx(old(db), id, reward, |db.shares|, [], [])
    {
      if id >= |db.rewards| {
        return Err(UnknownReward(id));
      }
      if db.rewards[id].isAllocated {
        return Ok(AlreadyAllocated);
      }
      ghost var before := db;
      db := db.(rewards := db.rewards[id := db.rewards[id].(isAllocated := true)],
                audit := db.audit + [AuditEntry(id, reward, Retained)],
                basis := db.basis[id := |db.shares|]);
      assert before.rows + BuildRows(id, [], []) == before.rows;
      r := Ok(NoContributingWallets(reward));
    }

    // The allocation transaction: lock and gate, insert the rows, accrue, stamp, audit.
    method CommitAllocation(id: nat, reward: nat, listing: seq<WindowRow>, splits: seq<Allocation>, residue: int)
      returns (r: Result<Outcome, EngineError>)
      requires listing != [] && |listing| == |splits| && AllSplit(splits)
      requires Sum(GrossOf(splits)) == reward <= I64_MAX && residue == Residue(reward, listing)
      modifies this`db
      ensures id >= |old(db).rewards| ==> r == Err(UnknownReward(id)) && db == old(db)
      ensures id < |old(db).rewards| && old(db).rewards[id].isAllocated ==> r == Ok(AlreadyAllocated) && db == old(db)
      ensures id < |old(db).rewards| && !old(db).rewards[id].isAllocated ==>
                && db == CommitTx(old(db), id, reward, |db.shares|, listing, splits)
                && AddsRows(old(db).rows, db.rows, id, listing, splits)
                && var t := TrueTotals(splits);
                   r == Ok(Allocated(|listing|, t.net, t.nacho, t.poolFee, residue))
    {
      if id >= |db.rewards| {
        return Err(UnknownReward(id));
      }
      if db.rewards[id].isAllocated {
        return Ok(AlreadyAllocated);
      }
      var added := NewRows(id, listing, splits);
      var accrued := AccrueAll(db.accrued, added);
      var totals := SumTotals(splits);
      TotalsAreExact(splits, reward);
      RowsAdded(db.rows, added, id, listing, splits);
      db := db.(rewards := db.rewards[id := db.rewards[id].(isAllocated := true)],
                rows := db.rows + added,
                accrued := accrued,
                audit := db.audit + [AuditEntry(id, reward, Distributed(|listing|, totals, residue))],
                basis := db.basis[id := |db.shares|]);
      r := Ok(Allocated(|listing|, totals.net, totals.nacho, totals.poolFee, residue));
    }
  }

  // The row of one wallet: its own weight out of the window's, and its own split.
  predicate RowIs(row: AllocRow, id: nat, listed: WindowRow, total: real, split: Allocation) {
    && row.reward == id && row.wallet == listed.wallet && row.weight == listed.weight && row.windowTotal == total
    && row.split == split
  }

  ghost predicate RowsAre(rows: seq<AllocRow>, id: nat, listing: seq<WindowRow>, splits: seq<Allocation>)
    requires |listing| == |splits|
  {
    && |rows| == |listing|
    && forall i :: 0 <= i < |rows| ==> RowIs(rows[i], id, listing[i], TotalWeight(listing), splits[i])
  }

  // The rows are kept, and followed by one for each wallet of the listing.
  ghost predicate AddsRows(before: seq<AllocRow>, after: seq<AllocRow>, id: nat, listing: seq<WindowRow>,
                           splits: seq<Allocation>)
    requires |listing| == |splits|
  {
    before <= after && RowsAre(after[|before|..], id, listing, splits)
  }

  lemma RowsAdded(before: seq<AllocRow>, added: seq<AllocRow>, id: nat, listing: seq<WindowRow>,
                  splits: seq<Allocation>)
    requires |listing| == |splits| && RowsAre(added, id, listing, splits)
    ensures AddsRows(before, before + added, id, listing, splits)
  {
    assert (before + added)[|before|..] == added;
  }

  method NewRows(id: nat, listing: seq<WindowRow>, splits: seq<Allocation>) returns (rows: seq<AllocRow>)
    requires |listing| == |splits|
    ensures rows == BuildRows(id, listing, splits) && RowsAre(rows, id, listing, splits)
  {
    var total := SumWeights(listing);
    rows := [];
    for i := 0 to |listing|
      invariant rows == BuildRows(id, listing, splits)[..i]
    {
      rows := rows + [AllocRow(id, listing[i].wallet, listing[i].weight, total, splits[i])];
    }
  }

  method AccrueAll(accrued: map<WalletId, int>, rows: seq<AllocRow>) returns (r: map<WalletId, int>)
    ensures r == Accrue(accrued, rows)
  {
    r := accrued;
    for i := 0 to |rows|
      invariant r == Accrue(accrued, rows[..i])
    {
      assert rows[..i + 1][..i] == rows[..i];
      if rows[i].split.nachoAccrual > 0 {
        r := r[rows[i].wallet := AccruedOf(r, rows[i].wallet) + rows[i].split.nachoAccrual];
      }
    }
    assert rows[..|rows|] == rows;
  }
}
