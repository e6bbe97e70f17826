/**
 A wallet's token holdings as the indexer reports them: base-unit strings, summed until the threshold.
 */
module KrcHoldings {
  import opened Wrappers
  import opened Decimal

  const U128_LIMIT: nat := 0x1_0000_0000_0000_0000_0000_0000_0000_0000

  datatype ParseError = Empty | LeadingZeros | NonDigit | TooLarge

  function ParseBaseUnits(s: string): Result<nat, ParseError> {
    if s == "" then Err(Empty)
    else if s != "0" && s[0] == '0' then Err(LeadingZeros)
    else if !AllDigits(s) then Err(NonDigit)
    else if Value(s) >= U128_LIMIT then Err(TooLarge)
    else Ok(Value(s))
  }

  // Exactly the plain decimal numerals of 128-bit numbers are accepted, each as its own number.
  lemma ParsesExactlyPrinted(s: string, n: nat)
    ensures ParseBaseUnits(s) == Ok(n) <==> n < 0x1_0000_0000_0000_0000_0000_0000_0000_0000 && s == ToDec(n)
  {
    PrintReadInverse(s, n);
  }

  datatype Row = Row(balance: string, locked: string)

  datatype FetchError = BadBalance(error: ParseError) | BadLocked(error: ParseError) | Overflow

  predicate Parses(row: Row) {
    ParseBaseUnits(row.balance).Ok? && ParseBaseUnits(row.locked).Ok?
  }

  function Units(s: string): nat {
    match ParseBaseUnits(s)
    case Ok(n) => n
    case Err(_) => 0
  }

  // What the first n rows hold together.
  function Total(rows: seq<Row>, n: nat): nat
    requires n <= |rows|
  {
    if n == 0 then 0 else Total(rows, n - 1) + Units(rows[n - 1].balance) + Units(rows[n - 1].locked)
  }

  function Balances(rows: seq<Row>, n: nat): nat
    requires n <= |rows|
  {
    if n == 0 then 0 else Balances(rows, n - 1) + Units(rows[n - 1].balance)
  }

  function LockedUnits(rows: seq<Row>, n: nat): nat
    requires n <= |rows|
  {
    if n == 0 then 0 else LockedUnits(rows, n - 1) + Units(rows[n - 1].locked)
  }

  // A holding is everything that is free and everything that is locked.
  lemma {:induction false} TotalIsFreeAndLocked(rows: seq<Row>, n: nat)
    requires n <= |rows|
    ensures Total(rows, n) == Balances(rows, n) + LockedUnits(rows, n)
  {
    if n > 0 {
      TotalIsFreeAndLocked(rows, n - 1);
    }
  }

  // The first n rows can be read and summed in 128 bits.
  predicate Clean(rows: seq<Row>, n: nat) {
    n <= |rows| && (forall i :: 0 <= i < n ==> Parses(rows[i])) && Total(rows, n) < U128_LIMIT
  }

  lemma {:induction false} TotalGrows(rows: seq<Row>, m: nat, n: nat)
    requires m <= n <= |rows|
    ensures Total(rows, m) <= Total(rows, n)
    decreases n
  {
    if m < n {
      TotalGrows(rows, m, n - 1);
    }
  }

  lemma CleanPrefix(rows: seq<Row>, m: nat, n: nat)
    requires Clean(rows, n) && m <= n
    ensures Clean(rows, m)
  {
    TotalGrows(rows, m, n);
  }

  // Enough was found in a clean run of rows; the bare total counts only when there are no rows.
  ghost predicate ReachedBy(rows: seq<Row>, threshold: nat, n: nat) {
    Clean(rows, n) && (n > 0 || rows == []) && Total(rows, n) >= threshold
  }

  // Why a row could not be taken.
  function RowError(row: Row): FetchError {
    match (ParseBaseUnits(row.balance), ParseBaseUnits(row.locked))
    case (Err(e), _) => BadBalance(e)
    case (Ok(_), Err(e)) => BadLocked(e)
    case (Ok(_), Ok(_)) => Overflow
  }

  // Row `i` is the first that cannot be taken, and the rows before it never reached the threshold.
  ghost predicate FailsAt(rows: seq<Row>, threshold: nat, i: nat) {
    && i < |rows| && Clean(rows, i) && !Clean(rows, i + 1)
    && (forall n :: 0 < n <= i ==> Total(rows, n) < threshold)
  }

  lemma FailsOnce(rows: seq<Row>, threshold: nat, i: nat, j: nat)
    requires FailsAt(rows, threshold, i) && FailsAt(rows, threshold, j)
    ensures i == j
  {
    if i < j {
      CleanPrefix(rows, i + 1, j);
    } else if j < i {
      CleanPrefix(rows, j + 1, i);
    }
  }

  /**
   The summing loop: elite as soon as the rows read so far reach the threshold, an error at the first
   row that cannot be read or no longer fits, otherwise not elite.
   */
  method SumRows(rows: seq<Row>, threshold: nat) returns (r: Result<bool, FetchError>)
    ensures r == Ok(true) <==> exists n :: ReachedBy(rows, threshold, n)
    ensures r == Ok(false) <==> Clean(rows, |rows|) && Total(rows, |rows|) < threshold
    ensures r.Err? <==> exists i: nat :: FailsAt(rows, threshold, i)
    ensures forall i: nat :: FailsAt(rows, threshold, i) ==> r == Err(RowError(rows[i]))
  {
    var total, i := 0, 0;
    while i < |rows|
      invariant 0 <= i <= |rows|
      invariant Clean(rows, i) && total == Total(rows, i)
      invariant forall n :: 0 < n <= i ==> Total(rows, n) < threshold
    {
      var next := AddRow(total, rows[i]);
      AddRowIsClean(rows, i, total);
      if next.Err? {
        assert FailsAt(rows, threshold, i);
        StopsAt(rows, threshold, i);
        return Err(next.error);
      }
      total := next.value;
      i := i + 1;
      if total >= threshold {
        Reached(rows, threshold, i);
        return Ok(true);
      }
    }
    WholeSum(rows, threshold);
    NeverFails(rows, threshold, |rows|);
    return Ok(total >= threshold);
  }

  // One row of the sum: both amounts parsed, then added with overflow checks.
  function AddRow(total: nat, row: Row): Result<nat, FetchError> {
    match ParseBaseUnits(row.balance)
    case Err(e) => Err(BadBalance(e))
    case Ok(balance) =>
      match ParseBaseUnits(row.locked)
      case Err(e) => Err(BadLocked(e))
      case Ok(locked) =>
        if total + balance >= U128_LIMIT || total + balance + locked >= U128_LIMIT then Err(Overflow)
        else Ok(total + balance + locked)
  }

  lemma AddRowIsClean(rows: seq<Row>, i: nat, total: nat)
    requires i < |rows| && Clean(rows, i) && total == Total(rows, i)
    ensures var next := AddRow(total, rows[i]);
      if next.Ok? then Clean(rows, i + 1) && next.value == Total(rows, i + 1)
      else !Clean(rows, i + 1) && next.error == RowError(rows[i])
  {
  }

  lemma Reached(rows: seq<Row>, threshold: nat, i: nat)
    requires i > 0 && Clean(rows, i) && Total(rows, i) >= threshold
    ensures ReachedBy(rows, threshold, i)
    ensures Total(rows, |rows|) >= threshold
    ensures forall j: nat :: !FailsAt(rows, threshold, j)
  {
    TotalGrows(rows, i, |rows|);
    NeverFails(rows, threshold, i);
  }

  // Rows that were all taken, and then enough or no more of them: no row fails.
  lemma NeverFails(rows: seq<Row>, threshold: nat, n: nat)
    requires Clean(rows, n) && (n == |rows| || (n > 0 && Total(rows, n) >= threshold))
    ensures forall i: nat :: !FailsAt(rows, threshold, i)
  {
    forall i | 0 <= i < n
      ensures !FailsAt(rows, threshold, i)
    {
      CleanPrefix(rows, i + 1, n);
    }
  }

  lemma WholeSum(rows: seq<Row>, threshold: nat)
    requires Clean(rows, |rows|)
    requires forall n :: 0 < n <= |rows| ==> Total(rows, n) < threshold
    ensures (exists n :: ReachedBy(rows, threshold, n)) <==> Total(rows, |rows|) >= threshold
  {
    CleanRowsDecideByTotal(rows, threshold);
  }

  // A row that cannot be taken ends the sum.
  lemma StopsAt(rows: seq<Row>, threshold: nat, i: nat)
    requires FailsAt(rows, threshold, i)
    ensures !Clean(rows, |rows|)
    ensures forall n :: !ReachedBy(rows, threshold, n)
    ensures forall j: nat :: FailsAt(rows, threshold, j) ==> j == i
  {
    forall j: nat | FailsAt(rows, threshold, j)
      ensures j == i
    {
      FailsOnce(rows, threshold, i, j);
    }
    forall n | i < n
      ensures !Clean(rows, n)
    {
      if Clean(rows, n) {
        CleanPrefix(rows, i + 1, n);
      }
    }
  }

  // Over rows that can all be read and summed, the early exit changes nothing: the answer is whether
  // the whole holding reaches the threshold.
  lemma CleanRowsDecideByTotal(rows: seq<Row>, threshold: nat)
    requires Clean(rows, |rows|)
    ensures (exists n :: ReachedBy(rows, threshold, n)) <==> Total(rows, |rows|) >= threshold
  {
    if Total(rows, |rows|) >= threshold {
      assert ReachedBy(rows, threshold, |rows|);
    }
    forall n | ReachedBy(rows, threshold, n)
      ensures Total(rows, |rows|) >= threshold
    {
      TotalGrows(rows, n, |rows|);
    }
  }
}
