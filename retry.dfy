/**
 The row selection of `retry_failed`: read the ledger written after a run and
 keep the rows whose `failure` cell is "1".
 */
module Retry {
  import opened Wrappers

  /** A ledger row with headers: column name to cell text (an empty cell is absent). */
  type LedgerRow = map<string, string>

  predicate IsFailedRow(row: LedgerRow)
  {
    "failure" in row && row["failure"] == "1"
  }

  /** `csv_data.select { |row| row["failure"] == "1" }`. */
  function FailedRows(rows: seq<LedgerRow>): (r: seq<LedgerRow>)
    ensures |r| <= |rows|
    ensures forall x | x in r :: x in rows && IsFailedRow(x)
    ensures forall x | x in rows && IsFailedRow(x) :: x in r
    ensures multiset(r) <= multiset(rows)
  {
    if rows == [] then []
    else
      var rest := FailedRows(rows[1..]);
      assert rows == [rows[0]] + rows[1..];
      if IsFailedRow(rows[0]) then [rows[0]] + rest else rest
  }

  /** Selecting distributes over concatenation, so the selected rows keep their order. */
  lemma {:induction false} FailedRowsAppend(a: seq<LedgerRow>, b: seq<LedgerRow>)
    ensures FailedRows(a + b) == FailedRows(a) + FailedRows(b)
  {
    if a == [] {
      assert a + b == b;
    } else {
      assert (a + b)[0] == a[0] && (a + b)[1..] == a[1..] + b;
      FailedRowsAppend(a[1..], b);
    }
  }

  /** Selecting twice selects nothing more. */
  lemma {:induction false} FailedRowsIdempotent(rows: seq<LedgerRow>)
    ensures FailedRows(FailedRows(rows)) == FailedRows(rows)
  {
    if rows != [] {
      FailedRowsIdempotent(rows[1..]);
      var rest := FailedRows(rows[1..]);
      if IsFailedRow(rows[0]) {
        var r := [rows[0]] + rest;
        assert r[0] == rows[0] && r[1..] == rest;
      }
    }
  }

  datatype RetryOutcome =
    | NoPreviousCsv            // the ledger file does not exist
    | AllScraped               // no row is marked as failed
    | Resubmit(rows: seq<LedgerRow>)   // rows handed to the updated-CSV handler

  /** `retry_failed`: the ledger is absent, has no failed row, or yields its failed rows in
      ledger order. */
  function RetryFailed(ledger: Option<seq<LedgerRow>>): (o: RetryOutcome)
    ensures o.NoPreviousCsv? <==> ledger.None?
    ensures o.AllScraped? <==> ledger.Some? && forall x | x in ledger.value :: !IsFailedRow(x)
    ensures o.Resubmit? ==> o.rows != [] && forall x | x in o.rows :: IsFailedRow(x)
    ensures o.Resubmit? ==> forall x | x in ledger.value && IsFailedRow(x) :: x in o.rows
    ensures o.Resubmit? ==> o.rows == FailedRows(ledger.value)
  {
    match ledger
    case None => NoPreviousCsv
    case Some(rows) =>
      var failed := FailedRows(rows);
      if failed == [] then AllScraped
      else assert failed[0] in failed; Resubmit(failed)
  }
}
