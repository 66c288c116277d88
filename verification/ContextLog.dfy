/**
 Aggregation of context-efficiency log rows. Counters saturate, so the questions are whether merging
 per-root aggregates equals aggregating all rows at once, and in what order rows may come.
 */
module ContextLog {
  import opened Wrappers
  import Ordering

  const U64_MAX := 0xFFFF_FFFF_FFFF_FFFF
  const I64_MAX := 0x7FFF_FFFF_FFFF_FFFF
  const I64_MIN := -0x8000_0000_0000_0000

  type U64 = x: int | 0 <= x <= U64_MAX
  type I64 = x: int | I64_MIN <= x <= I64_MAX

  function Plus(a: U64, b: U64): U64 {
    if a + b > U64_MAX then U64_MAX else a + b
  }

  function PlusSigned(a: I64, b: I64): I64 {
    if a + b > I64_MAX then I64_MAX else if a + b < I64_MIN then I64_MIN else a + b
  }

  function Max(a: U64, b: U64): U64 {
    if a < b then b else a
  }

  datatype Metrics = Metrics(
    indexedReadableFiles: U64,
    indexedReadableBytes: U64,
    queryDurationMs: Option<U64>,
    candidateInputCount: Option<U64>,
    candidateOutputCount: Option<U64>,
    returnedMatchCount: Option<U64>,
    returnedUniquePaths: Option<U64>,
    returnedUniqueFileBytes: Option<U64>,
    returnedSourceBytes: Option<U64>,
    savedBytes: Option<I64>)

  datatype Row = Row(timestamp: Option<int>, repositoryId: string, tool: string, metrics: Metrics)

  datatype Aggregate = Aggregate(
    events: U64,
    indexedReadableFilesMax: U64,
    indexedReadableBytesMax: U64,
    queryDurationMsTotal: U64,
    queryDurationMsMax: U64,
    candidateInputCount: U64,
    candidateOutputCount: U64,
    returnedMatchCount: U64,
    returnedUniquePaths: U64,
    returnedUniqueFileBytes: U64,
    returnedSourceBytes: U64,
    savedBytes: I64)

  function Zero(): Aggregate {
    Aggregate(0, 0, 0, 0, 0, 0, 0, 0, 0, 0, 0, 0)
  }

  /** What one row contributes. */
  function Single(row: Row): Aggregate {
    var m := row.metrics;
    Aggregate(
      1, m.indexedReadableFiles, m.indexedReadableBytes, m.queryDurationMs.GetOr(0), m.queryDurationMs.GetOr(0),
      m.candidateInputCount.GetOr(0), m.candidateOutputCount.GetOr(0), m.returnedMatchCount.GetOr(0),
      m.returnedUniquePaths.GetOr(0), m.returnedUniqueFileBytes.GetOr(0), m.returnedSourceBytes.GetOr(0),
      m.savedBytes.GetOr(0))
  }

  function Merged(a: Aggregate, b: Aggregate): Aggregate {
    Aggregate(
      Plus(a.events, b.events),
      Max(a.indexedReadableFilesMax, b.indexedReadableFilesMax),
      Max(a.indexedReadableBytesMax, b.indexedReadableBytesMax),
      Plus(a.queryDurationMsTotal, b.queryDurationMsTotal),
      Max(a.queryDurationMsMax, b.queryDurationMsMax),
      Plus(a.candidateInputCount, b.candidateInputCount),
      Plus(a.candidateOutputCount, b.candidateOutputCount),
      Plus(a.returnedMatchCount, b.returnedMatchCount),
      Plus(a.returnedUniquePaths, b.returnedUniquePaths),
      Plus(a.returnedUniqueFileBytes, b.returnedUniqueFileBytes),
      Plus(a.returnedSourceBytes, b.returnedSourceBytes),
      PlusSigned(a.savedBytes, b.savedBytes))
  }

  /** The aggregate of rows added one after another. */
  function Summary(rows: seq<Row>): Aggregate {
    if rows == [] then Zero() else Merged(Summary(rows[..|rows| - 1]), Single(rows[|rows| - 1]))
  }

  class ContextLogAggregate {
    var events: U64
    var indexedReadableFilesMax: U64
    var indexedReadableBytesMax: U64
    var queryDurationMsTotal: U64
    var queryDurationMsMax: U64
    var candidateInputCount: U64
    var candidateOutputCount: U64
    var returnedMatchCount: U64
    var returnedUniquePaths: U64
    var returnedUniqueFileBytes: U64
    var returnedSourceBytes: U64
    var savedBytes: I64

    function Value(): Aggregate
      reads this
    {
      Aggregate(
        events, indexedReadableFilesMax, indexedReadableBytesMax, queryDurationMsTotal, queryDurationMsMax,
        candidateInputCount, candidateOutputCount, returnedMatchCount, returnedUniquePaths,
        returnedUniqueFileBytes, returnedSourceBytes, savedBytes)
    }

    constructor From(value: Aggregate)
      ensures Value() == value
    {
      events, indexedReadableFilesMax, indexedReadableBytesMax :=
        value.events, value.indexedReadableFilesMax, value.indexedReadableBytesMax;
      queryDurationMsTotal, queryDurationMsMax := value.queryDurationMsTotal, value.queryDurationMsMax;
      candidateInputCount, candidateOutputCount, returnedMatchCount :=
        value.candidateInputCount, value.candidateOutputCount, value.returnedMatchCount;
      returnedUniquePaths, returnedUniqueFileBytes := value.returnedUniquePaths, value.returnedUniqueFileBytes;
      returnedSourceBytes, savedBytes := value.returnedSourceBytes, value.savedBytes;
    }

    constructor ()
      ensures Value() == Summary([])
    {
      events, indexedReadableFilesMax, indexedReadableBytesMax := 0, 0, 0;
      queryDurationMsTotal, queryDurationMsMax := 0, 0;
      candidateInputCount, candidateOutputCount, returnedMatchCount := 0, 0, 0;
      returnedUniquePaths, returnedUniqueFileBytes, returnedSourceBytes, savedBytes := 0, 0, 0, 0;
    }

    method AddRow(row: Row)
      modifies this
      ensures Value() == Merged(old(Value()), Single(row))
    {
      hide Plus, Max, PlusSigned;
      var m := row.metrics;
      var duration := m.queryDurationMs.GetOr(0);
      AddWork(1, m.indexedReadableFiles, m.indexedReadableBytes, duration, duration,
              m.candidateInputCount.GetOr(0), m.candidateOutputCount.GetOr(0));
      AddResults(m.returnedMatchCount.GetOr(0), m.returnedUniquePaths.GetOr(0), m.returnedUniqueFileBytes.GetOr(0),
                 m.returnedSourceBytes.GetOr(0), m.savedBytes.GetOr(0));
    }

    method Merge(other: ContextLogAggregate)
      modifies this
      ensures Value() == Merged(old(Value()), old(other.Value()))
    {
      hide Plus, Max, PlusSigned;
      AddWork(other.events, other.indexedReadableFilesMax, other.indexedReadableBytesMax,
              other.queryDurationMsTotal, other.queryDurationMsMax, other.candidateInputCount,
                other.candidateOutputCount);
      AddResults(other.returnedMatchCount, other.returnedUniquePaths, other.returnedUniqueFileBytes,
                 other.returnedSourceBytes, other.savedBytes);
    }

    /** The counters of the work done: summed, or the larger of the two. */
    method AddWork(count: U64, files: U64, bytes: U64, duration: U64, durationMax: U64, input: U64, output: U64)
      modifies this`events, this`indexedReadableFilesMax, this`indexedReadableBytesMax
      modifies this`queryDurationMsTotal, this`queryDurationMsMax, this`candidateInputCount, this`candidateOutputCount
      ensures events == Plus(old(events), count)
      ensures indexedReadableFilesMax == Max(old(indexedReadableFilesMax), files)
      ensures indexedReadableBytesMax == Max(old(indexedReadableBytesMax), bytes)
      ensures queryDurationMsTotal == Plus(old(queryDurationMsTotal), duration)
      ensures queryDurationMsMax == Max(old(queryDurationMsMax), durationMax)
      ensures candidateInputCount == Plus(old(candidateInputCount), input)
      ensures candidateOutputCount == Plus(old(candidateOutputCount), output)
    {
      hide Plus, Max;
      events := Plus(events, count);
      indexedReadableFilesMax := Max(indexedReadableFilesMax, files);
      indexedReadableBytesMax := Max(indexedReadableBytesMax, bytes);
      queryDurationMsTotal := Plus(queryDurationMsTotal, duration);
      queryDurationMsMax := Max(queryDurationMsMax, durationMax);
      candidateInputCount := Plus(candidateInputCount, input);
      candidateOutputCount := Plus(candidateOutputCount, output);
    }

    /** The counters of what was returned and saved. */
    method AddResults(matches: U64, paths: U64, fileBytes: U64, sourceBytes: U64, saved: I64)
      modifies this`returnedMatchCount, this`returnedUniquePaths, this`returnedUniqueFileBytes
      modifies this`returnedSourceBytes, this`savedBytes
      ensures returnedMatchCount == Plus(old(returnedMatchCount), matches)
      ensures returnedUniquePaths == Plus(old(returnedUniquePaths), paths)
      ensures returnedUniqueFileBytes == Plus(old(returnedUniqueFileBytes), fileBytes)
      ensures returnedSourceBytes == Plus(old(returnedSourceBytes), sourceBytes)
      ensures savedBytes == PlusSigned(old(savedBytes), saved)
    {
      hide Plus, PlusSigned;
      returnedMatchCount := Plus(returnedMatchCount, matches);
      returnedUniquePaths := Plus(returnedUniquePaths, paths);
      returnedUniqueFileBytes := Plus(returnedUniqueFileBytes, fileBytes);
      returnedSourceBytes := Plus(returnedSourceBytes, sourceBytes);
      savedBytes := PlusSigned(savedBytes, saved);
    }
  }

  // ---- the unsigned fields ----

  /** Every field but the signed one. */
  function Unsigned(a: Aggregate): Aggregate {
    a.(savedBytes := 0)
  }

  lemma PlusAssociative(a: U64, b: U64, c: U64)
    ensures Plus(Plus(a, b), c) == Plus(a, Plus(b, c))
    ensures Max(Max(a, b), c) == Max(a, Max(b, c))
  {}

  lemma MergedAssociative(a: Aggregate, b: Aggregate, c: Aggregate)
    ensures Unsigned(Merged(Merged(a, b), c)) == Unsigned(Merged(a, Merged(b, c)))
  {
    hide Plus, Max, PlusSigned;
    PlusAssociative(a.events, b.events, c.events);
    PlusAssociative(a.indexedReadableFilesMax, b.indexedReadableFilesMax, c.indexedReadableFilesMax);
    PlusAssociative(a.indexedReadableBytesMax, b.indexedReadableBytesMax, c.indexedReadableBytesMax);
    PlusAssociative(a.queryDurationMsTotal, b.queryDurationMsTotal, c.queryDurationMsTotal);
    PlusAssociative(a.queryDurationMsMax, b.queryDurationMsMax, c.queryDurationMsMax);
    PlusAssociative(a.candidateInputCount, b.candidateInputCount, c.candidateInputCount);
    PlusAssociative(a.candidateOutputCount, b.candidateOutputCount, c.candidateOutputCount);
    PlusAssociative(a.returnedMatchCount, b.returnedMatchCount, c.returnedMatchCount);
    PlusAssociative(a.returnedUniquePaths, b.returnedUniquePaths, c.returnedUniquePaths);
    PlusAssociative(a.returnedUniqueFileBytes, b.returnedUniqueFileBytes, c.returnedUniqueFileBytes);
    PlusAssociative(a.returnedSourceBytes, b.returnedSourceBytes, c.returnedSourceBytes);
  }

  lemma MergedCommutative(a: Aggregate, b: Aggregate)
    ensures Merged(a, b) == Merged(b, a)
  {}

  lemma MergedUnsigned(a: Aggregate, b: Aggregate)
    ensures Unsigned(Merged(a, b)) == Unsigned(Merged(Unsigned(a), Unsigned(b)))
  {}

  /** Merging per-root summaries is summarising the rows of both roots. */
  lemma {:induction false} MergeIsConcatenation(a: seq<Row>, b: seq<Row>)
    ensures Unsigned(Merged(Summary(a), Summary(b))) == Unsigned(Summary(a + b))
  {
    hide Merged;
    if b == [] {
      assert a + b == a;
      MergedZero(Summary(a));
    } else {
      var n := |b| - 1;
      MergeIsConcatenation(a, b[..n]);
      assert (a + b)[..|a| + n] == a + b[..n];
      MergedAssociative(Summary(a), Summary(b[..n]), Single(b[n]));
      MergedUnsigned(Merged(Summary(a), Summary(b[..n])), Single(b[n]));
      MergedUnsigned(Summary(a + b[..n]), Single(b[n]));
    }
  }

  lemma MergedZero(a: Aggregate)
    ensures Merged(a, Zero()) == a
  {}

  lemma SummaryAppend(rows: seq<Row>, row: Row)
    ensures Summary(rows + [row]) == Merged(Summary(rows), Single(row))
  {
    assert (rows + [row])[..|rows|] == rows;
  }

  /** A row may be taken out of the middle and merged last. */
  lemma SummaryRemove(rows: seq<Row>, k: nat)
    requires k < |rows|
    ensures Unsigned(Summary(rows)) == Unsigned(Merged(Summary(rows[..k] + rows[k + 1..]), Single(rows[k])))
  {
    hide Merged, Summary, Unsigned;
    var p, x, q := rows[..k], rows[k], rows[k + 1..];
    assert rows == (p + [x]) + q;
    SummaryAppend(p, x);
    MergeIsConcatenation(p + [x], q);
    MergeIsConcatenation(p, q);
    MergedAssociative(Summary(p), Single(x), Summary(q));
    MergedCommutative(Single(x), Summary(q));
    MergedAssociative(Summary(p), Summary(q), Single(x));
    MergedUnsigned(Merged(Summary(p), Summary(q)), Single(x));
    MergedUnsigned(Summary(p + q), Single(x));
  }

  /** The order of rows does not matter to any unsigned or maximum field. */
  lemma {:induction false} OrderIrrelevant(a: seq<Row>, b: seq<Row>)
    requires multiset(a) == multiset(b)
    ensures Unsigned(Summary(a)) == Unsigned(Summary(b))
  {
    hide Merged, Summary;
    assert |a| == |multiset(a)| == |multiset(b)| == |b|;
    if a == [] {
      assert a == b;
    } else {
      assert a[0] in multiset(b);
      var k :| 0 <= k < |b| && b[k] == a[0];
      var restA, restB := a[..0] + a[0 + 1..], b[..k] + b[k + 1..];
      Ordering.RemoveSame(a, b, k);
      assert restA == a[1..];
      OrderIrrelevant(restA, restB);
      SummaryRemove(a, 0);
      SummaryRemove(b, k);
      MergedUnsigned(Summary(restA), Single(a[0]));
      MergedUnsigned(Summary(restB), Single(a[0]));
    }
  }

  /** The unbounded total of one field. */
  function Total(field: Row -> int, rows: seq<Row>): int {
    if rows == [] then 0 else Total(field, rows[..|rows| - 1]) + field(rows[|rows| - 1])
  }

  /** A metric that is not reported counts as none. */
  function Reported(metric: Option<U64>): U64 {
    match metric
    case Some(x) => x
    case None => 0
  }

  function Truncated(total: nat): U64 {
    if total > 18446744073709551615 then 18446744073709551615 else total
  }

  /** A saturating counter is the true total, cut off at the largest value. */
  lemma {:induction false} CountersAreTotals(rows: seq<Row>)
    ensures Summary(rows).events == Truncated(|rows|)
    ensures var total := Total((r: Row) => Reported(r.metrics.queryDurationMs), rows);
            total >= 0 && Summary(rows).queryDurationMsTotal == Truncated(total)
    ensures var total := Total((r: Row) => Reported(r.metrics.candidateInputCount), rows);
            total >= 0 && Summary(rows).candidateInputCount == Truncated(total)
    ensures var total := Total((r: Row) => Reported(r.metrics.candidateOutputCount), rows);
            total >= 0 && Summary(rows).candidateOutputCount == Truncated(total)
    ensures var total := Total((r: Row) => Reported(r.metrics.returnedMatchCount), rows);
            total >= 0 && Summary(rows).returnedMatchCount == Truncated(total)
    ensures var total := Total((r: Row) => Reported(r.metrics.returnedUniquePaths), rows);
            total >= 0 && Summary(rows).returnedUniquePaths == Truncated(total)
    ensures var total := Total((r: Row) => Reported(r.metrics.returnedUniqueFileBytes), rows);
            total >= 0 && Summary(rows).returnedUniqueFileBytes == Truncated(total)
    ensures var total := Total((r: Row) => Reported(r.metrics.returnedSourceBytes), rows);
            total >= 0 && Summary(rows).returnedSourceBytes == Truncated(total)
  {
    if rows != [] {
      CountersAreTotals(rows[..|rows| - 1]);
    }
  }

  /** Each maximum field bounds its metric on every row, and some row attains it. */
  lemma {:induction false} MaximaAreLargest(rows: seq<Row>)
    ensures var s := Summary(rows);
      && (forall i :: 0 <= i < |rows| ==> rows[i].metrics.indexedReadableFiles <= s.indexedReadableFilesMax)
      && (forall i :: 0 <= i < |rows| ==> rows[i].metrics.indexedReadableBytes <= s.indexedReadableBytesMax)
      && (forall i :: 0 <= i < |rows| ==> Reported(rows[i].metrics.queryDurationMs) <= s.queryDurationMsMax)
    ensures var s := Summary(rows);
      rows != [] ==>
        && (exists i :: 0 <= i < |rows| && rows[i].metrics.indexedReadableFiles == s.indexedReadableFilesMax)
        && (exists i :: 0 <= i < |rows| && rows[i].metrics.indexedReadableBytes == s.indexedReadableBytesMax)
        && (exists i :: 0 <= i < |rows| && Reported(rows[i].metrics.queryDurationMs) == s.queryDurationMsMax)
  {
    if rows != [] {
      var n := |rows| - 1;
      MaximaAreLargest(rows[..n]);
      assert forall i :: 0 <= i < n ==> rows[..n][i] == rows[i];
      assert rows[n].metrics.indexedReadableFiles == Summary(rows).indexedReadableFilesMax
          || (n > 0 && Summary(rows[..n]).indexedReadableFilesMax == Summary(rows).indexedReadableFilesMax);
    }
  }

  // ---- the signed field ----

  function Saved(row: Row): I64 {
    match row.metrics.savedBytes
    case Some(x) => x
    case None => 0
  }

  function TotalSaved(rows: seq<Row>): int {
    if rows == [] then 0 else TotalSaved(rows[..|rows| - 1]) + Saved(rows[|rows| - 1])
  }

  ghost predicate NoLoss(rows: seq<Row>) {
    forall i :: 0 <= i < |rows| ==> Saved(rows[i]) >= 0
  }

  /** With no negative contribution the signed counter is its true total, cut off at the largest value. */
  lemma {:induction false} SavedIsTotal(rows: seq<Row>)
    requires NoLoss(rows)
    ensures TotalSaved(rows) >= 0
    ensures Summary(rows).savedBytes ==
              if TotalSaved(rows) > 9223372036854775807 then 9223372036854775807 else TotalSaved(rows)
  {
    if rows != [] {
      SavedIsTotal(rows[..|rows| - 1]);
    }
  }

  lemma {:induction false} TotalSavedConcat(a: seq<Row>, b: seq<Row>)
    ensures TotalSaved(a + b) == TotalSaved(a) + TotalSaved(b)
  {
    if b == [] {
      assert a + b == a;
    } else {
      assert (a + b)[..|a| + |b| - 1] == a + b[..|b| - 1];
      TotalSavedConcat(a, b[..|b| - 1]);
    }
  }

  /** Then merging is summarising all rows, the signed field included. */
  lemma MergeIsConcatenationEntirely(a: seq<Row>, b: seq<Row>)
    requires NoLoss(a) && NoLoss(b)
    ensures Merged(Summary(a), Summary(b)) == Summary(a + b)
  {
    MergeIsConcatenation(a, b);
    SavedIsTotal(a);
    SavedIsTotal(b);
    TotalSavedConcat(a, b);
    SavedIsTotal(a + b);
    assert Merged(Summary(a), Summary(b)) == Unsigned(Merged(Summary(a),
                                                             Summary(b))).(savedBytes := Summary(a + b).savedBytes);
  }

  lemma {:induction false} TotalSavedOrder(a: seq<Row>, b: seq<Row>)
    requires multiset(a) == multiset(b)
    ensures TotalSaved(a) == TotalSaved(b)
  {
    assert |a| == |multiset(a)| == |multiset(b)| == |b|;
    if a != [] {
      assert a[0] in multiset(b);
      var k :| 0 <= k < |b| && b[k] == a[0];
      Ordering.RemoveSame(a, b, k);
      TotalSavedOrder(a[1..], b[..k] + b[k + 1..]);
      TotalSavedRemove(a, 0);
      TotalSavedRemove(b, k);
      assert a[..0] + a[0 + 1..] == a[1..];
    }
  }

  lemma TotalSavedRemove(rows: seq<Row>, k: nat)
    requires k < |rows|
    ensures TotalSaved(rows) == TotalSaved(rows[..k] + rows[k + 1..]) + Saved(rows[k])
  {
    hide TotalSaved;
    var p, x, q := rows[..k], rows[k], rows[k + 1..];
    assert rows == (p + [x]) + q;
    TotalSavedConcat(p + [x], q);
    TotalSavedConcat(p, [x]);
    TotalSavedConcat(p, q);
    TotalSavedOne(x);
  }

  lemma TotalSavedOne(row: Row)
    ensures TotalSaved([row]) == Saved(row)
  {
    assert [row][..0] == [];
  }

  /** And the order of rows does not matter to any field. */
  lemma OrderIrrelevantEntirely(a: seq<Row>, b: seq<Row>)
    requires multiset(a) == multiset(b) && NoLoss(a)
    ensures Summary(a) == Summary(b)
  {
    forall i | 0 <= i < |b| ensures Saved(b[i]) >= 0 { assert b[i] in multiset(a); }
    OrderIrrelevant(a, b);
    TotalSavedOrder(a, b);
    SavedIsTotal(a);
    SavedIsTotal(b);
    assert Summary(a) == Unsigned(Summary(a)).(savedBytes := Summary(b).savedBytes);
  }

  lemma SavedStep(rows: seq<Row>)
    ensures Summary(rows).savedBytes ==
            if rows == [] then 0 else PlusSigned(Summary(rows[..|rows| - 1]).savedBytes, Saved(rows[|rows| - 1]))
  {}

  /** While no running total leaves the range, the signed counter is exact whatever the signs. */
  lemma {:induction false} SavedExactInRange(rows: seq<Row>)
    requires forall n :: 0 <= n <= |rows| ==> I64_MIN <= TotalSaved(rows[..n]) <= I64_MAX
    ensures Summary(rows).savedBytes == TotalSaved(rows)
  {
    hide Summary, Merged;
    SavedStep(rows);
    assert rows[..|rows|] == rows;
    if rows != [] {
      var n := |rows| - 1;
      forall i | 0 <= i <= n
        ensures I64_MIN <= TotalSaved(rows[..n][..i]) <= I64_MAX
      {
        assert rows[..n][..i] == rows[..i];
      }
      SavedExactInRange(rows[..n]);
    }
  }

  /** The signed counter is exact after every row just when no running total leaves the range. */
  lemma SavedExactIff(rows: seq<Row>)
    ensures (forall n :: 0 <= n <= |rows| ==> Summary(rows[..n]).savedBytes == TotalSaved(rows[..n]))
       <==> (forall n :: 0 <= n <= |rows| ==> I64_MIN <= TotalSaved(rows[..n]) <= I64_MAX)
  {
    if forall n :: 0 <= n <= |rows| ==> I64_MIN <= TotalSaved(rows[..n]) <= I64_MAX {
      forall n | 0 <= n <= |rows|
        ensures Summary(rows[..n]).savedBytes == TotalSaved(rows[..n])
      {
        forall i | 0 <= i <= n
          ensures I64_MIN <= TotalSaved(rows[..n][..i]) <= I64_MAX
        {
          assert rows[..n][..i] == rows[..i];
        }
        SavedExactInRange(rows[..n]);
      }
    }
    if forall n :: 0 <= n <= |rows| ==> Summary(rows[..n]).savedBytes == TotalSaved(rows[..n]) {
      forall n | 0 <= n <= |rows|
        ensures I64_MIN <= TotalSaved(rows[..n]) <= I64_MAX
      {
        assert Summary(rows[..n]).savedBytes == TotalSaved(rows[..n]);
      }
    }
  }

  function SavedRow(saved: I64): Row {
    Row(None, "", "", Metrics(0, 0, None, None, None, None, None, None, None, Some(saved)))
  }

  /** With a negative contribution past saturation, merging and concatenating part ways. */
  lemma LossAfterSaturation()
    ensures var a, b := [SavedRow(I64_MAX)], [SavedRow(1), SavedRow(-1)];
            Merged(Summary(a), Summary(b)).savedBytes == I64_MAX && Summary(a + b).savedBytes == I64_MAX - 1
  {
    var a, b := [SavedRow(I64_MAX)], [SavedRow(1), SavedRow(-1)];
    assert a[..0] == [] && b[..1] == [SavedRow(1)] && b[..1][..0] == [];
    var ab := a + b;
    assert ab[..2][..1] == a && ab[..2] == a + [SavedRow(1)];
    assert Summary(a).savedBytes == I64_MAX;
    assert Summary(ab[..2]).savedBytes == I64_MAX;
    assert Summary(b[..1]).savedBytes == 1;
  }

  // ---- when the signed field may be merged ----

  /** The signed counter after adding rows one by one to a counter at `x`. */
  function Accumulated(x: I64, rows: seq<Row>): I64 {
    if rows == [] then x else PlusSigned(Accumulated(x, rows[..|rows| - 1]), Saved(rows[|rows| - 1]))
  }

  lemma {:induction false} SavedIsAccumulated(a: seq<Row>, b: seq<Row>)
    ensures Summary(a + b).savedBytes == Accumulated(Summary(a).savedBytes, b)
  {
    hide Merged;
    if b == [] {
      assert a + b == a;
    } else {
      assert (a + b)[..|a| + |b| - 1] == a + b[..|b| - 1];
      SavedIsAccumulated(a, b[..|b| - 1]);
      SavedStep(a + b);
    }
  }

  /** Every running total lies between zero and the final total, which fits. */
  ghost predicate TotalsBetween(rows: seq<Row>) {
    var total := TotalSaved(rows);
    && I64_MIN <= total <= I64_MAX
    && ((forall n :: 0 <= n <= |rows| ==> 0 <= TotalSaved(rows[..n]) <= total)
        || (forall n :: 0 <= n <= |rows| ==> total <= TotalSaved(rows[..n]) <= 0))
  }

  /** Counters that start in order stay in order and never move apart. */
  lemma {:induction false} NeverApart(x: I64, y: I64, rows: seq<Row>)
    requires x <= y
    ensures 0 <= Accumulated(y, rows) - Accumulated(x, rows) <= y - x
  {
    if rows != [] {
      NeverApart(x, y, rows[..|rows| - 1]);
    }
  }

  /** Without saturation on the way the counter is exact. */
  lemma {:induction false} ExactWithin(x: I64, rows: seq<Row>)
    requires forall n :: 0 <= n <= |rows| ==> I64_MIN <= x + TotalSaved(rows[..n]) <= I64_MAX
    ensures Accumulated(x, rows) == x + TotalSaved(rows)
  {
    assert rows[..|rows|] == rows;
    if rows != [] {
      var last := |rows| - 1;
      forall n | 0 <= n <= last
        ensures I64_MIN <= x + TotalSaved(rows[..last][..n]) <= I64_MAX
      {
        assert rows[..last][..n] == rows[..n];
      }
      ExactWithin(x, rows[..last]);
    }
  }

  /** Two counters that end as far apart as they began never saturated. */
  lemma {:induction false} KeptApart(x: I64, y: I64, rows: seq<Row>, n: nat)
    requires x < y && Accumulated(y, rows) - Accumulated(x, rows) == y - x && n <= |rows|
    ensures I64_MIN <= x + TotalSaved(rows[..n]) && y + TotalSaved(rows[..n]) <= I64_MAX
    ensures n == |rows| ==> Accumulated(x, rows) == x + TotalSaved(rows) && Accumulated(y, rows) == y + TotalSaved(rows)
    decreases |rows|
  {
    if rows == [] {
      assert rows[..n] == [];
    } else {
      var last := |rows| - 1;
      var pre := rows[..last];
      NeverApart(x, y, pre);
      if n <= last {
        assert pre[..n] == rows[..n];
        KeptApart(x, y, pre, n);
      } else {
        assert rows[..n] == rows && pre[..last] == pre;
        KeptApart(x, y, pre, last);
      }
    }
  }

  /** Merging a summary into a counter at `x` gives what adding its rows would. */
  ghost predicate MergesInto(rows: seq<Row>, x: I64) {
    PlusSigned(x, Accumulated(0, rows)) == Accumulated(x, rows)
  }

  lemma BetweenMerges(rows: seq<Row>, x: I64)
    requires TotalsBetween(rows)
    ensures MergesInto(rows, x)
  {
    var total := TotalSaved(rows);
    assert rows[..|rows|] == rows && rows[..0] == [];
    ExactWithin(0, rows);
    if I64_MIN <= x + total <= I64_MAX {
      ExactWithin(x, rows);
    } else if x + total > I64_MAX {
      ExactWithin(I64_MAX - total, rows);
      NeverApart(I64_MAX - total, x, rows);
    } else {
      ExactWithin(I64_MIN - total, rows);
      NeverApart(x, I64_MIN - total, rows);
    }
  }

  lemma MergesBetween(rows: seq<Row>)
    requires forall x: I64 :: MergesInto(rows, x)
    ensures TotalsBetween(rows)
  {
    var merged := Accumulated(0, rows);
    var low, high :=
      if merged >= 0 then I64_MIN else I64_MIN - merged, if merged >= 0 then I64_MAX - merged else I64_MAX;
    assert MergesInto(rows, low) && MergesInto(rows, high);
    forall n | 0 <= n <= |rows|
      ensures I64_MIN <= low + TotalSaved(rows[..n]) && high + TotalSaved(rows[..n]) <= I64_MAX
    {
      KeptApart(low, high, rows, n);
    }
    KeptApart(low, high, rows, |rows|);
    assert TotalSaved(rows) == merged;
  }

  /**
   The signed field of a summary may be merged after any other rows exactly when the running totals of its
   own rows stay between zero and their final total, which fits.
   */
  lemma SavedMergesIff(b: seq<Row>)
    ensures (forall a: seq<Row> :: Merged(Summary(a), Summary(b)).savedBytes == Summary(a + b).savedBytes) <==>
        TotalsBetween(b)
  {
    assert [] + b == b;
    SavedIsAccumulated([], b);
    if TotalsBetween(b) {
      forall a: seq<Row>
        ensures Merged(Summary(a), Summary(b)).savedBytes == Summary(a + b).savedBytes
      {
        SavedIsAccumulated(a, b);
        BetweenMerges(b, Summary(a).savedBytes);
      }
    }
    if forall a: seq<Row> :: Merged(Summary(a), Summary(b)).savedBytes == Summary(a + b).savedBytes {
      forall x: I64
        ensures MergesInto(b, x)
      {
        var a := [SavedRow(x)];
        assert a[..0] == [];
        SavedIsAccumulated(a, b);
        assert Summary(a).savedBytes == x;
        assert Merged(Summary(a), Summary(b)).savedBytes == Summary(a + b).savedBytes;
      }
      MergesBetween(b);
    }
  }

  // ---- reading and merging log files ----

  /** A line that parses, whose timestamp parses and lies in the window, counts; all others are skipped. */
  predicate Counts(line: Option<Row>, since: int, until: int) {
    line.Some? && line.value.timestamp.Some? && since <= line.value.timestamp.value <= until
  }

  function CountedRows(lines: seq<Option<Row>>, since: int, until: int): seq<Row> {
    if lines == [] then []
    else
      var rows := CountedRows(lines[..|lines| - 1], since, until);
      var line := lines[|lines| - 1];
      if Counts(line, since, until) then rows + [line.value] else rows
  }

  /**
   A line counts exactly when it parses, has a timestamp that parses, and lies in the window, both ends included; the
   rows counted are those of the lines that count, each once and in the order of the lines.
   */
  lemma {:induction false} CountedLines(lines: seq<Option<Row>>, since: int, until: int) returns (at: seq<nat>)
    ensures (forall i :: 0 <= i < |at| ==> at[i] < |lines|) && forall i, j :: 0 <= i < j < |at| ==> at[i] < at[j]
    ensures forall n: nat :: n in at <==>
              && n < |lines| && lines[n].Some? && lines[n].value.timestamp.Some?
              && since <= lines[n].value.timestamp.value && lines[n].value.timestamp.value <= until
    ensures |CountedRows(lines, since, until)| == |at|
    ensures forall i :: 0 <= i < |at| ==> Some(CountedRows(lines, since, until)[i]) == lines[at[i]]
  {
    at := [];
    if lines != [] {
      var n := |lines| - 1;
      at := CountedLines(lines[..n], since, until);
      assert forall i :: 0 <= i < |at| ==> at[i] in at;
      if Counts(lines[n], since, until) {
        at := at + [n];
      }
    }
  }

  function CountOf(rows: seq<Row>, tool: string): nat {
    if rows == [] then 0
    else CountOf(rows[..|rows| - 1], tool) + if rows[|rows| - 1].tool == tool then 1 else 0
  }

  lemma EmptyRows()
    ensures Summary([]) == Zero()
    ensures forall tool :: CountOf([], tool) == 0
  {}

  lemma RowAppended(rows: seq<Row>, row: Row)
    ensures Summary(rows + [row]) == Merged(Summary(rows), Single(row))
    ensures forall tool :: CountOf(rows + [row], tool) == CountOf(rows, tool) + if row.tool == tool then 1 else 0
  {
    SummaryAppend(rows, row);
    assert (rows + [row])[..|rows|] == rows;
  }

  datatype FileSummary = FileSummary(exists_: bool, repositories: set<string>, tools: map<string, nat>,
                                     aggregate: Aggregate)

  /** A summary of exactly these rows: repositories, events per tool, and the aggregate. */
  ghost predicate Summarizes(summary: FileSummary, rows: seq<Row>) {
    && summary.aggregate == Summary(rows)
    && summary.repositories == (set i | 0 <= i < |rows| :: rows[i].repositoryId)
    && (forall tool :: tool in summary.tools <==> CountOf(rows, tool) > 0)
    && forall tool :: tool in summary.tools ==> summary.tools[tool] == CountOf(rows, tool)
  }

  method ReadContextLogFileSummary(lines: seq<Option<Row>>, since: int, until: int) returns (summary: FileSummary)
    ensures summary.exists_ && Summarizes(summary, CountedRows(lines, since, until))
  {
    hide Merged, Single, Summary, CountOf;
    EmptyRows();
    var repositories, tools := {}, map[];
    var aggregate := new ContextLogAggregate();
    ghost var rows: seq<Row> := [];
    for i := 0 to |lines|
      invariant fresh(aggregate)
      invariant rows == CountedRows(lines[..i], since, until)
      invariant Summarizes(FileSummary(true, repositories, tools, aggregate.Value()), rows)
    {
      assert lines[..i + 1][..i] == lines[..i];
      if Counts(lines[i], since, until) {
        var row := lines[i].value;
        repositories := repositories + {row.repositoryId};
        tools := tools[row.tool := (if row.tool in tools then tools[row.tool] else 0) + 1];
        aggregate.AddRow(row);
        RowAppended(rows, row);
        assert forall j :: 0 <= j < |rows| ==> (rows + [row])[j] == rows[j];
        assert (rows + [row])[|rows|] == row;
        rows := rows + [row];
      }
    }
    assert lines[..|lines|] == lines;
    return FileSummary(true, repositories, tools, aggregate.Value());
  }

  /** The log of one root; None when there is no file. */
  datatype LogFile = LogFile(root: string, lines: Option<seq<Option<Row>>>)

  function RowsOf(file: LogFile, since: int, until: int): seq<Row> {
    if file.lines.None? then [] else CountedRows(file.lines.value, since, until)
  }

  /** A missing file has the empty summary. */
  method SummarizeContextLogFile(file: LogFile, since: int, until: int) returns (summary: FileSummary)
    ensures summary.exists_ <==> file.lines.Some?
    ensures Summarizes(summary, RowsOf(file, since, until))
  {
    if file.lines.None? {
      return FileSummary(false, {}, map[], Zero());
    }
    summary := ReadContextLogFileSummary(file.lines.value, since, until);
  }

  /** The counted rows of all roots, root after root. */
  function AllRows(files: seq<LogFile>, since: int, until: int): seq<Row> {
    if files == [] then []
    else AllRows(files[..|files| - 1], since, until) + RowsOf(files[|files| - 1], since, until)
  }

  datatype RootSummary = RootSummary(root: string, summary: FileSummary)

  /** One summary per root, in order, each of its own rows; and totals that summarise all rows together. */
  method SummarizeContextLogsForRoots(files: seq<LogFile>, since: int, until: int)
    returns (roots: seq<RootSummary>, totals: Aggregate)
    ensures |roots| == |files|
    ensures forall i :: 0 <= i < |files| ==>
      && roots[i].root == files[i].root && (roots[i].summary.exists_ <==> files[i].lines.Some?)
      && Summarizes(roots[i].summary, RowsOf(files[i], since, until))
    ensures var rows := AllRows(files, since, until);
      Unsigned(totals) == Unsigned(Summary(rows)) && (NoLoss(rows) ==> totals == Summary(rows))
  {
    hide Summarizes, Merged, Summary, Unsigned, NoLoss;
    NothingSummarized();
    roots := [];
    var sum := new ContextLogAggregate();
    ghost var rows: seq<Row> := [];
    for i := 0 to |files|
      invariant fresh(sum) && |roots| == i
      invariant forall j :: 0 <= j < i ==>
        && roots[j].root == files[j].root && (roots[j].summary.exists_ <==> files[j].lines.Some?)
        && Summarizes(roots[j].summary, RowsOf(files[j], since, until))
      invariant rows == AllRows(files[..i], since, until)
      invariant Unsigned(sum.Value()) == Unsigned(Summary(rows)) && (NoLoss(rows) ==> sum.Value() == Summary(rows))
    {
      assert files[..i + 1][..i] == files[..i];
      var summary := SummarizeContextLogFile(files[i], since, until);
      var part := new ContextLogAggregate.From(summary.aggregate);
      ghost var was, more := sum.Value(), RowsOf(files[i], since, until);
      SummarizedAggregate(summary, more);
      sum.Merge(part);
      RootMerged(was, rows, more);
      roots := roots + [RootSummary(files[i].root, summary)];
      rows := rows + more;
    }
    assert files[..|files|] == files;
    totals := sum.Value();
  }

  lemma NothingSummarized()
    ensures Summary([]) == Zero() && Unsigned(Zero()) == Zero()
  {}

  lemma SummarizedAggregate(summary: FileSummary, rows: seq<Row>)
    requires Summarizes(summary, rows)
    ensures summary.aggregate == Summary(rows)
  {}

  /** Totals that stand for some rows still do after one more root is merged. */
  lemma RootMerged(was: Aggregate, rows: seq<Row>, more: seq<Row>)
    requires Unsigned(was) == Unsigned(Summary(rows)) && (NoLoss(rows) ==> was == Summary(rows))
    ensures Unsigned(Merged(was, Summary(more))) == Unsigned(Summary(rows + more))
    ensures NoLoss(rows + more) ==> Merged(was, Summary(more)) == Summary(rows + more)
  {
    hide Merged, Summary, Unsigned;
    MergeIsConcatenation(rows, more);
    MergedUnsigned(was, Summary(more));
    MergedUnsigned(Summary(rows), Summary(more));
    if NoLoss(rows + more) {
      PartsWithoutLoss(rows, more);
      MergeIsConcatenationEntirely(rows, more);
    }
  }

  lemma PartsWithoutLoss(a: seq<Row>, b: seq<Row>)
    requires NoLoss(a + b)
    ensures NoLoss(a) && NoLoss(b)
  {
    forall i | 0 <= i < |a| ensures Saved(a[i]) >= 0 { assert (a + b)[i] == a[i]; }
    forall i | 0 <= i < |b| ensures Saved(b[i]) >= 0 { assert (a + b)[|a| + i] == b[i]; }
  }
}
