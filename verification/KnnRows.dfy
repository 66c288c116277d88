/**
 What a k-nearest-neighbour query means on the user's rows: the scan over chunks and slots finds
 exactly the rows of the plain map that match, it fails exactly when some row cannot be decided,
 and where the filters are exact it answers the SQL query.
 */
module KnnRows {
  import opened Wrappers
  import opened SqlValue
  import opened Metadata
  import opened Store
  import opened Ranking
  import opened Knn
  import FilterExactness
  import RowidSearch
  import VectorBlob

  // ---- the answer in terms of rows ----

  /** Every partition condition of the WHERE clause holds of its own column of the key. */
  predicate InPartition(q: Query, partition: seq<Value>)
    requires forall c :: c in q.partitions ==> c.column < |partition|
  {
    forall i :: 0 <= i < |q.partitions| ==>
      var c := q.partitions[i];
      SqlHolds(c.op, partition[c.column], c.value)
  }

  /** Every distance condition of the WHERE clause. */
  predicate WithinBounds(q: Query, d: real) {
    forall i :: 0 <= i < |q.distances| ==>
      var c := q.distances[i];
      && (c.op.FartherThan? ==> d > c.bound)
      && (c.op.AtLeast? ==> d >= c.bound)
      && (c.op.NearerThan? ==> d < c.bound)
      && (c.op.AtMost? ==> d <= c.bound)
  }

  /** The scan's clause on chunks is the conjunction of the partition conditions. */
  lemma ScannedIsInPartition(q: Query, partition: seq<Value>)
    requires forall c :: c in q.partitions ==> c.column < |partition|
    ensures PartitionPasses(q, partition) <==> InPartition(q, partition)
  {
    if PartitionPasses(q, partition) {
      forall i | 0 <= i < |q.partitions|
        ensures var c := q.partitions[i]; SqlHolds(c.op, partition[c.column], c.value)
      {
        assert q.partitions[i] in q.partitions;
      }
    }
  }

  lemma PassedIsWithinBounds(q: Query, d: real)
    ensures (forall c :: c in q.distances ==> DistancePasses(c, d)) <==> WithinBounds(q, d)
  {
    if forall c :: c in q.distances ==> DistancePasses(c, d) {
      forall i | 0 <= i < |q.distances|
        ensures var c := q.distances[i];
          && (c.op.FartherThan? ==> d > c.bound)
          && (c.op.AtLeast? ==> d >= c.bound)
          && (c.op.NearerThan? ==> d < c.bound)
          && (c.op.AtMost? ==> d <= c.bound)
      {
        assert q.distances[i] in q.distances && DistancePasses(q.distances[i], d);
      }
    }
  }

  /** What the filters decide about a row, from its contents alone. */
  predicate RowPasses(schema: Schema, q: Query, r: int, row: Row)
    requires QueryOk(schema, q) && RowTyped(schema, row)
  {
    && InPartition(q, row.partition) && RowidPasses(q, r)
    && (forall c :: c in q.metadata ==>
          ValueVerdict(schema.metadata[c.column], c.op, c.target, row.metadata[c.column]) == Some(true))
    && WithinBounds(q, q.distance(row.vectors[q.column], q.vector.bytes))
  }

  /** The hit a row would make; only the tie-break looks at where the row is stored. */
  function RowHit(st: State, q: Query, r: int): (h: Hit)
    requires WellPlaced(st) && QueryOk(st.schema, q) && r in st.positions
    ensures h.rowid == r && h.distance == q.distance(Rows(st)[r].vectors[q.column], q.vector.bytes)
  {
    Hit(q.distance(Rows(st)[r].vectors[q.column], q.vector.bytes), st.positions[r].chunk, st.positions[r].slot, r)
  }

  /** Brute force: every row of the plain map that passes the query. */
  ghost function Matches(st: State, q: Query): set<Hit>
    requires WellPlaced(st) && RowsTyped(st) && QueryOk(st.schema, q)
  {
    set r | r in st.positions && RowPasses(st.schema, q, r, RowOf(st, r)) :: RowHit(st, q, r)
  }

  /** A live slot passes exactly when its row does. */
  lemma SlotPassesIffRow(st: State, q: Query, r: int)
    requires Inv(st) && RowsTyped(st) && QueryOk(st.schema, q) && r in st.positions
    ensures var p := st.positions[r];
      && (Scanned(st, q, p.chunk) && SlotPasses(st, q, p) <==> RowPasses(st.schema, q, r, RowOf(st, r)))
      && HitOf(st, q, p) == RowHit(st, q, r)
  {
    var p := st.positions[r];
    var s := SlotAt(st, p);
    assert RowPlaced(st, r);
    ScannedIsInPartition(q, st.chunks[p.chunk].partition);
    PassedIsWithinBounds(q, q.distance(s.vectors[q.column], q.vector.bytes));
    forall c | c in q.metadata
      ensures Verdict(st, c, s) ==
              ValueVerdict(st.schema.metadata[c.column], c.op, c.target, RowOf(st, r).metadata[c.column])
    {
      CellVerdictIsValueVerdict(st.schema.metadata[c.column], c.op, c.target, s.cells[c.column], st.texts[c.column], r);
    }
  }

  lemma {:induction false} HitsBelowContains(st: State, q: Query, n: nat, x: Hit)
    requires ShapeOk(st) && QueryOk(st.schema, q) && n <= |st.chunks|
    ensures x in HitsBelow(st, q, n) <==> exists c: nat :: c < n && x in HitsIn(st, q, c)
  {
    if n > 0 {
      HitsBelowContains(st, q, n - 1, x);
    }
  }

  /** Scanning chunks and slots finds exactly the matching rows: none lost, none repeated, none resurrected. */
  lemma ScanFindsMatches(st: State, q: Query)
    requires Inv(st) && RowsTyped(st) && QueryOk(st.schema, q)
    ensures HitsBelow(st, q, |st.chunks|) == Matches(st, q)
  {
    var n := |st.chunks|;
    forall x | x in HitsBelow(st, q, n)
      ensures x in Matches(st, q)
    {
      HitsBelowContains(st, q, n, x);
      var c: nat :| c < n && x in HitsIn(st, q, c);
      HitIsMatch(st, q, c, x);
    }
    forall x | x in Matches(st, q)
      ensures x in HitsBelow(st, q, n)
    {
      HitsBelowContains(st, q, n, x);
      MatchIsHit(st, q, x);
    }
  }

  lemma HitIsMatch(st: State, q: Query, c: nat, x: Hit)
    requires Inv(st) && RowsTyped(st) && QueryOk(st.schema, q) && c < |st.chunks| && x in HitsIn(st, q, c)
    ensures x in Matches(st, q)
  {
    var p := Position(c, x.slot);
    assert InRange(st, p) && SlotPasses(st, q, p) && x == HitOf(st, q, p);
    SlotPassesIffRow(st, q, x.rowid);
  }

  lemma MatchIsHit(st: State, q: Query, x: Hit)
    requires Inv(st) && RowsTyped(st) && QueryOk(st.schema, q) && x in Matches(st, q)
    ensures exists c: nat :: c < |st.chunks| && x in HitsIn(st, q, c)
  {
    var p := st.positions[x.rowid];
    SlotPassesIffRow(st, q, x.rowid);
    assert x == HitOf(st, q, Position(p.chunk, p.slot));
    assert x in HitsIn(st, q, p.chunk);
  }

  // ---- when a query fails ----

  /** A blank slot never needs the side table, whatever stale rowid it still names. */
  lemma BlankNeverFails(kind: Kind, op: Operator, target: Target, c: Cell, side: SideTable, rowid: int)
    requires CellKind(kind, c) && TargetOk(kind, op, target) && (c.TextCell? ==> c.view == ViewOf([]))
    ensures CellVerdict(kind, op, target, c, side, rowid).Some?
  {
    if kind.TextColumn? && op.IN? {
      BlankIn(c.view, LongText(side, rowid), target.values);
    }
  }

  lemma {:induction false} BlankIn(view: View, long: Option<Text>, targets: seq<Value>)
    requires view.n == 0 && forall v :: v in targets ==> v.TextValue?
    ensures TextIn(view, long, targets).Some?
  {
    if targets != [] {
      assert targets[0] in targets;
      BlankIn(view, long, targets[1..]);
    }
  }

  /** A value on which the filter of a constraint fails: 12 bytes of text under an ordered operator. */
  predicate Undecidable(schema: Schema, c: MetadataConstraint, v: Value)
    requires c.column < |schema.metadata|
  {
    schema.metadata[c.column].TextColumn? && FilterExactness.Ordered(c.op) && v.TextValue? && |v.t| == 12
  }

  lemma FailsIffUndecidable(schema: Schema, c: MetadataConstraint, v: Value)
    requires c.column < |schema.metadata| && TargetOk(schema.metadata[c.column], c.op, c.target)
    requires TypeOk(schema.metadata[c.column], v)
    ensures ValueVerdict(schema.metadata[c.column], c.op, c.target, v).None? <==> Undecidable(schema, c, v)
  {
    if schema.metadata[c.column].TextColumn? {
      if c.op.IN? {
        MembershipDecided(v.t, c.target.values);
      } else if c.op.EQ? || c.op.NE? {
        FilterExactness.TextEqualsIsSameCString(v.t, c.target.value.t);
      }
    }
  }

  lemma {:induction false} MembershipDecided(s: Text, targets: seq<Value>)
    requires forall v :: v in targets ==> v.TextValue?
    ensures TextIn(ViewOf(s), FilterExactness.LongOf(s), targets).Some?
  {
    if targets != [] {
      assert targets[0] in targets;
      FilterExactness.TextEqualsIsSameCString(s, targets[0].t);
      MembershipDecided(s, targets[1..]);
    }
  }

  /** Some row of a scanned partition holds a value some constraint cannot decide. */
  ghost predicate HasUndecidableRow(st: State, q: Query)
    requires WellPlaced(st) && QueryOk(st.schema, q)
  {
    exists r, c :: r in st.positions && c in q.metadata && InPartition(q, RowOf(st, r).partition)
                   && Undecidable(st.schema, c, RowOf(st, r).metadata[c.column])
  }

  lemma SlotFailureIsRow(st: State, q: Query, c: nat)
    requires Inv(st) && RowsTyped(st) && QueryOk(st.schema, q) && c < |st.chunks| && FilterFails(st, q, c)
    ensures HasUndecidableRow(st, q)
  {
    var i: nat, m :| i < st.schema.chunkSize && m in q.metadata && Verdict(st, m, SlotAt(st, Position(c, i))).None?;
    var p := Position(c, i);
    assert InRange(st, p);
    var s := SlotAt(st, p);
    ScannedIsInPartition(q, st.chunks[c].partition);
    if !s.live {
      BlankNeverFails(st.schema.metadata[m.column], m.op, m.target, s.cells[m.column], st.texts[m.column], s.owner);
    }
    RowFailure(st, q, s.owner, m);
    hide RowsTyped, Verdict, Inv;
  }

  lemma RowFailureIsSlot(st: State, q: Query, r: int, m: MetadataConstraint)
    requires Inv(st) && RowsTyped(st) && QueryOk(st.schema, q) && r in st.positions && m in q.metadata
    requires InPartition(q, RowOf(st, r).partition) && Undecidable(st.schema, m, RowOf(st, r).metadata[m.column])
    ensures FilterFails(st, q, st.positions[r].chunk)
  {
    RowFailure(st, q, r, m);
    var p := st.positions[r];
    ScannedIsInPartition(q, st.chunks[p.chunk].partition);
    hide RowsTyped, Verdict, Undecidable;
    assert Verdict(st, m, SlotAt(st, Position(p.chunk, p.slot))).None?;
  }

  /** The scan fails exactly when such a row exists. */
  lemma ScanFailsIff(st: State, q: Query)
    requires Inv(st) && RowsTyped(st) && QueryOk(st.schema, q)
    ensures (forall c :: 0 <= c < |st.chunks| ==> !FilterFails(st, q, c)) <==> !HasUndecidableRow(st, q)
  {
    forall c | 0 <= c < |st.chunks| && FilterFails(st, q, c)
      ensures HasUndecidableRow(st, q)
    {
      SlotFailureIsRow(st, q, c);
    }
    if HasUndecidableRow(st, q) {
      var r, m :| r in st.positions && m in q.metadata && InPartition(q, RowOf(st, r).partition)
                  && Undecidable(st.schema, m, RowOf(st, r).metadata[m.column]);
      RowFailureIsSlot(st, q, r, m);
    }
  }

  lemma RowFailure(st: State, q: Query, r: int, m: MetadataConstraint)
    requires Inv(st) && RowsTyped(st) && QueryOk(st.schema, q) && r in st.positions && m in q.metadata
    ensures Verdict(st, m, SlotAt(st, st.positions[r])).None? <==>
        Undecidable(st.schema, m, RowOf(st, r).metadata[m.column])
  {
    var s := SlotAt(st, st.positions[r]);
    assert RowPlaced(st, r);
    CellVerdictIsValueVerdict(st.schema.metadata[m.column], m.op, m.target, s.cells[m.column], st.texts[m.column], r);
    FailsIffUndecidable(st.schema, m, RowOf(st, r).metadata[m.column]);
  }

  // ---- the query as SQL means it ----

  /** The WHERE clause of a query on one row, as SQL defines it. */
  predicate Wanted(schema: Schema, q: Query, r: int, row: Row)
    requires QueryOk(schema, q) && RowTyped(schema, row)
  {
    && (forall c :: c in q.partitions ==> SqlHolds(c.op, row.partition[c.column], c.value))
    && (q.rowidIn.Some? ==> r in q.rowidIn.value)
    && (forall c :: c in q.metadata ==> Satisfies(c.op, c.target, row.metadata[c.column]))
    && WithinBounds(q, q.distance(row.vectors[q.column], q.vector.bytes))
  }

  /** Every comparison the query makes on this row is one the filters decide exactly. */
  predicate Decided(schema: Schema, q: Query, r: int, row: Row)
    requires QueryOk(schema, q) && RowTyped(schema, row)
  {
    && (q.rowidIn.Some? ==> RowidSearch.Sorted(q.rowidIn.value) && RowidSearch.Within(q.rowidIn.value, r))
    && forall c :: c in q.metadata ==>
         FilterExactness.Exact(schema.metadata[c.column], c.op, c.target, row.metadata[c.column])
  }

  lemma DecidedRow(schema: Schema, q: Query, r: int, row: Row)
    requires QueryOk(schema, q) && RowTyped(schema, row)
    requires Decided(schema, q, r, row)
    ensures RowPasses(schema, q, r, row) <==> Wanted(schema, q, r, row)
    ensures forall c :: c in q.metadata ==> !Undecidable(schema, c, row.metadata[c.column])
  {
    if q.rowidIn.Some? {
      RowidSearch.SearchIsMembership(q.rowidIn.value, r);
    }
    forall c | c in q.metadata
      ensures ValueVerdict(schema.metadata[c.column], c.op, c.target, row.metadata[c.column]) ==
              Some(Satisfies(c.op, c.target, row.metadata[c.column]))
      ensures !Undecidable(schema, c, row.metadata[c.column])
    {
      FilterExactness.VerdictIsSql(schema.metadata[c.column], c.op, c.target, row.metadata[c.column]);
      FailsIffUndecidable(schema, c, row.metadata[c.column]);
    }
  }

  /** The rows SQL asks for. */
  ghost function WantedHits(st: State, q: Query): set<Hit>
    requires WellPlaced(st) && RowsTyped(st) && QueryOk(st.schema, q)
  {
    set r | r in st.positions && Wanted(st.schema, q, r, RowOf(st, r)) :: RowHit(st, q, r)
  }

  /** The comparisons are exact on every row of the partitions the query scans; no other row matters. */
  ghost predicate AllDecided(schema: Schema, rows: map<int, Row>, q: Query)
    requires QueryOk(schema, q) && forall r :: r in rows ==> RowTyped(schema, rows[r])
  {
    forall r :: r in rows ==>
      assert RowTyped(schema, rows[r]);
      InPartition(q, rows[r].partition) ==> Decided(schema, q, r, rows[r])
  }

  /**
   Comparisons that are exact whatever is stored: a boolean with 0 or 1, an integer with integers, a float with any
   number, and equality of text, or IN a list of texts, without zero bytes.
   */
  predicate Ordinary(kind: Kind, op: Operator, target: Target) {
    match kind
    case Boolean => (op == EQ || op == NE) && (target == One(IntValue(0)) || target == One(IntValue(1)))
    case Integer =>
      if op == IN then target.Many? && forall t :: t in target.values ==> t.IntValue?
      else target.One? && target.value.IntValue?
    case Float => op != IN && target.One? && (target.value.IntValue? || target.value.RealValue?)
    case TextColumn =>
      if op == IN then target.Many? && forall t :: t in target.values ==> t.TextValue? && ZeroFree(t.t)
      else (op == EQ || op == NE) && target.One? && target.value.TextValue? && ZeroFree(target.value.t)
  }

  lemma OrdinaryIsExact(kind: Kind, op: Operator, target: Target, v: Value)
    requires Ordinary(kind, op, target) && TypeOk(kind, v)
    ensures TargetOk(kind, op, target) && FilterExactness.Exact(kind, op, target, v)
  {
    if kind.Integer? && op.IN? {
      forall t | t in target.values && ReadInt(t) == v.i
        ensures SqlHolds(EQ, v, t)
      {}
    }
  }

  lemma OrdinaryTarget(kind: Kind, op: Operator, target: Target)
    requires Ordinary(kind, op, target)
    ensures TargetOk(kind, op, target)
  {}

  /** A query with no rowid list and only such comparisons is decided on every table. */
  lemma OrdinaryDecided(schema: Schema, rows: map<int, Row>, q: Query)
    requires q.column < |schema.vectors| && q.rowidIn.None?
    requires forall c :: c in q.partitions ==> c.column < |schema.partitions| && c.op != IN
    requires forall c :: c in q.metadata ==>
      c.column < |schema.metadata| && Ordinary(schema.metadata[c.column], c.op, c.target)
    requires forall r :: r in rows ==> RowTyped(schema, rows[r])
    ensures QueryOk(schema, q) && AllDecided(schema, rows, q)
  {
    hide Ordinary, TargetOk, InPartition;
    forall c | c in q.metadata
      ensures TargetOk(schema.metadata[c.column], c.op, c.target)
    {
      OrdinaryTarget(schema.metadata[c.column], c.op, c.target);
    }
    forall r, c | r in rows && c in q.metadata
      ensures FilterExactness.Exact(schema.metadata[c.column], c.op, c.target, rows[r].metadata[c.column])
    {
      OrdinaryIsExact(schema.metadata[c.column], c.op, c.target, rows[r].metadata[c.column]);
    }
    hide FilterExactness.Exact;
    forall r | r in rows
      ensures Decided(schema, q, r, rows[r])
    {}
  }

  lemma MatchIsWanted(schema: Schema, q: Query, r: int, row: Row)
    requires QueryOk(schema, q) && RowTyped(schema, row)
    requires InPartition(q, row.partition) ==> Decided(schema, q, r, row)
    ensures RowPasses(schema, q, r, row) <==> Wanted(schema, q, r, row)
    ensures InPartition(q, row.partition) ==>
              forall c :: c in q.metadata ==> !Undecidable(schema, c, row.metadata[c.column])
  {
    if InPartition(q, row.partition) {
      DecidedRow(schema, q, r, row);
    }
  }

  lemma StoredRowDecided(st: State, q: Query, r: int)
    requires WellPlaced(st) && RowsTyped(st) && QueryOk(st.schema, q) && r in st.positions
    requires AllDecided(st.schema, Rows(st), q)
    ensures RowPasses(st.schema, q, r, RowOf(st, r)) <==> Wanted(st.schema, q, r, RowOf(st, r))
    ensures InPartition(q, RowOf(st, r).partition) ==>
              forall c :: c in q.metadata ==> !Undecidable(st.schema, c, RowOf(st, r).metadata[c.column])
  {
    assert r in Rows(st);
    MatchIsWanted(st.schema, q, r, RowOf(st, r));
  }

  /** When every comparison is decided exactly, the query cannot fail and matches exactly what SQL asks for. */
  lemma MatchesAreWanted(st: State, q: Query)
    requires Inv(st) && RowsTyped(st) && QueryOk(st.schema, q) && AllDecided(st.schema, Rows(st), q)
    ensures Matches(st, q) == WantedHits(st, q) && !HasUndecidableRow(st, q)
  {
    MatchingIsWanted(st, q);
    NoneUndecidable(st, q);
  }

  lemma MatchingIsWanted(st: State, q: Query)
    requires WellPlaced(st) && RowsTyped(st) && QueryOk(st.schema, q) && AllDecided(st.schema, Rows(st), q)
    ensures Matches(st, q) == WantedHits(st, q)
  {
    hide RowPasses, Wanted, Decided, RowHit, AllDecided, WellPlaced, QueryOk;
    forall r | r in st.positions
      ensures RowPasses(st.schema, q, r, RowOf(st, r)) <==> Wanted(st.schema, q, r, RowOf(st, r))
    {
      StoredRowDecided(st, q, r);
    }
  }

  lemma NoneUndecidable(st: State, q: Query)
    requires WellPlaced(st) && RowsTyped(st) && QueryOk(st.schema, q) && AllDecided(st.schema, Rows(st), q)
    ensures !HasUndecidableRow(st, q)
  {
    hide Undecidable, AllDecided;
    forall r, c | r in st.positions && c in q.metadata && InPartition(q, RowOf(st, r).partition)
      ensures !Undecidable(st.schema, c, RowOf(st, r).metadata[c.column])
    {
      StoredRowDecided(st, q, r);
    }
  }

  // ---- the query ----

  /** `answer` is what the query may return: an argument error, a filter failure, or the top k in order. */
  ghost predicate Answers(st: State, q: Query, answer: Answer)
    requires Inv(st) && QueryOk(st.schema, q)
  {
    RowsAreTyped(st);
    if !VectorBlob.Fits(st.schema.vectors[q.column], q.vector) then answer == Failed(WrongVector)
    else if q.k < 0 then answer == Failed(NegativeK)
    else if q.k > 4096 then answer == Failed(KTooLarge)
    else if q.k == 0 then answer == Rowids([], [])
    else if HasUndecidableRow(st, q) then answer == Failed(FilterFailed)
    else
      && answer.Rowids?
      && exists top :: IsTop(top, Matches(st, q), q.k) && InArrays(top, answer.distances, answer.rowids)
  }
}
