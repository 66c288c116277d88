/**
 Storage and query together, as a user sees them: after any run of statements a query returns the
 nearest rows of the plain map the statements describe.
 */
module EndToEnd {
  import opened Store
  import opened Refinement
  import opened Ranking
  import opened Knn
  import opened KnnRows
  import VectorBlob

  /** The rows of a table a query asks for. */
  ghost function WantedRows(t: Table, q: Query): set<int>
    requires RowShapes(t) && QueryOk(t.schema, q)
  {
    set r | r in t.rows && Wanted(t.schema, q, r, t.rows[r])
  }

  /** How far each row is from the query vector. */
  function RowDistances(t: Table, q: Query): map<int, real>
    requires RowShapes(t) && QueryOk(t.schema, q)
  {
    map r | r in t.rows :: q.distance(t.rows[r].vectors[q.column], q.vector.bytes)
  }

  ghost predicate NearestRows(t: Table, q: Query, rowids: seq<int>, distances: seq<real>)
    requires RowShapes(t) && QueryOk(t.schema, q) && q.k >= 0
  {
    Nearest(WantedRows(t, q), RowDistances(t, q), q.k, rowids, distances)
  }

  predicate ValidArguments(schema: Schema, q: Query)
    requires QueryOk(schema, q)
  {
    VectorBlob.Fits(schema.vectors[q.column], q.vector) && 0 <= q.k <= 4096
  }

  /** The wanted rows, each with its one hit. */
  ghost function HitOfRow(st: State, q: Query): map<int, Hit>
    requires WellPlaced(st) && RowsTyped(st) && QueryOk(st.schema, q)
  {
    map r | r in st.positions && Wanted(st.schema, q, r, RowOf(st, r)) :: RowHit(st, q, r)
  }

  lemma WantedRowsHaveHits(st: State, q: Query)
    requires Inv(st) && RowsTyped(st) && QueryOk(st.schema, q)
    ensures HitOfRow(st, q).Keys == WantedRows(TableOf(st), q)
  {
    hide QueryOk, Wanted, RowHit, RowTyped;
  }

  lemma WantedHitsPerRow(st: State, q: Query)
    requires Inv(st) && RowsTyped(st) && QueryOk(st.schema, q)
    ensures HitOfRow(st, q).Values == WantedHits(st, q)
  {
    assert WellPlaced(st);
    hide Inv, WellPlaced, QueryOk, Wanted, RowHit, RowTyped;
    var hitOf := HitOfRow(st, q);
    forall h | h in WantedHits(st, q)
      ensures h in hitOf.Values
    {
      assert h.rowid in hitOf && hitOf[h.rowid] == h;
    }
  }

  /** The nearest rows of the current table, whenever the filters decide every comparison exactly. */
  lemma AnswerIsNearest(st: State, q: Query, answer: Answer)
    requires Inv(st) && QueryOk(st.schema, q) && ValidArguments(st.schema, q)
    requires AllDecided(st.schema, TableOf(st).rows, q) && Answers(st, q, answer)
    ensures answer.Rowids? && NearestRows(TableOf(st), q, answer.rowids, answer.distances)
  {
    RowsAreTyped(st);
    MatchesAreWanted(st, q);
    if q.k > 0 {
      var top :| IsTop(top, Matches(st, q), q.k) && InArrays(top, answer.distances, answer.rowids);
      WantedRowsHaveHits(st, q);
      WantedHitsPerRow(st, q);
      TopIsNearest(top, HitOfRow(st, q), RowDistances(TableOf(st), q), q.k, answer.rowids, answer.distances);
    }
  }

  lemma TopAnswersAgree(all: set<Hit>, k: nat, a: Answer, b: Answer)
    requires a.Rowids? && b.Rowids?
    requires exists top :: IsTop(top, all, k) && InArrays(top, a.distances, a.rowids)
    requires exists top :: IsTop(top, all, k) && InArrays(top, b.distances, b.rowids)
    ensures a == b
  {
    var x :| IsTop(x, all, k) && InArrays(x, a.distances, a.rowids);
    var y :| IsTop(y, all, k) && InArrays(y, b.distances, b.rowids);
    TopIsUnique(x, y, all, k);
  }

  /** A query has one answer only: ties are broken by where the rows are stored, never arbitrarily. */
  lemma AnswerIsUnique(st: State, q: Query, a: Answer, b: Answer)
    requires Inv(st) && QueryOk(st.schema, q)
    requires Answers(st, q, a) && Answers(st, q, b)
    ensures a == b
  {
    RowsAreTyped(st);
    if ValidArguments(st.schema, q) && q.k > 0 && !HasUndecidableRow(st, q) {
      TopAnswersAgree(Matches(st, q), q.k, a, b);
    }
  }

  /**
   After any run of inserts, updates and deletes, whatever slots were freed and reused on the way,
   a query answers with the nearest rows of the map that the run describes.
   */
  lemma QueryAfterRun(schema: Schema, run: seq<Statement>, q: Query, answer: Answer)
    requires SchemaOk(schema) && QueryOk(schema, q) && ValidArguments(schema, q)
    requires forall i :: 0 <= i < |run| ==> Fitting(schema, run[i])
    ensures var t := TableRun(Refinement.Table(schema, map[], 0), run);
      AllDecided(schema, t.rows, q) && Answers(Run(Empty(schema), run), q, answer) ==>
        answer.Rowids? && NearestRows(t, q, answer.rowids, answer.distances)
  {
    EmptyInv(schema);
    RunRefines(Empty(schema), run);
    var t := TableRun(Refinement.Table(schema, map[], 0), run);
    if AllDecided(schema, t.rows, q) && Answers(Run(Empty(schema), run), q, answer) {
      AnswerIsNearest(Run(Empty(schema), run), q, answer);
    }
  }

  /**
   So a query without a rowid list, whose comparisons on metadata are ordinary ones, always answers with the nearest
   of the rows asked for; it never fails.
   */
  lemma OrdinaryQueryAfterRun(schema: Schema, run: seq<Statement>, q: Query, answer: Answer)
    requires SchemaOk(schema) && forall i :: 0 <= i < |run| ==> Fitting(schema, run[i])
    requires q.column < |schema.vectors| && q.rowidIn.None?
    requires forall c :: c in q.partitions ==> c.column < |schema.partitions| && !c.op.IN?
    requires forall c :: c in q.metadata ==>
      c.column < |schema.metadata| && Ordinary(schema.metadata[c.column], c.op, c.target)
    requires VectorBlob.Fits(schema.vectors[q.column], q.vector) && 0 <= q.k <= 4096
    ensures QueryOk(schema, q)
    ensures Answers(Run(Empty(schema), run), q, answer) ==>
      answer.Rowids? &&
      NearestRows(TableRun(Refinement.Table(schema, map[], 0), run), q, answer.rowids, answer.distances)
  {
    EmptyInv(schema);
    RunRefines(Empty(schema), run);
    var t := TableRun(Refinement.Table(schema, map[], 0), run);
    assert RowShapes(t);
    OrdinaryDecided(schema, t.rows, q);
    hide Ordinary, AllDecided, NearestRows, Answers, Run, TableRun, QueryOk, RowShapes, Inv, Rows;
    QueryAfterRun(schema, run, q, answer);
  }
}
