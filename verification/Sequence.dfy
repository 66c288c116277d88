/** The rowids that inserts return, over whole runs. */
module Sequence {
  import opened Wrappers
  import opened SqlValue
  import opened Store
  import opened Statements
  import opened Refinement
  import opened VectorBlob

  /** The rowid a statement returns: that of a successful insert. */
  function Result(st: State, s: Statement): Option<int>
    requires Inv(st) && Fitting(st.schema, s)
  {
    match s
    case InsertStatement(id, partition, vectors, metadata) =>
      (match Insert(st, id, partition, vectors, metadata)
       case Ok((_, r)) => Some(r)
       case Err(_) => None)
    case _ => None
  }

  /** The rowids that the successful inserts of a run returned, in order. */
  function Returned(st: State, run: seq<Statement>): seq<int>
    requires Inv(st) && forall i :: 0 <= i < |run| ==> Fitting(st.schema, run[i])
    decreases |run|
  {
    if run == [] then []
    else
      var n := |run| - 1;
      var ids := Returned(st, run[..n]);
      match Result(Run(st, run[..n]), run[n])
      case Some(r) => ids + [r]
      case None => ids
  }

  /** `last` is the largest of the rowids and 0. */
  ghost predicate IsLargest(last: int, ids: seq<int>) {
    && last >= 0 && (last == 0 || last in ids)
    && forall i :: 0 <= i < |ids| ==> ids[i] <= last
  }

  /** After any run the counter is the largest rowid any insert of the run returned, or 0. */
  lemma {:induction false} CounterIsLargest(schema: Schema, run: seq<Statement>)
    requires SchemaOk(schema) && forall i :: 0 <= i < |run| ==> Fitting(schema, run[i])
    ensures IsLargest(Run(Empty(schema), run).sequence, Returned(Empty(schema), run))
    decreases |run|
  {
    if run != [] {
      var n := |run| - 1;
      CounterIsLargest(schema, run[..n]);
      var before := Run(Empty(schema), run[..n]);
      StepRefines(before, run[n]);
      StepCounts(before, run[n], Returned(Empty(schema), run[..n]));
    }
  }

  lemma TableInsertCounts(t: Table, id: Option<int>, partition: seq<Value>, vectors: seq<Vector>, metadata: seq<Value>)
    requires Arity(t.schema, partition, |vectors|, |metadata|)
    ensures match InsertRow(t, id, partition, vectors, metadata)
      case Ok((t', r)) => t'.sequence == Max(t.sequence, r) && (id.None? ==> r == t.sequence + 1)
      case Err(_) => true
  {}

  lemma InsertCounts(st: State, s: Statement)
    requires Inv(st) && Fitting(st.schema, s) && s.InsertStatement?
    ensures match Result(st, s)
      case Some(r) => Step(st, s).sequence == Max(st.sequence, r) && (s.id.None? ==> r == st.sequence + 1)
      case None => Step(st, s) == st
  {
    assert ShapeOk(st);
    InsertRefines(st, s.id, s.partition, s.vectors, s.metadata);
    TableInsertCounts(TableOf(st), s.id, s.partition, s.vectors, s.metadata);
    hide Inv, Rows, Insert, InsertRow, Max, ShapeOk, RowShapes;
  }

  lemma TableOtherSteps(t: Table, s: Statement)
    requires RowShapes(t) && Fitting(t.schema, s) && !s.InsertStatement?
    ensures TableStep(t, s).sequence == t.sequence
  {}

  lemma OtherStepsCount(st: State, s: Statement)
    requires Inv(st) && Fitting(st.schema, s) && !s.InsertStatement?
    ensures Result(st, s) == None && Step(st, s).sequence == st.sequence
  {
    StepRefines(st, s);
    TableOtherSteps(TableOf(st), s);
    hide Inv, Rows, Step, TableStep, RowShapes;
  }

  lemma StepCounts(st: State, s: Statement, ids: seq<int>)
    requires Inv(st) && Fitting(st.schema, s) && IsLargest(st.sequence, ids)
    ensures match Result(st, s)
      case Some(r) => IsLargest(Step(st, s).sequence, ids + [r])
      case None => Step(st, s).sequence == st.sequence
  {
    hide Inv, Step, Result, IsLargest, Max;
    if s.InsertStatement? {
      InsertCounts(st, s);
      var res := Result(st, s);
      if res.Some? {
        LargestWith(st.sequence, ids, res.value);
      }
    } else {
      OtherStepsCount(st, s);
    }
  }

  lemma LargestWith(last: int, ids: seq<int>, r: int)
    requires IsLargest(last, ids)
    ensures IsLargest(Max(last, r), ids + [r])
  {
    assert (ids + [r])[|ids|] == r;
    if last in ids {
      var i :| 0 <= i < |ids| && ids[i] == last;
      assert (ids + [r])[i] == last;
    }
  }

  /**
   An automatic rowid is one above the largest rowid that any insert of the run returned, deleted rows included, or 1
   when none returned a positive one.
   */
  lemma AutomaticRowid(schema: Schema, run: seq<Statement>, s: Statement)
    requires SchemaOk(schema) && (forall i :: 0 <= i < |run| ==> Fitting(schema, run[i])) && Fitting(schema, s)
    requires s.InsertStatement? && s.id.None?
    ensures var res := Result(Run(Empty(schema), run), s);
      res.Some? ==> IsLargest(res.value - 1, Returned(Empty(schema), run))
  {
    hide IsLargest, Run, Returned, Inv, Result, Empty, Fitting, SchemaOk;
    CounterIsLargest(schema, run);
    NextRowid(Run(Empty(schema), run), s, Returned(Empty(schema), run));
  }

  lemma NextRowid(st: State, s: Statement, ids: seq<int>)
    requires Inv(st) && Fitting(st.schema, s) && s.InsertStatement? && s.id.None?
    requires IsLargest(st.sequence, ids)
    ensures Result(st, s).Some? ==> IsLargest(Result(st, s).value - 1, ids)
  {
    hide Inv, Step, Result, IsLargest, Max;
    InsertCounts(st, s);
  }
}
