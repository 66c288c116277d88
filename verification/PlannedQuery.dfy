/**
 From plan to query: the scan rebuilds the query from the plan string and its arguments, and the query it
 rebuilds is the one the constraints of the statement ask for.
 */
module PlannedQuery {
  import opened Bitmap
  import opened Wrappers
  import opened SqlValue
  import opened Metadata
  import opened Store
  import opened Knn
  import opened Plan
  import VectorBlob

  /** One argument, as each of the readers that may take it sees it. */
  datatype Argument = Argument(
    vector: VectorBlob.Vector, k: int, rowids: seq<int>, value: Value, target: Target, bound: real)

  /** The declared columns and the stored schema agree. */
  predicate Declares(columns: seq<Column>, schema: Schema) {
    forall c :: c in columns ==>
      match c.kind
      case VectorKind => c.idx < |schema.vectors|
      case PartitionKind => c.idx < |schema.partitions|
      case AuxiliaryKind => true
      case MetadataKind(kind) => c.idx < |schema.metadata| && schema.metadata[c.idx] == kind
  }

  // ---- what the scan reads off the plan ----

  /** The last of the first `n` blocks that is `b`, or -1. */
  function LastBlock(idxStr: string, n: nat, b: Block): (i: int)
    requires 1 + 4 * n <= |idxStr|
    ensures -1 <= i < n
    ensures i >= 0 ==> Decode(idxStr, i) == Some(b)
    ensures forall j :: i < j < n ==> Decode(idxStr, j) != Some(b)
  {
    if n == 0 then -1
    else if Decode(idxStr, n - 1) == Some(b) then n - 1
    else LastBlock(idxStr, n - 1, b)
  }

  function PartitionsOf(idxStr: string, args: seq<Argument>, n: nat): seq<PartitionConstraint>
    requires n <= |args| && 1 + 4 * |args| == |idxStr|
  {
    if n == 0 then []
    else
      var before := PartitionsOf(idxStr, args, n - 1);
      match Decode(idxStr, n - 1)
      case Some(PartitionBlock(column, op)) => before + [PartitionConstraint(column, op, args[n - 1].value)]
      case _ => before
  }

  function MetadataOf(idxStr: string, args: seq<Argument>, n: nat): seq<MetadataConstraint>
    requires n <= |args| && 1 + 4 * |args| == |idxStr|
  {
    if n == 0 then []
    else
      var before := MetadataOf(idxStr, args, n - 1);
      match Decode(idxStr, n - 1)
      case Some(MetadataBlock(column, op)) => before + [MetadataConstraint(column, op, args[n - 1].target)]
      case _ => before
  }

  function DistancesOf(idxStr: string, args: seq<Argument>, n: nat): seq<DistanceConstraint>
    requires n <= |args| && 1 + 4 * |args| == |idxStr|
  {
    if n == 0 then []
    else
      var before := DistancesOf(idxStr, args, n - 1);
      match Decode(idxStr, n - 1)
      case Some(DistanceBlock(op)) => before + [DistanceConstraint(op, args[n - 1].bound)]
      case _ => before
  }

  /** The query a plan stands for; the vector and k must be among its blocks. */
  function QueryOf(idxStr: string, idxNum: nat, args: seq<Argument>, distance: (seq<Byte>, seq<Byte>) -> real): Query
    requires 1 + 4 * |args| == |idxStr|
    requires LastBlock(idxStr, |args|, MatchBlock) >= 0 && LastBlock(idxStr, |args|, KBlock) >= 0
  {
    var n := |args|;
    var rowidIn := LastBlock(idxStr, n, RowidInBlock);
    Query(
      idxNum,
      args[LastBlock(idxStr, n, MatchBlock)].vector,
      distance,
      args[LastBlock(idxStr, n, KBlock)].k,
      if rowidIn >= 0 then Some(args[rowidIn].rowids) else None,
      PartitionsOf(idxStr, args, n),
      MetadataOf(idxStr, args, n),
      DistancesOf(idxStr, args, n))
  }

  lemma {:induction false} PartitionsContain(idxStr: string, args: seq<Argument>, n: nat, x: PartitionConstraint)
    requires n <= |args| && 1 + 4 * |args| == |idxStr|
    ensures x in PartitionsOf(idxStr, args, n) <==>
            exists i :: 0 <= i < n && Decode(idxStr, i) == Some(PartitionBlock(x.column, x.op))
              && args[i].value == x.value
  {
    hide Decode;
    if n > 0 {
      PartitionsContain(idxStr, args, n - 1, x);
    }
  }

  lemma {:induction false} MetadataContain(idxStr: string, args: seq<Argument>, n: nat, x: MetadataConstraint)
    requires n <= |args| && 1 + 4 * |args| == |idxStr|
    ensures x in MetadataOf(idxStr, args, n) <==>
            exists i :: 0 <= i < n && Decode(idxStr, i) == Some(MetadataBlock(x.column, x.op))
              && args[i].target == x.target
  {
    hide Decode;
    if n > 0 {
      MetadataContain(idxStr, args, n - 1, x);
    }
  }

  lemma {:induction false} DistancesContain(idxStr: string, args: seq<Argument>, n: nat, x: DistanceConstraint)
    requires n <= |args| && 1 + 4 * |args| == |idxStr|
    ensures x in DistancesOf(idxStr, args, n) <==>
            exists i :: 0 <= i < n && Decode(idxStr, i) == Some(DistanceBlock(x.op)) && args[i].bound == x.bound
  {
    hide Decode;
    if n > 0 {
      DistancesContain(idxStr, args, n - 1, x);
    }
  }

  // ---- blocks and constraints ----

  /** Constraint `j` has the role and argument `i`. */
  ghost predicate Given(columns: seq<Column>, cs: seq<Constraint>, argvIndex: seq<nat>, role: Role, j: int, i: int)
    requires |argvIndex| == |cs|
  {
    HasRole(columns, cs, j, role) && argvIndex[j] == i + 1
  }

  /** Argument `i` decodes to a block that announces the constraint it was given to. */
  lemma BlockOfArgument(columns: seq<Column>, cs: seq<Constraint>, outcome: Outcome, order: seq<nat>,
                        blocks: seq<Block>, i: nat)
    requires KnnPlan(columns, cs, outcome, order, blocks) && i < |order|
    ensures |outcome.argvIndex| == |cs| && |outcome.idxStr| == 1 + 4 * |order|
    ensures Decode(outcome.idxStr, i) == Some(blocks[i])
    ensures order[i] < |cs| && Announces(blocks[i], RoleOf(columns, cs[order[i]]))
    ensures outcome.argvIndex[order[i]] == i + 1
    ensures forall j :: 0 <= j < |cs| && outcome.argvIndex[j] == i + 1 ==> j == order[i]
  {
    DecodeEncode('3', blocks, i);
  }

  lemma BlocksTell(b: Block, role: Role, c: Block, asked: Role)
    requires asked.PartitionRole? || asked.MetadataRole? || asked.DistanceRole? || asked.RowidInRole?
    requires Announces(b, role) && Announces(c, asked)
    ensures b == c <==> role == asked
  {}

  /** An argument decodes to a block of one constraint's role exactly when it was given to such a constraint. */
  lemma DecodedIsGiven(columns: seq<Column>, cs: seq<Constraint>, outcome: Outcome, order: seq<nat>, blocks: seq<Block>,
                       role: Role, b: Block, i: nat)
    requires KnnPlan(columns, cs, outcome, order, blocks) && i < |order|
    requires role.PartitionRole? || role.MetadataRole? || role.DistanceRole? || role.RowidInRole?
    requires Announces(b, role)
    ensures |outcome.argvIndex| == |cs| && |outcome.idxStr| == 1 + 4 * |order|
    ensures Decode(outcome.idxStr, i) == Some(b) <==> exists j :: Given(columns, cs, outcome.argvIndex, role, j, i)
  {
    BlockOfArgument(columns, cs, outcome, order, blocks, i);
    BlocksTell(blocks[i], RoleOf(columns, cs[order[i]]), b, role);
    hide KnnPlan, Decode, RoleOf, Announces;
    if Decode(outcome.idxStr, i) == Some(b) {
      assert Given(columns, cs, outcome.argvIndex, role, order[i], i);
    }
  }

  /** A constraint with one of these roles is never left out of a plan. */
  lemma RoleIsGiven(columns: seq<Column>, cs: seq<Constraint>, outcome: Outcome, order: seq<nat>, blocks: seq<Block>,
                    j: nat)
    requires KnnPlan(columns, cs, outcome, order, blocks) && j < |cs|
    requires var role := RoleOf(columns, cs[j]);
      role.PartitionRole? || role.MetadataRole? || role.DistanceRole? || role.RowidInRole?
    ensures |outcome.argvIndex| == |cs| && 0 < outcome.argvIndex[j] <= |order|
  {
    hide RoleOf;
    if RoleOf(columns, cs[j]).RowidInRole? {
      assert HasRole(columns, cs, j, RowidInRole);
    }
    assert j in order;
  }

  /** Argument `i` is the one passed for constraint `j`. */
  ghost predicate Takes(cs: seq<Constraint>, argvIndex: seq<nat>, args: seq<Argument>, j: int, i: int)
    requires |argvIndex| == |cs|
  {
    0 <= i < |args| && 0 <= j < |cs| && argvIndex[j] == i + 1
  }

  /** A constraint of the statement asks for the comparison, with its own argument. */
  ghost predicate PartitionAsked(columns: seq<Column>, cs: seq<Constraint>, argvIndex: seq<nat>, args: seq<Argument>,
                                 x: PartitionConstraint)
    requires |argvIndex| == |cs|
  {
    exists i, j ::
      Takes(cs, argvIndex, args, j, i) && AsksPartition(columns, cs[j], x.column, x.op) && x.value == args[i].value
  }

  /** What is given to a constraint of a role is taken by one that asks for it. */
  lemma GivenIsAsked(columns: seq<Column>, cs: seq<Constraint>, argvIndex: seq<nat>, args: seq<Argument>, i: nat)
    requires |argvIndex| == |cs| && i < |args|
    ensures forall column: nat, op, j :: Given(columns, cs, argvIndex, PartitionRole(column, op), j, i) <==>
              Takes(cs, argvIndex, args, j, i) && AsksPartition(columns, cs[j], column, op)
    ensures forall column: nat, op, j :: Given(columns, cs, argvIndex, MetadataRole(column, op), j, i) <==>
              Takes(cs, argvIndex, args, j, i) && AsksMetadata(columns, cs[j], column, op)
    ensures forall op, j :: Given(columns, cs, argvIndex, DistanceRole(op), j, i) <==>
              Takes(cs, argvIndex, args, j, i) && AsksDistance(columns, cs[j], op)
    ensures forall vector: nat, j :: Given(columns, cs, argvIndex, MatchRole(vector), j, i) <==>
              Takes(cs, argvIndex, args, j, i) && AsksVector(columns, cs[j], vector)
    ensures forall j :: Given(columns, cs, argvIndex, LimitRole, j, i) <==>
              Takes(cs, argvIndex, args, j, i) && AsksLimit(cs[j])
    ensures forall j :: Given(columns, cs, argvIndex, KRole, j, i) <==>
              Takes(cs, argvIndex, args, j, i) && AsksK(columns, cs[j])
    ensures forall j :: Given(columns, cs, argvIndex, RowidInRole, j, i) <==>
              Takes(cs, argvIndex, args, j, i) && AsksRowids(cs[j])
  {
    hide RoleOf, AsksVector, AsksLimit, AsksK, AsksRowids, AsksPartition, AsksMetadata, AsksDistance;
    forall j | 0 <= j < |cs|
      ensures forall column: nat, op ::
                RoleOf(columns, cs[j]) == PartitionRole(column, op) <==> AsksPartition(columns, cs[j], column, op)
      ensures forall column: nat, op ::
                RoleOf(columns, cs[j]) == MetadataRole(column, op) <==> AsksMetadata(columns, cs[j], column, op)
      ensures forall op :: RoleOf(columns, cs[j]) == DistanceRole(op) <==> AsksDistance(columns, cs[j], op)
      ensures forall vector: nat :: RoleOf(columns, cs[j]) == MatchRole(vector) <==> AsksVector(columns, cs[j], vector)
      ensures RoleOf(columns, cs[j]) == LimitRole <==> AsksLimit(cs[j])
      ensures RoleOf(columns, cs[j]) == KRole <==> AsksK(columns, cs[j])
      ensures RoleOf(columns, cs[j]) == RowidInRole <==> AsksRowids(cs[j])
    {
      RoleMeans(columns, cs[j]);
    }
  }

  lemma PartitionDecoded(columns: seq<Column>, cs: seq<Constraint>, outcome: Outcome, order: seq<nat>,
                         blocks: seq<Block>, args: seq<Argument>, i: nat, column: nat, op: Operator)
    requires KnnPlan(columns, cs, outcome, order, blocks) && |args| == |order| && i < |order|
    ensures |outcome.argvIndex| == |cs| && |outcome.idxStr| == 1 + 4 * |args|
    ensures Decode(outcome.idxStr, i) == Some(PartitionBlock(column, op)) <==>
            exists j :: Takes(cs, outcome.argvIndex, args, j, i) && AsksPartition(columns, cs[j], column, op)
  {
    BlockOfArgument(columns, cs, outcome, order, blocks, 0);
    hide KnnPlan, Decode, RoleOf, Given, Takes, AsksPartition;
    GivenIsAsked(columns, cs, outcome.argvIndex, args, i);
    DecodedIsGiven(columns, cs, outcome, order, blocks, PartitionRole(column, op), PartitionBlock(column, op), i);
  }

  lemma PartitionsAreAsked(columns: seq<Column>, cs: seq<Constraint>, outcome: Outcome, order: seq<nat>,
                           blocks: seq<Block>, args: seq<Argument>, x: PartitionConstraint)
    requires KnnPlan(columns, cs, outcome, order, blocks) && |args| == |order|
    ensures |outcome.argvIndex| == |cs| && |outcome.idxStr| == 1 + 4 * |args|
    ensures x in PartitionsOf(outcome.idxStr, args, |args|) <==> PartitionAsked(columns, cs, outcome.argvIndex, args, x)
  {
    BlockOfArgument(columns, cs, outcome, order, blocks, 0);
    hide KnnPlan, Decode, RoleOf, Takes, AsksPartition;
    PartitionsContain(outcome.idxStr, args, |args|, x);
    forall i: nat | i < |args|
      ensures Decode(outcome.idxStr, i) == Some(PartitionBlock(x.column, x.op)) <==>
              exists j :: Takes(cs, outcome.argvIndex, args, j, i) && AsksPartition(columns, cs[j], x.column, x.op)
    {
      PartitionDecoded(columns, cs, outcome, order, blocks, args, i, x.column, x.op);
    }
  }

  /** A constraint of the statement asks for the comparison, with its own argument. */
  ghost predicate MetadataAsked(columns: seq<Column>, cs: seq<Constraint>, argvIndex: seq<nat>, args: seq<Argument>,
                                 x: MetadataConstraint)
    requires |argvIndex| == |cs|
  {
    exists i, j ::
      Takes(cs, argvIndex, args, j, i) && AsksMetadata(columns, cs[j], x.column, x.op) && x.target == args[i].target
  }

  lemma MetadataDecoded(columns: seq<Column>, cs: seq<Constraint>, outcome: Outcome, order: seq<nat>,
                        blocks: seq<Block>, args: seq<Argument>, i: nat, column: nat, op: Operator)
    requires KnnPlan(columns, cs, outcome, order, blocks) && |args| == |order| && i < |order|
    ensures |outcome.argvIndex| == |cs| && |outcome.idxStr| == 1 + 4 * |args|
    ensures Decode(outcome.idxStr, i) == Some(MetadataBlock(column, op)) <==>
            exists j :: Takes(cs, outcome.argvIndex, args, j, i) && AsksMetadata(columns, cs[j], column, op)
  {
    BlockOfArgument(columns, cs, outcome, order, blocks, 0);
    hide KnnPlan, Decode, RoleOf, Given, Takes, AsksMetadata;
    GivenIsAsked(columns, cs, outcome.argvIndex, args, i);
    DecodedIsGiven(columns, cs, outcome, order, blocks, MetadataRole(column, op), MetadataBlock(column, op), i);
  }

  lemma MetadataAreAsked(columns: seq<Column>, cs: seq<Constraint>, outcome: Outcome, order: seq<nat>,
                         blocks: seq<Block>, args: seq<Argument>, x: MetadataConstraint)
    requires KnnPlan(columns, cs, outcome, order, blocks) && |args| == |order|
    ensures |outcome.argvIndex| == |cs| && |outcome.idxStr| == 1 + 4 * |args|
    ensures x in MetadataOf(outcome.idxStr, args, |args|) <==> MetadataAsked(columns, cs, outcome.argvIndex, args, x)
  {
    BlockOfArgument(columns, cs, outcome, order, blocks, 0);
    hide KnnPlan, Decode, RoleOf, Takes, AsksMetadata;
    MetadataContain(outcome.idxStr, args, |args|, x);
    forall i: nat | i < |args|
      ensures Decode(outcome.idxStr, i) == Some(MetadataBlock(x.column, x.op)) <==>
              exists j :: Takes(cs, outcome.argvIndex, args, j, i) && AsksMetadata(columns, cs[j], x.column, x.op)
    {
      MetadataDecoded(columns, cs, outcome, order, blocks, args, i, x.column, x.op);
    }
  }

  /** A constraint of the statement asks for the comparison, with its own argument. */
  ghost predicate DistanceAsked(columns: seq<Column>, cs: seq<Constraint>, argvIndex: seq<nat>, args: seq<Argument>,
                                 x: DistanceConstraint)
    requires |argvIndex| == |cs|
  {
    exists i, j ::
      Takes(cs, argvIndex, args, j, i) && AsksDistance(columns, cs[j], x.op) && x.bound == args[i].bound
  }

  lemma DistanceDecoded(columns: seq<Column>, cs: seq<Constraint>, outcome: Outcome, order: seq<nat>,
                        blocks: seq<Block>, args: seq<Argument>, i: nat, op: DistanceOperator)
    requires KnnPlan(columns, cs, outcome, order, blocks) && |args| == |order| && i < |order|
    ensures |outcome.argvIndex| == |cs| && |outcome.idxStr| == 1 + 4 * |args|
    ensures Decode(outcome.idxStr, i) == Some(DistanceBlock(op)) <==>
            exists j :: Takes(cs, outcome.argvIndex, args, j, i) && AsksDistance(columns, cs[j], op)
  {
    BlockOfArgument(columns, cs, outcome, order, blocks, 0);
    hide KnnPlan, Decode, RoleOf, Given, Takes, AsksDistance;
    GivenIsAsked(columns, cs, outcome.argvIndex, args, i);
    DecodedIsGiven(columns, cs, outcome, order, blocks, DistanceRole(op), DistanceBlock(op), i);
  }

  lemma DistancesAreAsked(columns: seq<Column>, cs: seq<Constraint>, outcome: Outcome, order: seq<nat>,
                          blocks: seq<Block>, args: seq<Argument>, x: DistanceConstraint)
    requires KnnPlan(columns, cs, outcome, order, blocks) && |args| == |order|
    ensures |outcome.argvIndex| == |cs| && |outcome.idxStr| == 1 + 4 * |args|
    ensures x in DistancesOf(outcome.idxStr, args, |args|) <==> DistanceAsked(columns, cs, outcome.argvIndex, args, x)
  {
    BlockOfArgument(columns, cs, outcome, order, blocks, 0);
    hide KnnPlan, Decode, RoleOf, Takes, AsksDistance;
    DistancesContain(outcome.idxStr, args, |args|, x);
    forall i: nat | i < |args|
      ensures Decode(outcome.idxStr, i) == Some(DistanceBlock(x.op)) <==>
              exists j :: Takes(cs, outcome.argvIndex, args, j, i) && AsksDistance(columns, cs[j], x.op)
    {
      DistanceDecoded(columns, cs, outcome, order, blocks, args, i, x.op);
    }
  }

  /** The query's column and vector are those of the statement's MATCH term. */
  ghost predicate VectorAsked(columns: seq<Column>, cs: seq<Constraint>, argvIndex: seq<nat>, args: seq<Argument>,
                              q: Query)
    requires |argvIndex| == |cs|
  {
    exists i, j ::
      Takes(cs, argvIndex, args, j, i) && AsksVector(columns, cs[j], q.column) && q.vector == args[i].vector
  }

  /** `k` is the argument of the statement's LIMIT or of its k constraint. */
  ghost predicate KAsked(columns: seq<Column>, cs: seq<Constraint>, argvIndex: seq<nat>, args: seq<Argument>, k: int)
    requires |argvIndex| == |cs|
  {
    exists i, j ::
      Takes(cs, argvIndex, args, j, i) && (AsksLimit(cs[j]) || AsksK(columns, cs[j])) && k == args[i].k
  }

  ghost predicate RowidsAsked(cs: seq<Constraint>, argvIndex: seq<nat>, args: seq<Argument>, rowids: seq<int>)
    requires |argvIndex| == |cs|
  {
    exists i, j :: Takes(cs, argvIndex, args, j, i) && AsksRowids(cs[j]) && rowids == args[i].rowids
  }

  /** The arguments of the vector, k and rowid list blocks are those of the constraints they stand for. */
  lemma SpecialsAreAsked(columns: seq<Column>, cs: seq<Constraint>, outcome: Outcome, order: seq<nat>,
                         blocks: seq<Block>, args: seq<Argument>)
    requires KnnPlan(columns, cs, outcome, order, blocks) && |args| == |order|
    ensures |outcome.argvIndex| == |cs| && |outcome.idxStr| == 1 + 4 * |args|
    ensures var m := LastBlock(outcome.idxStr, |args|, MatchBlock);
      m >= 0 ==> order[m] == order[0] && Given(columns, cs, outcome.argvIndex, MatchRole(outcome.idxNum), order[m], m)
    ensures var k := LastBlock(outcome.idxStr, |args|, KBlock);
      k >= 0 ==>
        || Given(columns, cs, outcome.argvIndex, LimitRole, order[k], k)
        || Given(columns, cs, outcome.argvIndex, KRole, order[k], k)
    ensures var r := LastBlock(outcome.idxStr, |args|, RowidInBlock);
      r >= 0 ==> Given(columns, cs, outcome.argvIndex, RowidInRole, order[r], r)
  {
    PlanLengths(columns, cs, outcome, order, blocks);
    var m := LastBlock(outcome.idxStr, |args|, MatchBlock);
    var k := LastBlock(outcome.idxStr, |args|, KBlock);
    var r := LastBlock(outcome.idxStr, |args|, RowidInBlock);
    if m >= 0 {
      BlockOfArgument(columns, cs, outcome, order, blocks, m);
      BlockOfArgument(columns, cs, outcome, order, blocks, 0);
      OneMatch(columns, cs, order[m], order[0]);
    }
    if k >= 0 {
      BlockOfArgument(columns, cs, outcome, order, blocks, k);
    }
    if r >= 0 {
      BlockOfArgument(columns, cs, outcome, order, blocks, r);
    }
  }

  lemma OneMatch(columns: seq<Column>, cs: seq<Constraint>, i: nat, j: nat)
    requires !Ambiguous(columns, cs) && i < |cs| && j < |cs|
    requires RoleOf(columns, cs[i]).MatchRole? && RoleOf(columns, cs[j]).MatchRole?
    ensures i == j
  {
    hide RoleOf;
  }

  /** The constraint asks for a comparison on a partition key, on metadata or on the distance, or for a rowid list. */
  ghost predicate AsksToFilter(columns: seq<Column>, c: Constraint) {
    || AsksRowids(c)
    || (exists column: nat, op :: AsksPartition(columns, c, column, op))
    || (exists column: nat, op :: AsksMetadata(columns, c, column, op))
    || (exists op :: AsksDistance(columns, c, op))
  }

  /** Every constraint that asks for a filter is given an argument. */
  ghost predicate NothingLeftOut(columns: seq<Column>, cs: seq<Constraint>, argvIndex: seq<nat>, args: seq<Argument>)
    requires |argvIndex| == |cs|
  {
    forall j :: 0 <= j < |cs| && AsksToFilter(columns, cs[j]) ==> 0 < argvIndex[j] <= |args|
  }

  /**
   The query rebuilt from a plan makes exactly the partition, metadata and distance comparisons of the statement, each
   on the column it is on, with its operator and its own argument; its vector, k and rowid list are the arguments of
   the MATCH term, of LIMIT or k, and of the rowid list, and it has a rowid list exactly when the statement does.
   */
  lemma QueryIsStatement(columns: seq<Column>, cs: seq<Constraint>, outcome: Outcome, order: seq<nat>,
                         blocks: seq<Block>, args: seq<Argument>, distance: (seq<Byte>, seq<Byte>) -> real)
    requires KnnPlan(columns, cs, outcome, order, blocks) && |args| == |order|
    ensures |outcome.argvIndex| == |cs| && |outcome.idxStr| == 1 + 4 * |args| && outcome.idxNum >= 0
    ensures LastBlock(outcome.idxStr, |args|, MatchBlock) >= 0 && LastBlock(outcome.idxStr, |args|, KBlock) >= 0
    ensures var q := QueryOf(outcome.idxStr, outcome.idxNum, args, distance);
      && (forall x :: x in q.partitions <==> PartitionAsked(columns, cs, outcome.argvIndex, args, x))
      && (forall x :: x in q.metadata <==> MetadataAsked(columns, cs, outcome.argvIndex, args, x))
      && (forall x :: x in q.distances <==> DistanceAsked(columns, cs, outcome.argvIndex, args, x))
      && VectorAsked(columns, cs, outcome.argvIndex, args, q)
      && KAsked(columns, cs, outcome.argvIndex, args, q.k)
      && (q.rowidIn.Some? <==> exists j :: 0 <= j < |cs| && AsksRowids(cs[j]))
      && (q.rowidIn.Some? ==> RowidsAsked(cs, outcome.argvIndex, args, q.rowidIn.value))
    ensures NothingLeftOut(columns, cs, outcome.argvIndex, args)
  {
    PlanLengths(columns, cs, outcome, order, blocks);
    ListsAreAsked(columns, cs, outcome, order, blocks, args);
    TermsAreAsked(columns, cs, outcome, order, blocks, args, distance);
    AllAreGiven(columns, cs, outcome, order, blocks, args);
    hide KnnPlan, LastBlock, PartitionsOf, MetadataOf, DistancesOf, NothingLeftOut, AsksRowids;
    hide PartitionAsked, MetadataAsked, DistanceAsked, VectorAsked, KAsked, RowidsAsked;
  }

  lemma ListsAreAsked(columns: seq<Column>, cs: seq<Constraint>, outcome: Outcome, order: seq<nat>, blocks: seq<Block>,
                      args: seq<Argument>)
    requires KnnPlan(columns, cs, outcome, order, blocks) && |args| == |order|
    ensures |outcome.argvIndex| == |cs| && |outcome.idxStr| == 1 + 4 * |args|
    ensures forall x :: x in PartitionsOf(outcome.idxStr, args, |args|) <==>
              PartitionAsked(columns, cs, outcome.argvIndex, args, x)
    ensures forall x :: x in MetadataOf(outcome.idxStr, args, |args|) <==>
              MetadataAsked(columns, cs, outcome.argvIndex, args, x)
    ensures forall x :: x in DistancesOf(outcome.idxStr, args, |args|) <==>
              DistanceAsked(columns, cs, outcome.argvIndex, args, x)
  {
    PlanLengths(columns, cs, outcome, order, blocks);
    hide KnnPlan, PartitionAsked, MetadataAsked, DistanceAsked, PartitionsOf, MetadataOf, DistancesOf;
    forall x ensures x in PartitionsOf(outcome.idxStr, args, |args|) <==>
      PartitionAsked(columns, cs, outcome.argvIndex, args, x) {
      PartitionsAreAsked(columns, cs, outcome, order, blocks, args, x);
    }
    forall x ensures x in MetadataOf(outcome.idxStr, args, |args|) <==>
      MetadataAsked(columns, cs, outcome.argvIndex, args, x) {
      MetadataAreAsked(columns, cs, outcome, order, blocks, args, x);
    }
    forall x ensures x in DistancesOf(outcome.idxStr, args, |args|) <==>
      DistanceAsked(columns, cs, outcome.argvIndex, args, x) {
      DistancesAreAsked(columns, cs, outcome, order, blocks, args, x);
    }
  }

  lemma TermsAreAsked(columns: seq<Column>, cs: seq<Constraint>, outcome: Outcome, order: seq<nat>, blocks: seq<Block>,
                      args: seq<Argument>, distance: (seq<Byte>, seq<Byte>) -> real)
    requires KnnPlan(columns, cs, outcome, order, blocks) && |args| == |order|
    ensures |outcome.argvIndex| == |cs| && |outcome.idxStr| == 1 + 4 * |args| && outcome.idxNum >= 0
    ensures LastBlock(outcome.idxStr, |args|, MatchBlock) >= 0 && LastBlock(outcome.idxStr, |args|, KBlock) >= 0
    ensures var q := QueryOf(outcome.idxStr, outcome.idxNum, args, distance);
      && VectorAsked(columns, cs, outcome.argvIndex, args, q)
      && KAsked(columns, cs, outcome.argvIndex, args, q.k)
      && (q.rowidIn.Some? <==> exists j :: 0 <= j < |cs| && AsksRowids(cs[j]))
      && (q.rowidIn.Some? ==> RowidsAsked(cs, outcome.argvIndex, args, q.rowidIn.value))
  {
    BlockOfArgument(columns, cs, outcome, order, blocks, 0);
    BlockOfArgument(columns, cs, outcome, order, blocks, 1);
    RowidListIsGiven(columns, cs, outcome, order, blocks);
    SpecialsAreAsked(columns, cs, outcome, order, blocks, args);
    hide KnnPlan, Decode, RoleOf, LastBlock, AsksVector, AsksLimit, AsksK, AsksRowids, PartitionsOf, MetadataOf;
    hide DistancesOf;
    var m := LastBlock(outcome.idxStr, |args|, MatchBlock);
    var k := LastBlock(outcome.idxStr, |args|, KBlock);
    var r := LastBlock(outcome.idxStr, |args|, RowidInBlock);
    GivenIsAsked(columns, cs, outcome.argvIndex, args, m);
    GivenIsAsked(columns, cs, outcome.argvIndex, args, k);
    if r >= 0 {
      GivenIsAsked(columns, cs, outcome.argvIndex, args, r);
    }
    RowidRolesMean(columns, cs);
  }

  lemma RowidRolesMean(columns: seq<Column>, cs: seq<Constraint>)
    ensures Has(columns, cs, RowidInRole) <==> exists j :: 0 <= j < |cs| && AsksRowids(cs[j])
  {
    hide RoleOf, AsksRowids;
    forall j | 0 <= j < |cs|
      ensures HasRole(columns, cs, j, RowidInRole) <==> AsksRowids(cs[j])
    {
      RoleMeans(columns, cs[j]);
    }
  }

  lemma AllAreGiven(columns: seq<Column>, cs: seq<Constraint>, outcome: Outcome, order: seq<nat>, blocks: seq<Block>,
                    args: seq<Argument>)
    requires KnnPlan(columns, cs, outcome, order, blocks) && |args| == |order|
    ensures |outcome.argvIndex| == |cs| && NothingLeftOut(columns, cs, outcome.argvIndex, args)
  {
    PlanLengths(columns, cs, outcome, order, blocks);
    hide KnnPlan, RoleOf, AsksPartition, AsksMetadata, AsksDistance, AsksRowids;
    forall j: nat | j < |cs| && AsksToFilter(columns, cs[j])
      ensures 0 < outcome.argvIndex[j] <= |args|
    {
      RoleMeans(columns, cs[j]);
      RoleIsGiven(columns, cs, outcome, order, blocks, j);
    }
  }

  lemma PlanLengths(columns: seq<Column>, cs: seq<Constraint>, outcome: Outcome, order: seq<nat>, blocks: seq<Block>)
    requires KnnPlan(columns, cs, outcome, order, blocks)
    ensures outcome.Planned? && |outcome.argvIndex| == |cs| && |outcome.idxStr| == 1 + 4 * |order|
    ensures |blocks| == |order|
  {}

  lemma RowidListIsGiven(columns: seq<Column>, cs: seq<Constraint>, outcome: Outcome, order: seq<nat>,
                         blocks: seq<Block>)
    requires KnnPlan(columns, cs, outcome, order, blocks)
    ensures |outcome.idxStr| == 1 + 4 * |order|
    ensures LastBlock(outcome.idxStr, |order|, RowidInBlock) >= 0 <==> Has(columns, cs, RowidInRole)
  {
    PlanLengths(columns, cs, outcome, order, blocks);
    hide KnnPlan, Decode, RoleOf, LastBlock, HasRole;
    var last := LastBlock(outcome.idxStr, |order|, RowidInBlock);
    if last >= 0 {
      DecodedRowidList(columns, cs, outcome, order, blocks, last);
    }
    if Has(columns, cs, RowidInRole) {
      var j :| HasRole(columns, cs, j, RowidInRole);
      var i := RowidListDecoded(columns, cs, outcome, order, blocks, j);
    }
  }

  lemma DecodedRowidList(columns: seq<Column>, cs: seq<Constraint>, outcome: Outcome, order: seq<nat>,
                         blocks: seq<Block>, i: nat)
    requires KnnPlan(columns, cs, outcome, order, blocks) && i < |order| && |outcome.idxStr| == 1 + 4 * |order|
    requires Decode(outcome.idxStr, i) == Some(RowidInBlock)
    ensures Has(columns, cs, RowidInRole)
  {
    PlanLengths(columns, cs, outcome, order, blocks);
    hide KnnPlan, Decode, RoleOf;
    DecodedIsGiven(columns, cs, outcome, order, blocks, RowidInRole, RowidInBlock, i);
    var j :| Given(columns, cs, outcome.argvIndex, RowidInRole, j, i);
  }

  lemma RowidListDecoded(columns: seq<Column>, cs: seq<Constraint>, outcome: Outcome, order: seq<nat>,
                         blocks: seq<Block>, j: int)
    returns (i: nat)
    requires KnnPlan(columns, cs, outcome, order, blocks) && HasRole(columns, cs, j, RowidInRole)
    ensures |outcome.idxStr| == 1 + 4 * |order| && i < |order| && Decode(outcome.idxStr, i) == Some(RowidInBlock)
  {
    PlanLengths(columns, cs, outcome, order, blocks);
    hide KnnPlan, Decode, RoleOf;
    RoleIsGiven(columns, cs, outcome, order, blocks, j);
    i := outcome.argvIndex[j] - 1;
    assert Given(columns, cs, outcome.argvIndex, RowidInRole, j, i);
    DecodedIsGiven(columns, cs, outcome, order, blocks, RowidInRole, RowidInBlock, i);
  }

  /** Each metadata argument is read as the type of the column its block names. */
  predicate ArgumentsTyped(schema: Schema, blocks: seq<Block>, args: seq<Argument>)
    requires |blocks| == |args|
  {
    forall i :: 0 <= i < |blocks| && blocks[i].MetadataBlock? && blocks[i].column < |schema.metadata| ==>
      TargetTyped(schema.metadata[blocks[i].column], blocks[i].metadataOp, args[i].target)
  }

  /** Such a query is one the engine accepts: its columns exist and its operators are supported. */
  lemma PlannedQueryOk(schema: Schema, columns: seq<Column>, cs: seq<Constraint>, outcome: Outcome, order: seq<nat>,
                       blocks: seq<Block>, args: seq<Argument>, distance: (seq<Byte>, seq<Byte>) -> real)
    requires Declares(columns, schema) && KnnPlan(columns, cs, outcome, order, blocks)
    requires |args| == |blocks| && ArgumentsTyped(schema, blocks, args)
    ensures |outcome.idxStr| == 1 + 4 * |args| && outcome.idxNum >= 0
    ensures LastBlock(outcome.idxStr, |args|, MatchBlock) >= 0 && LastBlock(outcome.idxStr, |args|, KBlock) >= 0
    ensures QueryOk(schema, QueryOf(outcome.idxStr, outcome.idxNum, args, distance))
  {
    hide Decode, LastBlock, Declares, ArgumentsTyped, TargetOk, PartitionsOf, MetadataOf, DistancesOf, KnnPlan, QueryOk;
    PlannedColumnDeclared(schema, columns, cs, outcome, order, blocks);
    PlannedTermsFound(columns, cs, outcome, order, blocks, args);
    PlannedFiltersOk(schema, columns, cs, outcome, order, blocks, args);
    FieldsOk(schema, QueryOf(outcome.idxStr, outcome.idxNum, args, distance));
  }

  lemma FieldsOk(schema: Schema, q: Query)
    requires q.column < |schema.vectors|
    requires forall x :: x in q.partitions ==> x.column < |schema.partitions| && !x.op.IN?
    requires forall x :: x in q.metadata ==>
      x.column < |schema.metadata| && TargetOk(schema.metadata[x.column], x.op, x.target)
    ensures QueryOk(schema, q)
  {
  }

  lemma PlannedTermsFound(columns: seq<Column>, cs: seq<Constraint>, outcome: Outcome, order: seq<nat>,
                          blocks: seq<Block>, args: seq<Argument>)
    requires KnnPlan(columns, cs, outcome, order, blocks) && |args| == |order|
    ensures |outcome.idxStr| == 1 + 4 * |args|
    ensures LastBlock(outcome.idxStr, |args|, MatchBlock) >= 0 && LastBlock(outcome.idxStr, |args|, KBlock) >= 0
  {
    BlockOfArgument(columns, cs, outcome, order, blocks, 0);
    BlockOfArgument(columns, cs, outcome, order, blocks, 1);
    hide Decode, LastBlock, RoleOf;
  }

  lemma PlannedFiltersOk(schema: Schema, columns: seq<Column>, cs: seq<Constraint>, outcome: Outcome, order: seq<nat>,
                         blocks: seq<Block>, args: seq<Argument>)
    requires Declares(columns, schema) && KnnPlan(columns, cs, outcome, order, blocks)
    requires |args| == |blocks| && ArgumentsTyped(schema, blocks, args)
    ensures |outcome.idxStr| == 1 + 4 * |args|
    ensures forall x :: x in PartitionsOf(outcome.idxStr, args, |args|) ==>
              x.column < |schema.partitions| && !x.op.IN?
    ensures forall x :: x in MetadataOf(outcome.idxStr, args, |args|) ==>
              x.column < |schema.metadata| && TargetOk(schema.metadata[x.column], x.op, x.target)
  {
    PlanLengths(columns, cs, outcome, order, blocks);
    ListsAreAsked(columns, cs, outcome, order, blocks, args);
    hide PartitionAsked, MetadataAsked, DistanceAsked, Declares, ArgumentsTyped, TargetOk;
    hide PartitionsOf, MetadataOf, DistancesOf, KnnPlan;
    forall x | x in PartitionsOf(outcome.idxStr, args, |args|)
      ensures x.column < |schema.partitions| && !x.op.IN?
    {
      AskedPartitionOk(schema, columns, cs, outcome.argvIndex, args, x);
    }
    forall x | x in MetadataOf(outcome.idxStr, args, |args|)
      ensures x.column < |schema.metadata| && TargetOk(schema.metadata[x.column], x.op, x.target)
    {
      AskedMetadataOk(schema, columns, cs, outcome, order, blocks, args, x);
    }
  }

  lemma PlannedColumnDeclared(schema: Schema, columns: seq<Column>, cs: seq<Constraint>, outcome: Outcome,
                              order: seq<nat>, blocks: seq<Block>)
    requires Declares(columns, schema) && KnnPlan(columns, cs, outcome, order, blocks)
    ensures outcome.Planned? && 0 <= outcome.idxNum < |schema.vectors| && |blocks| == |order|
  {
    BlockOfArgument(columns, cs, outcome, order, blocks, 0);
    MatchColumnDeclared(schema, columns, cs[order[0]]);
  }

  lemma AskedPartitionOk(schema: Schema, columns: seq<Column>, cs: seq<Constraint>, argvIndex: seq<nat>,
                         args: seq<Argument>, x: PartitionConstraint)
    requires Declares(columns, schema) && |argvIndex| == |cs| && PartitionAsked(columns, cs, argvIndex, args, x)
    ensures x.column < |schema.partitions| && !x.op.IN?
  {
    var i, j :|
      Takes(cs, argvIndex, args, j, i) && AsksPartition(columns, cs[j], x.column, x.op) && x.value == args[i].value;
    PartitionColumnDeclared(schema, columns, cs[j], x.column, x.op);
  }

  lemma AskedMetadataOk(schema: Schema, columns: seq<Column>, cs: seq<Constraint>, outcome: Outcome, order: seq<nat>,
                        blocks: seq<Block>, args: seq<Argument>, x: MetadataConstraint)
    requires Declares(columns, schema) && KnnPlan(columns, cs, outcome, order, blocks)
    requires |args| == |blocks| && ArgumentsTyped(schema, blocks, args)
    requires |outcome.argvIndex| == |cs| && MetadataAsked(columns, cs, outcome.argvIndex, args, x)
    ensures x.column < |schema.metadata| && TargetOk(schema.metadata[x.column], x.op, x.target)
  {
    assert |blocks| == |order|;
    hide KnnPlan, RoleOf, Declares, Decode, AsksMetadata;
    var i, j :| Takes(cs, outcome.argvIndex, args, j, i) && AsksMetadata(columns, cs[j], x.column, x.op)
                && x.target == args[i].target;
    MetadataColumnDeclared(schema, columns, cs[j], x.column, x.op);
    GivenIsAsked(columns, cs, outcome.argvIndex, args, i);
    assert Given(columns, cs, outcome.argvIndex, MetadataRole(x.column, x.op), j, i);
    BlockOfArgument(columns, cs, outcome, order, blocks, i);
  }

  lemma MatchColumnDeclared(schema: Schema, columns: seq<Column>, c: Constraint)
    requires Declares(columns, schema) && RoleOf(columns, c).MatchRole?
    ensures RoleOf(columns, c).vector < |schema.vectors|
  {}

  lemma PartitionColumnDeclared(schema: Schema, columns: seq<Column>, c: Constraint, column: nat, op: Operator)
    requires Declares(columns, schema) && AsksPartition(columns, c, column, op)
    ensures column < |schema.partitions| && !op.IN?
  {}

  lemma MetadataColumnDeclared(schema: Schema, columns: seq<Column>, c: Constraint, column: nat, op: Operator)
    requires Declares(columns, schema) && AsksMetadata(columns, c, column, op)
    ensures column < |schema.metadata| && OperatorOk(schema.metadata[column], op)
  {}
}
