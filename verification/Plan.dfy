/**
 Query planning: which constraints of a query are passed to the scan, in which argument position,
 and the index string that tells the scan what each argument means; and the decoding the scan does.
 */
module Plan {
  import opened Wrappers
  import opened SqlValue
  import opened Metadata
  import opened Knn

  datatype ColumnKind = VectorKind | PartitionKind | AuxiliaryKind | MetadataKind(kind: Kind)

  /** A declared column: its kind and its index among the columns of that kind. */
  datatype Column = Column(kind: ColumnKind, idx: nat)

  const COLUMN_ID := 0
  const USERN_START := 1
  const COLUMNS_MAX := 16

  /** Column counts are limited when the table is created. */
  predicate ColumnsOk(columns: seq<Column>) {
    forall c :: c in columns ==> c.idx < COLUMNS_MAX
  }

  datatype ConstraintOp = Limit | Offset | Match | Compare(op: Operator) | OtherOp

  datatype Constraint = Constraint(usable: bool, column: int, op: ConstraintOp, isIn: bool)

  function DistanceColumn(columns: seq<Column>): int {
    USERN_START + |columns|
  }

  function KColumn(columns: seq<Column>): int {
    USERN_START + |columns| + 1
  }

  predicate IsUserColumn(columns: seq<Column>, column: int) {
    USERN_START <= column < USERN_START + |columns|
  }

  // ---- what a constraint asks, in the statement's terms ----

  /** The declared column a comparison is on: columns are numbered from 1. */
  function DeclaredColumn(columns: seq<Column>, c: Constraint): Option<Column> {
    if c.usable && !c.op.Limit? && !c.op.Offset? && 1 <= c.column <= |columns| then Some(columns[c.column - 1])
    else None
  }

  /** `vector MATCH ?` */
  predicate AsksVector(columns: seq<Column>, c: Constraint, vector: nat) {
    DeclaredColumn(columns, c) == Some(Column(VectorKind, vector)) && c.op == Match
  }

  predicate AsksLimit(c: Constraint) {
    c.usable && c.op == Limit
  }

  /** `k = ?`, on the second hidden column. */
  predicate AsksK(columns: seq<Column>, c: Constraint) {
    c.usable && c.column == |columns| + 2 && c.op == Compare(EQ)
  }

  /** `rowid IN (...)`, on column 0. */
  predicate AsksRowids(c: Constraint) {
    c.usable && c.column == 0 && c.op == Compare(EQ) && c.isIn
  }

  predicate AsksRowid(c: Constraint) {
    c.usable && c.column == 0 && c.op == Compare(EQ) && !c.isIn
  }

  /** A comparison with a partition key column. */
  predicate AsksPartition(columns: seq<Column>, c: Constraint, column: nat, op: Operator) {
    DeclaredColumn(columns, c) == Some(Column(PartitionKind, column)) && c.op == Compare(op) && op != IN
  }

  /** A comparison with a metadata column, or `IN (...)` on an integer or text one. */
  predicate AsksMetadata(columns: seq<Column>, c: Constraint, column: nat, op: Operator) {
    var declared := DeclaredColumn(columns, c);
    declared.Some? && declared.value.kind.MetadataKind? && declared.value.idx == column &&
    var kind := declared.value.kind.kind;
    if op == IN then c.op == Compare(EQ) && c.isIn && (kind == Integer || kind == TextColumn)
    else c.op == Compare(op) && !(op == EQ && c.isIn) && (kind == Boolean ==> op == EQ || op == NE)
  }

  /** A bound on the distance, on the first hidden column. */
  predicate AsksDistance(columns: seq<Column>, c: Constraint, op: DistanceOperator) {
    c.usable && c.column == |columns| + 1 &&
    match op
    case FartherThan => c.op == Compare(GT)
    case AtLeast => c.op == Compare(GE)
    case NearerThan => c.op == Compare(LT)
    case AtMost => c.op == Compare(LE)
  }

  predicate ConstrainsAuxiliary(columns: seq<Column>, c: Constraint) {
    var declared := DeclaredColumn(columns, c);
    declared.Some? && declared.value.kind.AuxiliaryKind?
  }

  /** Anything else on a metadata column or on the distance is refused. */
  predicate ConstrainsIllegally(columns: seq<Column>, c: Constraint) {
    var declared := DeclaredColumn(columns, c);
    || (declared.Some? && declared.value.kind.MetadataKind?
        && forall op :: !AsksMetadata(columns, c, declared.value.idx, op))
    || (c.usable && c.op != Limit && c.op != Offset && c.column == |columns| + 1
        && forall op :: !AsksDistance(columns, c, op))
  }

  // ---- what one constraint can be used for ----

  const PARTITION_PASS := 1
  const METADATA_PASS := 2
  const DISTANCE_PASS := 3

  datatype Role =
    | NoRole
    | MatchRole(vector: nat)
    | LimitRole
    | KRole
    | RowidRole
    | RowidInRole
    | PartitionRole(column: nat, op: Operator)
    | MetadataRole(column: nat, metadataOp: Operator)
    | DistanceRole(distanceOp: DistanceOperator)
    | AuxiliaryRole
    | UnsupportedRole(pass: nat)

  function MetadataRoleOf(kind: Kind, idx: nat, c: Constraint): Role {
    if !c.op.Compare? || c.op.op.IN? then UnsupportedRole(METADATA_PASS)
    else if c.op.op.EQ? && c.isIn then
      if kind.Float? || kind.Boolean? then UnsupportedRole(METADATA_PASS) else MetadataRole(idx, IN)
    else if kind.Boolean? && !c.op.op.EQ? && !c.op.op.NE? then UnsupportedRole(METADATA_PASS)
    else MetadataRole(idx, c.op.op)
  }

  function DistanceRoleOf(c: Constraint): Role {
    if !c.op.Compare? then UnsupportedRole(DISTANCE_PASS)
    else match c.op.op
      case GT => DistanceRole(FartherThan)
      case GE => DistanceRole(AtLeast)
      case LT => DistanceRole(NearerThan)
      case LE => DistanceRole(AtMost)
      case _ => UnsupportedRole(DISTANCE_PASS)
  }

  function RoleOf(columns: seq<Column>, c: Constraint): Role {
    if !c.usable then NoRole
    else if c.op.Limit? then LimitRole
    else if c.op.Offset? then NoRole
    else if c.column == COLUMN_ID then
      if c.op == Compare(EQ) then (if c.isIn then RowidInRole else RowidRole) else NoRole
    else if c.column == KColumn(columns) then
      if c.op == Compare(EQ) then KRole else NoRole
    else if c.column == DistanceColumn(columns) then DistanceRoleOf(c)
    else if !IsUserColumn(columns, c.column) then NoRole
    else
      var column := columns[c.column - USERN_START];
      match column.kind
      case VectorKind => if c.op.Match? then MatchRole(column.idx) else NoRole
      case AuxiliaryKind => AuxiliaryRole
      case PartitionKind => if c.op.Compare? && !c.op.op.IN? then PartitionRole(column.idx, c.op.op) else NoRole
      case MetadataKind(kind) => MetadataRoleOf(kind, column.idx, c)
  }

  /** Roles are what constraints ask. */
  lemma RoleMeans(columns: seq<Column>, c: Constraint)
    ensures forall vector: nat :: RoleOf(columns, c) == MatchRole(vector) <==> AsksVector(columns, c, vector)
    ensures RoleOf(columns, c) == LimitRole <==> AsksLimit(c)
    ensures RoleOf(columns, c) == KRole <==> AsksK(columns, c)
    ensures RoleOf(columns, c) == RowidInRole <==> AsksRowids(c)
    ensures RoleOf(columns, c) == RowidRole <==> AsksRowid(c)
    ensures forall column: nat, op ::
              RoleOf(columns, c) == PartitionRole(column, op) <==> AsksPartition(columns, c, column, op)
    ensures forall column: nat, op ::
              RoleOf(columns, c) == MetadataRole(column, op) <==> AsksMetadata(columns, c, column, op)
    ensures forall op :: RoleOf(columns, c) == DistanceRole(op) <==> AsksDistance(columns, c, op)
    ensures RoleOf(columns, c) == AuxiliaryRole <==> ConstrainsAuxiliary(columns, c)
    ensures RoleOf(columns, c).UnsupportedRole? <==> ConstrainsIllegally(columns, c)
  {
    MetadataRoleMeans(columns, c);
    DistanceRoleMeans(columns, c);
  }

  lemma MetadataRoleMeans(columns: seq<Column>, c: Constraint)
    ensures forall column: nat, op ::
              RoleOf(columns, c) == MetadataRole(column, op) <==> AsksMetadata(columns, c, column, op)
    ensures var declared := DeclaredColumn(columns, c);
      declared.Some? && declared.value.kind.MetadataKind? ==>
        (RoleOf(columns, c).UnsupportedRole? <==> forall op :: !AsksMetadata(columns, c, declared.value.idx, op))
  {
    var declared := DeclaredColumn(columns, c);
    if declared.Some? && declared.value.kind.MetadataKind? {
      assert RoleOf(columns, c) == MetadataRoleOf(declared.value.kind.kind, declared.value.idx, c);
      if RoleOf(columns, c).MetadataRole? {
        assert AsksMetadata(columns, c, declared.value.idx, RoleOf(columns, c).metadataOp);
      }
    }
  }

  lemma DistanceRoleMeans(columns: seq<Column>, c: Constraint)
    ensures forall op :: RoleOf(columns, c) == DistanceRole(op) <==> AsksDistance(columns, c, op)
    ensures c.usable && c.op != Limit && c.op != Offset && c.column == |columns| + 1 ==>
              (RoleOf(columns, c).UnsupportedRole? <==> forall op :: !AsksDistance(columns, c, op))
  {
    if c.usable && c.op != Limit && c.op != Offset && c.column == |columns| + 1 {
      assert RoleOf(columns, c) == DistanceRoleOf(c);
      if RoleOf(columns, c).DistanceRole? {
        assert AsksDistance(columns, c, RoleOf(columns, c).distanceOp);
      }
    }
  }

  /** A metadata constraint that is let through is one the column's filter supports. */
  lemma MetadataRoleSupported(columns: seq<Column>, c: Constraint)
    ensures var role := RoleOf(columns, c);
      role.MetadataRole? ==>
        && IsUserColumn(columns, c.column)
        && var column := columns[c.column - USERN_START];
           && column.kind.MetadataKind? && column.idx == role.column
           && (role.metadataOp.IN? ==> column.kind.kind.Integer? || column.kind.kind.TextColumn?)
           && (column.kind.kind.Boolean? ==> role.metadataOp.EQ? || role.metadataOp.NE?)
  {}

  // ---- the index string ----

  /** What the scan learns about one argument. */
  datatype Block =
    | MatchBlock
    | KBlock
    | RowidInBlock
    | PartitionBlock(column: nat, op: Operator)
    | MetadataBlock(column: nat, metadataOp: Operator)
    | DistanceBlock(distanceOp: DistanceOperator)
    | PointBlock

  predicate BlockOk(b: Block) {
    match b
    case PartitionBlock(column, op) => column < COLUMNS_MAX && !op.IN?
    case MetadataBlock(column, _) => column < COLUMNS_MAX
    case _ => true
  }

  function OperatorChar(op: Operator): char {
    match op
    case EQ => 'a'
    case GT => 'b'
    case LE => 'c'
    case LT => 'd'
    case GE => 'e'
    case NE => 'f'
    case IN => 'g'
  }

  function DistanceChar(op: DistanceOperator): char {
    match op
    case FartherThan => 'a'
    case AtLeast => 'b'
    case NearerThan => 'c'
    case AtMost => 'd'
  }

  function ColumnChar(column: nat): char
    requires column < COLUMNS_MAX
  {
    'A' + column as char
  }

  function Encode(b: Block): (s: string)
    requires BlockOk(b)
    ensures |s| == 4
  {
    match b
    case MatchBlock => ['{', '_', '_', '_']
    case KBlock => ['}', '_', '_', '_']
    case RowidInBlock => ['[', '_', '_', '_']
    case PartitionBlock(column, op) => [']', ColumnChar(column), OperatorChar(op), '_']
    case MetadataBlock(column, op) => ['&', ColumnChar(column), OperatorChar(op), '_']
    case DistanceBlock(op) => ['*', DistanceChar(op), '_', '_']
    case PointBlock => ['!', '_', '_', '_']
  }

  function EncodeAll(blocks: seq<Block>): (s: string)
    requires forall b :: b in blocks ==> BlockOk(b)
    ensures |s| == 4 * |blocks|
  {
    if blocks == [] then [] else EncodeAll(blocks[..|blocks| - 1]) + Encode(blocks[|blocks| - 1])
  }

  function OperatorOf(c: char): Option<Operator> {
    match c
    case 'a' => Some(EQ)
    case 'b' => Some(GT)
    case 'c' => Some(LE)
    case 'd' => Some(LT)
    case 'e' => Some(GE)
    case 'f' => Some(NE)
    case 'g' => Some(IN)
    case _ => None
  }

  function DistanceOf(c: char): Option<DistanceOperator> {
    match c
    case 'a' => Some(FartherThan)
    case 'b' => Some(AtLeast)
    case 'c' => Some(NearerThan)
    case 'd' => Some(AtMost)
    case _ => None
  }

  function ColumnOf(c: char): nat {
    if c < 'A' then 0 else c as int - 'A' as int
  }

  /** How the scan reads the four characters of argument `i`. */
  function Decode(idxStr: string, i: nat): Option<Block>
    requires 1 + 4 * i + 4 <= |idxStr|
  {
    var at := 1 + 4 * i;
    match idxStr[at]
    case '{' => Some(MatchBlock)
    case '}' => Some(KBlock)
    case '[' => Some(RowidInBlock)
    case ']' =>
      var op := OperatorOf(idxStr[at + 2]);
      if op.None? || op.value.IN? then None else Some(PartitionBlock(ColumnOf(idxStr[at + 1]), op.value))
    case '&' =>
      var op := OperatorOf(idxStr[at + 2]);
      if op.None? then None else Some(MetadataBlock(ColumnOf(idxStr[at + 1]), op.value))
    case '*' =>
      var op := DistanceOf(idxStr[at + 1]);
      if op.None? then None else Some(DistanceBlock(op.value))
    case '!' => Some(PointBlock)
    case _ => None
  }

  lemma ColumnRoundTrip(column: nat)
    requires column < COLUMNS_MAX
    ensures ColumnOf(ColumnChar(column)) == column
  {}

  /** A block is read back from its four characters alone. */
  lemma DecodeBlock(idxStr: string, i: nat, b: Block)
    requires BlockOk(b) && 1 + 4 * i + 4 <= |idxStr|
    requires forall j :: 0 <= j < 4 ==> idxStr[1 + 4 * i + j] == Encode(b)[j]
    ensures Decode(idxStr, i) == Some(b)
  {
    assert idxStr[1 + 4 * i] == Encode(b)[0] && idxStr[1 + 4 * i + 1] == Encode(b)[1]
      && idxStr[1 + 4 * i + 2] == Encode(b)[2];
    if b.PartitionBlock? || b.MetadataBlock? {
      ColumnRoundTrip(b.column);
    }
  }

  lemma {:induction false} EncodedAt(blocks: seq<Block>, i: nat, j: nat)
    requires (forall b :: b in blocks ==> BlockOk(b)) && i < |blocks| && j < 4
    ensures EncodeAll(blocks)[4 * i + j] == Encode(blocks[i])[j]
  {
    if i < |blocks| - 1 {
      EncodedAt(blocks[..|blocks| - 1], i, j);
    }
  }

  /** Decoding block `i` of an encoded plan gives back block `i`. */
  lemma DecodeEncode(plan: char, blocks: seq<Block>, i: nat)
    requires (forall b :: b in blocks ==> BlockOk(b)) && i < |blocks|
    ensures Decode([plan] + EncodeAll(blocks), i) == Some(blocks[i])
  {
    hide Decode, Encode, EncodeAll;
    var idxStr := [plan] + EncodeAll(blocks);
    forall j | 0 <= j < 4
      ensures idxStr[1 + 4 * i + j] == Encode(blocks[i])[j]
    {
      EncodedAt(blocks, i, j);
    }
    DecodeBlock(idxStr, i, blocks[i]);
  }

  // ---- planning ----

  datatype Outcome = Rejected | Planned(idxStr: string, argvIndex: seq<nat>, idxNum: int)

  /** What a constraint's argument must be announced as. */
  predicate Announces(b: Block, role: Role) {
    match role
    case MatchRole(_) => b == MatchBlock
    case LimitRole => b == KBlock
    case KRole => b == KBlock
    case RowidInRole => b == RowidInBlock
    case RowidRole => b == PointBlock
    case PartitionRole(column, op) => b == PartitionBlock(column, op)
    case MetadataRole(column, op) => b == MetadataBlock(column, op)
    case DistanceRole(op) => b == DistanceBlock(op)
    case _ => false
  }

  /** The block of a role that one of the three passes handles. */
  function BlockOf(role: Role): (b: Block)
    requires role.PartitionRole? || role.MetadataRole? || role.DistanceRole?
    ensures Announces(b, role)
  {
    match role
    case PartitionRole(column, op) => PartitionBlock(column, op)
    case MetadataRole(column, op) => MetadataBlock(column, op)
    case DistanceRole(op) => DistanceBlock(op)
  }

  /** Which pass handles a role; 0 for the terms chosen before the passes. */
  function PassOf(role: Role): nat {
    match role
    case PartitionRole(_, _) => PARTITION_PASS
    case MetadataRole(_, _) => METADATA_PASS
    case DistanceRole(_) => DISTANCE_PASS
    case UnsupportedRole(pass) => pass
    case _ => 0
  }

  lemma RoleBlocksOk(columns: seq<Column>, c: Constraint)
    requires ColumnsOk(columns)
    ensures var role := RoleOf(columns, c);
      role.PartitionRole? || role.MetadataRole? || role.DistanceRole? ==> BlockOk(BlockOf(role))
  {
    if IsUserColumn(columns, c.column) {
      assert columns[c.column - USERN_START] in columns;
    }
  }

  /** Argument positions 1..n are given to the constraints of `order`, one each, and to no other. */
  ghost predicate Assigned(order: seq<nat>, argvIndex: seq<nat>) {
    && (forall i :: 0 <= i < |order| ==> order[i] < |argvIndex| && argvIndex[order[i]] == i + 1)
    && (forall j :: 0 <= j < |argvIndex| ==>
          argvIndex[j] == 0 || (argvIndex[j] <= |order| && order[argvIndex[j] - 1] == j))
  }

  /** Block `i` announces the constraint whose argument position is `i + 1`. */
  ghost predicate Announced(columns: seq<Column>, cs: seq<Constraint>, order: seq<nat>, blocks: seq<Block>) {
    && |order| == |blocks|
    && (forall b :: b in blocks ==> BlockOk(b))
    && (forall i :: 0 <= i < |order| ==> order[i] < |cs| && Announces(blocks[i], RoleOf(columns, cs[order[i]])))
  }

  /** Constraints of earlier passes, and of this pass up to `i`, are all in order and none of them unsupported. */
  ghost predicate PassedUpTo(columns: seq<Column>, cs: seq<Constraint>, order: seq<nat>, pass: nat, i: nat) {
    forall j: nat :: j < |cs| ==>
      var p := PassOf(RoleOf(columns, cs[j]));
      if p == 0 then true
      else if p < pass || (p == pass && j < i) then j in order && !RoleOf(columns, cs[j]).UnsupportedRole?
      else j !in order
  }

  /** A consistent, still incomplete plan. */
  ghost predicate Building(columns: seq<Column>, cs: seq<Constraint>, idxStr: string, argvIndex: seq<nat>,
                           order: seq<nat>, blocks: seq<Block>, plan: char)
  {
    && |argvIndex| == |cs| && Assigned(order, argvIndex) && Announced(columns, cs, order, blocks)
    && idxStr == [plan] + EncodeAll(blocks)
  }

  /** Where a block stands in a plan: vector, k, rowid list, then the three passes. */
  function Stage(b: Block): nat {
    match b
    case MatchBlock => 0
    case KBlock => 1
    case RowidInBlock => 2
    case PartitionBlock(_, _) => 3
    case MetadataBlock(_, _) => 4
    case DistanceBlock(_) => 5
    case PointBlock => 0
  }

  /** Arguments come stage by stage, and within a stage in the order of the statement. */
  ghost predicate InStages(order: seq<nat>, blocks: seq<Block>) {
    && |order| == |blocks|
    && forall i, j :: 0 <= i < j < |blocks| ==>
         || Stage(blocks[i]) < Stage(blocks[j])
         || (Stage(blocks[i]) == Stage(blocks[j]) && order[i] < order[j])
  }

  lemma StageOfPass(role: Role)
    requires role.PartitionRole? || role.MetadataRole? || role.DistanceRole?
    ensures Stage(BlockOf(role)) == PassOf(role) + 2
  {}

  lemma AssignNext(order: seq<nat>, argvIndex: seq<nat>, j: nat)
    requires Assigned(order, argvIndex) && j < |argvIndex| && j !in order
    ensures Assigned(order + [j], argvIndex[j := |order| + 1])
  {}

  lemma EncodeNext(blocks: seq<Block>, b: Block)
    requires (forall x :: x in blocks ==> BlockOk(x)) && BlockOk(b)
    ensures forall x :: x in blocks + [b] ==> BlockOk(x)
    ensures EncodeAll(blocks + [b]) == EncodeAll(blocks) + Encode(b)
  {
    assert (blocks + [b])[..|blocks|] == blocks;
  }

  /** Announcing one more constraint keeps the plan consistent. */
  lemma AnnounceNext(columns: seq<Column>, cs: seq<Constraint>, idxStr: string, argvIndex: seq<nat>,
                     order: seq<nat>, blocks: seq<Block>, plan: char, j: nat, b: Block)
    requires Building(columns, cs, idxStr, argvIndex, order, blocks, plan)
    requires j < |cs| && j !in order && BlockOk(b) && Announces(b, RoleOf(columns, cs[j]))
    ensures Building(columns, cs, idxStr + Encode(b), argvIndex[j := |order| + 1], order + [j], blocks + [b], plan)
  {
    hide RoleOf, Announces, Encode, EncodeAll;
    AssignNext(order, argvIndex, j);
    EncodeNext(blocks, b);
    assert [plan] + (EncodeAll(blocks) + Encode(b)) == [plan] + EncodeAll(blocks) + Encode(b);
  }

  /** One pass over the constraints: announces those it handles, in order, and fails on an unsupported one. */
  method AnnouncePass(columns: seq<Column>, cs: seq<Constraint>, pass: nat, idxStr0: string, argvIndex0: seq<nat>,
                      next0: nat,
                      ghost order0: seq<nat>, ghost blocks0: seq<Block>, ghost plan: char)
    returns (ok: bool, idxStr: string, argvIndex: seq<nat>, next: nat, ghost order: seq<nat>, ghost blocks: seq<Block>)
    requires ColumnsOk(columns) && pass > 0 && next0 == |order0| + 1 && |argvIndex0| == |cs|
    requires Building(columns, cs, idxStr0, argvIndex0, order0, blocks0, plan)
    requires PassedUpTo(columns, cs, order0, pass, 0)
    requires InStages(order0, blocks0) && forall i :: 0 <= i < |blocks0| ==> Stage(blocks0[i]) < pass + 2
    ensures ok ==> InStages(order, blocks) && forall i :: 0 <= i < |blocks| ==> Stage(blocks[i]) < pass + 3
    ensures ok ==> Building(columns, cs, idxStr, argvIndex, order, blocks, plan)
    ensures ok ==> PassedUpTo(columns, cs, order, pass + 1, 0)
    ensures ok ==> order0 <= order && blocks0 <= blocks && next == |order| + 1 && |argvIndex| == |cs|
    ensures !ok ==> exists j :: 0 <= j < |cs| && RoleOf(columns, cs[j]).UnsupportedRole?
  {
    hide RoleOf, Announces, Encode, EncodeAll, Building, BlockOf, BlockOk, Stage;
    ok, idxStr, argvIndex, next, order, blocks := true, idxStr0, argvIndex0, next0, order0, blocks0;
    for i := 0 to |cs|
      invariant Building(columns, cs, idxStr, argvIndex, order, blocks, plan) && PassedUpTo(columns, cs, order, pass, i)
      invariant |argvIndex| == |cs|
      invariant order0 <= order && blocks0 <= blocks && next == |order| + 1
      invariant InStages(order, blocks)
      invariant forall j :: 0 <= j < |blocks| ==>
                  Stage(blocks[j]) < pass + 2 || (Stage(blocks[j]) == pass + 2 && order[j] < i)
    {
      var role := RoleOf(columns, cs[i]);
      if PassOf(role) == pass {
        if role.UnsupportedRole? {
          ok := false;
          return;
        }
        RoleBlocksOk(columns, cs[i]);
        StageOfPass(role);
        AnnounceNext(columns, cs, idxStr, argvIndex, order, blocks, plan, i, BlockOf(role));
        idxStr := idxStr + Encode(BlockOf(role));
        argvIndex := argvIndex[i := next];
        next := next + 1;
        order, blocks := order + [i], blocks + [BlockOf(role)];
      }
    }
  }

  // ---- the terms a plan is built on ----

  /** The constraints with special meaning found by the first pass; -1 when absent. */
  datatype Terms = Terms(match_: int, limit: int, rowid: int, k: int, rowidIn: int, auxiliary: bool)

  predicate HasRole(columns: seq<Column>, cs: seq<Constraint>, j: int, role: Role) {
    0 <= j < |cs| && RoleOf(columns, cs[j]) == role
  }

  /** `j` is the last of the first `n` constraints with the role, or -1 when none has it. */
  ghost predicate IsLast(columns: seq<Column>, cs: seq<Constraint>, n: nat, j: int, role: Role)
    requires n <= |cs|
  {
    && (j == -1 || (j < n && HasRole(columns, cs, j, role)))
    && forall i :: 0 <= i < n && RoleOf(columns, cs[i]) == role ==> i <= j
  }

  /** `j` is the only one of the first `n` constraints that is a MATCH on a vector column, or -1. */
  ghost predicate IsOnlyMatch(columns: seq<Column>, cs: seq<Constraint>, n: nat, j: int)
    requires n <= |cs|
  {
    && (j == -1 || (0 <= j < n && RoleOf(columns, cs[j]).MatchRole?))
    && forall i :: 0 <= i < n && RoleOf(columns, cs[i]).MatchRole? ==> i == j
  }

  ghost predicate IsOnly(columns: seq<Column>, cs: seq<Constraint>, n: nat, j: int, role: Role)
    requires n <= |cs|
  {
    && (j == -1 || (j < n && HasRole(columns, cs, j, role)))
    && forall i :: 0 <= i < n && RoleOf(columns, cs[i]) == role ==> i == j
  }

  ghost predicate TermsFor(columns: seq<Column>, cs: seq<Constraint>, n: nat, t: Terms)
    requires n <= |cs|
  {
    && IsOnlyMatch(columns, cs, n, t.match_)
    && IsLast(columns, cs, n, t.limit, LimitRole)
    && IsLast(columns, cs, n, t.rowid, RowidRole)
    && IsLast(columns, cs, n, t.k, KRole)
    && IsOnly(columns, cs, n, t.rowidIn, RowidInRole)
    && (t.auxiliary <==> exists i :: 0 <= i < n && RoleOf(columns, cs[i]).AuxiliaryRole?)
  }

  /** Two MATCH terms, or two rowid lists, are refused outright. */
  ghost predicate Ambiguous(columns: seq<Column>, cs: seq<Constraint>) {
    exists i, j :: 0 <= i < j < |cs| && Clash(RoleOf(columns, cs[i]), RoleOf(columns, cs[j]))
  }

  predicate Clash(a: Role, b: Role) {
    (a.MatchRole? && b.MatchRole?) || (a.RowidInRole? && b.RowidInRole?)
  }

  method FindTerms(columns: seq<Column>, cs: seq<Constraint>) returns (ok: bool, t: Terms)
    ensures ok <==> !Ambiguous(columns, cs)
    ensures ok ==> TermsFor(columns, cs, |cs|, t)
  {
    hide RoleOf, TermsFor, Ambiguous;
    t := Terms(-1, -1, -1, -1, -1, false);
    NoTerms(columns, cs);
    for i := 0 to |cs|
      invariant TermsFor(columns, cs, i, t)
    {
      NextTerm(columns, cs, i, t);
      match RoleOf(columns, cs[i]) {
        case MatchRole(_) =>
          if t.match_ > -1 {
            return false, t;
          }
          t := t.(match_ := i);
        case LimitRole => t := t.(limit := i);
        case RowidRole => t := t.(rowid := i);
        case KRole => t := t.(k := i);
        case RowidInRole =>
          if t.rowidIn != -1 {
            return false, t;
          }
          t := t.(rowidIn := i);
        case AuxiliaryRole => t := t.(auxiliary := true);
        case _ =>
      }
    }
    NoClash(columns, cs, t);
    ok := true;
  }

  lemma NoTerms(columns: seq<Column>, cs: seq<Constraint>)
    ensures TermsFor(columns, cs, 0, Terms(-1, -1, -1, -1, -1, false))
  {}

  /** What one more constraint makes of the terms found so far. */
  lemma NextTerm(columns: seq<Column>, cs: seq<Constraint>, i: nat, t: Terms)
    requires i < |cs| && TermsFor(columns, cs, i, t)
    ensures match RoleOf(columns, cs[i])
      case MatchRole(_) => if t.match_ > -1 then Ambiguous(columns, cs)
        else TermsFor(columns, cs, i + 1, t.(match_ := i))
      case LimitRole => TermsFor(columns, cs, i + 1, t.(limit := i))
      case RowidRole => TermsFor(columns, cs, i + 1, t.(rowid := i))
      case KRole => TermsFor(columns, cs, i + 1, t.(k := i))
      case RowidInRole => if t.rowidIn != -1 then Ambiguous(columns, cs)
        else TermsFor(columns, cs, i + 1, t.(rowidIn := i))
      case AuxiliaryRole => TermsFor(columns, cs, i + 1, t.(auxiliary := true))
      case _ => TermsFor(columns, cs, i + 1, t)
  {
    hide RoleOf;
  }

  lemma NoClash(columns: seq<Column>, cs: seq<Constraint>, t: Terms)
    requires TermsFor(columns, cs, |cs|, t)
    ensures !Ambiguous(columns, cs)
  {
    hide RoleOf;
  }

  /** An ORDER BY term: its column and whether it is descending. */
  datatype OrderTerm = OrderTerm(column: int, descending: bool)

  predicate OrderAccepted(columns: seq<Column>, orderBy: seq<OrderTerm>) {
    |orderBy| == 0 || (|orderBy| == 1 && orderBy[0].column == DistanceColumn(columns) && !orderBy[0].descending)
  }

  ghost predicate HasMatch(columns: seq<Column>, cs: seq<Constraint>) {
    exists i :: 0 <= i < |cs| && RoleOf(columns, cs[i]).MatchRole?
  }

  ghost predicate HasAuxiliary(columns: seq<Column>, cs: seq<Constraint>) {
    exists i :: 0 <= i < |cs| && RoleOf(columns, cs[i]).AuxiliaryRole?
  }

  ghost predicate HasUnsupported(columns: seq<Column>, cs: seq<Constraint>) {
    exists i :: 0 <= i < |cs| && RoleOf(columns, cs[i]).UnsupportedRole?
  }

  ghost predicate Has(columns: seq<Column>, cs: seq<Constraint>, role: Role) {
    exists i :: HasRole(columns, cs, i, role)
  }

  /** When a query is refused at planning time. */
  ghost predicate Refused(columns: seq<Column>, cs: seq<Constraint>, orderBy: seq<OrderTerm>) {
    Ambiguous(columns, cs) || (HasMatch(columns, cs) && KnnRefused(columns, cs, orderBy))
  }

  /**
   A MATCH query needs exactly one of LIMIT and k, at most ORDER BY distance ascending, and only supported
   constraints.
   */
  ghost predicate KnnRefused(columns: seq<Column>, cs: seq<Constraint>, orderBy: seq<OrderTerm>) {
    || (Has(columns, cs, LimitRole) <==> Has(columns, cs, KRole))
    || !OrderAccepted(columns, orderBy)
    || HasAuxiliary(columns, cs)
    || HasUnsupported(columns, cs)
  }

  /** A finished k-nearest-neighbour plan: vector, k, rowid list if any, then every other constraint it must honour. */
  ghost predicate KnnPlan(columns: seq<Column>, cs: seq<Constraint>, outcome: Outcome, order: seq<nat>,
                          blocks: seq<Block>) {
    && outcome.Planned?
    && Building(columns, cs, outcome.idxStr, outcome.argvIndex, order, blocks, '3')
    && PassedUpTo(columns, cs, order, DISTANCE_PASS + 1, 0)
    && |blocks| >= 2 && blocks[0] == MatchBlock && blocks[1] == KBlock
    && RoleOf(columns, cs[order[0]]).MatchRole? && RoleOf(columns, cs[order[0]]).vector == outcome.idxNum
    && (forall j :: HasRole(columns, cs, j, RowidInRole) ==> j in order)
    && InStages(order, blocks)
    && !Ambiguous(columns, cs)
  }

  /** Announces one term ahead of the passes. */
  method AnnounceTerm(columns: seq<Column>, cs: seq<Constraint>, idxStr0: string, argvIndex0: seq<nat>, next0: nat,
                      j: nat, b: Block,
                      ghost order0: seq<nat>, ghost blocks0: seq<Block>, ghost plan: char)
    returns (idxStr: string, argvIndex: seq<nat>, next: nat, ghost order: seq<nat>, ghost blocks: seq<Block>)
    requires Building(columns, cs, idxStr0, argvIndex0, order0, blocks0, plan) && next0 == |order0| + 1
    requires j < |cs| && j !in order0 && BlockOk(b) && Announces(b, RoleOf(columns, cs[j]))
    ensures Building(columns, cs, idxStr, argvIndex, order, blocks, plan) && next == |order| + 1 && |argvIndex| == |cs|
    ensures order == order0 + [j] && blocks == blocks0 + [b]
  {
    AnnounceNext(columns, cs, idxStr0, argvIndex0, order0, blocks0, plan, j, b);
    order, blocks := order0 + [j], blocks0 + [b];
    return idxStr0 + Encode(b), argvIndex0[j := next0], next0 + 1, order, blocks;
  }

  lemma NothingAnnounced(columns: seq<Column>, cs: seq<Constraint>, plan: char, none: seq<nat>)
    requires none == seq(|cs|, _ => 0)
    ensures Building(columns, cs, [plan], none, [], [], plan)
  {}

  lemma AnnouncedApart(columns: seq<Column>, cs: seq<Constraint>, i: nat, b: Block, j: nat, c: Block)
    requires i < |cs| && j < |cs| && Announces(b, RoleOf(columns, cs[i])) && Announces(c, RoleOf(columns, cs[j]))
    requires b in {MatchBlock, RowidInBlock} && c in {MatchBlock, KBlock} && b != c
    ensures i != j
  {}

  /** The terms announced first: vector, k, and the rowid list if there is one. */
  method AnnounceTerms(columns: seq<Column>, cs: seq<Constraint>, m: nat, k: nat, rowidIn: int)
    returns (idxStr: string, argvIndex: seq<nat>, next: nat, ghost order: seq<nat>, ghost blocks: seq<Block>)
    requires m < |cs| && k < |cs| && rowidIn < |cs|
    requires Announces(MatchBlock, RoleOf(columns, cs[m])) && Announces(KBlock, RoleOf(columns, cs[k]))
    requires rowidIn >= 0 ==> Announces(RowidInBlock, RoleOf(columns, cs[rowidIn]))
    ensures Building(columns, cs, idxStr, argvIndex, order, blocks, '3') && next == |order| + 1 && |argvIndex| == |cs|
    ensures order == [m, k] + if rowidIn >= 0 then [rowidIn] else []
    ensures blocks == [MatchBlock, KBlock] + if rowidIn >= 0 then [RowidInBlock] else []
    ensures m != k && rowidIn != m && rowidIn != k
  {
    hide RoleOf, Encode, Building, Announces;
    AnnouncedApart(columns, cs, m, MatchBlock, k, KBlock);
    if rowidIn >= 0 {
      AnnouncedApart(columns, cs, rowidIn, RowidInBlock, m, MatchBlock);
      AnnouncedApart(columns, cs, rowidIn, RowidInBlock, k, KBlock);
    }
    var none := seq(|cs|, _ => 0);
    NothingAnnounced(columns, cs, '3', none);
    idxStr, argvIndex, next, order, blocks := AnnounceTerm(columns, cs, ['3'], none, 1, m, MatchBlock, [], [], '3');
    idxStr, argvIndex, next, order, blocks :=
      AnnounceTerm(columns, cs, idxStr, argvIndex, next, k, KBlock, order, blocks, '3');
    if rowidIn >= 0 {
      idxStr, argvIndex, next, order, blocks :=
        AnnounceTerm(columns, cs, idxStr, argvIndex, next, rowidIn, RowidInBlock, order, blocks, '3');
    }
  }

  /** The plan of a query whose MATCH term and k are settled. */
  method KnnBestIndex(columns: seq<Column>, cs: seq<Constraint>, t: Terms)
    returns (outcome: Outcome, ghost order: seq<nat>, ghost blocks: seq<Block>)
    requires ColumnsOk(columns) && TermsFor(columns, cs, |cs|, t) && t.match_ >= 0 && (t.limit >= 0 <==> t.k < 0)
    ensures outcome.Rejected? <==> HasUnsupported(columns, cs)
    ensures outcome.Planned? ==> KnnPlan(columns, cs, outcome, order, blocks)
    ensures outcome.Planned? ==> order[1] == if t.limit >= 0 then t.limit else t.k
  {
    hide RoleOf, Building, Ambiguous;
    NoClash(columns, cs, t);
    var idxStr, argvIndex, next;
    var k := if t.limit >= 0 then t.limit else t.k;
    idxStr, argvIndex, next, order, blocks := AnnounceTerms(columns, cs, t.match_, k, t.rowidIn);
    ghost var early := order;
    var ok;
    ok, idxStr, argvIndex, next, order, blocks :=
      AnnouncePass(columns, cs, PARTITION_PASS, idxStr, argvIndex, next, order, blocks, '3');
    if ok {
      ok, idxStr, argvIndex, next, order, blocks :=
        AnnouncePass(columns, cs, METADATA_PASS, idxStr, argvIndex, next, order, blocks, '3');
    }
    if ok {
      ok, idxStr, argvIndex, next, order, blocks :=
        AnnouncePass(columns, cs, DISTANCE_PASS, idxStr, argvIndex, next, order, blocks, '3');
    }
    if !ok {
      return Rejected, order, blocks;
    }
    NoneUnsupported(columns, cs, order);
    assert early == order[..|early|];
    assert t.rowidIn >= 0 ==> order[2] == t.rowidIn;
    outcome := Planned(idxStr, argvIndex, RoleOf(columns, cs[t.match_]).vector);
  }

  lemma NoneUnsupported(columns: seq<Column>, cs: seq<Constraint>, order: seq<nat>)
    requires PassedUpTo(columns, cs, order, DISTANCE_PASS + 1, 0)
    ensures !HasUnsupported(columns, cs)
  {
    forall j | 0 <= j < |cs|
      ensures !RoleOf(columns, cs[j]).UnsupportedRole?
    {
      UnsupportedPass(columns, cs[j]);
    }
  }

  lemma UnsupportedPass(columns: seq<Column>, c: Constraint)
    ensures RoleOf(columns, c).UnsupportedRole? ==> METADATA_PASS <= RoleOf(columns, c).pass <= DISTANCE_PASS
  {}

  /** What finding the terms settles about a query. */
  lemma TermsMean(columns: seq<Column>, cs: seq<Constraint>, t: Terms)
    requires TermsFor(columns, cs, |cs|, t)
    ensures t.match_ >= 0 <==> HasMatch(columns, cs)
    ensures t.limit >= 0 <==> Has(columns, cs, LimitRole)
    ensures t.k >= 0 <==> Has(columns, cs, KRole)
    ensures t.rowid >= 0 <==> Has(columns, cs, RowidRole)
    ensures t.rowid >= 0 ==> t.rowid < |cs| && RoleOf(columns, cs[t.rowid]) == RowidRole
    ensures t.auxiliary <==> HasAuxiliary(columns, cs)
  {
    hide RoleOf;
  }

  // ---- refusal and announcement in the statement's terms ----

  ghost predicate AsksMatch(columns: seq<Column>, cs: seq<Constraint>) {
    exists i, vector: nat :: 0 <= i < |cs| && AsksVector(columns, cs[i], vector)
  }

  /**
   A statement is refused if it has two MATCH terms or two rowid lists; or if it has a MATCH term, and not exactly one
   of LIMIT and k, or an order other than ascending distance, or a constraint on an auxiliary column, or an illegal one.
   */
  ghost predicate StatementRefused(columns: seq<Column>, cs: seq<Constraint>, orderBy: seq<OrderTerm>) {
    || (exists i, j, v: nat, w: nat ::
          0 <= i < j < |cs| && AsksVector(columns, cs[i], v) && AsksVector(columns, cs[j], w))
    || (exists i, j :: 0 <= i < j < |cs| && AsksRowids(cs[i]) && AsksRowids(cs[j]))
    || (AsksMatch(columns, cs) &&
        (|| ((exists i :: 0 <= i < |cs| && AsksLimit(cs[i])) <==> (exists i :: 0 <= i < |cs| && AsksK(columns, cs[i])))
         || |orderBy| > 1 || (|orderBy| == 1 && orderBy[0] != OrderTerm(|columns| + 1, false))
         || (exists i :: 0 <= i < |cs| && ConstrainsAuxiliary(columns, cs[i]))
         || (exists i :: 0 <= i < |cs| && ConstrainsIllegally(columns, cs[i]))))
  }

  lemma RolesMean(columns: seq<Column>, cs: seq<Constraint>)
    ensures HasMatch(columns, cs) <==> AsksMatch(columns, cs)
    ensures Has(columns, cs, LimitRole) <==> exists i :: 0 <= i < |cs| && AsksLimit(cs[i])
    ensures Has(columns, cs, KRole) <==> exists i :: 0 <= i < |cs| && AsksK(columns, cs[i])
    ensures Has(columns, cs, RowidRole) <==> exists i :: 0 <= i < |cs| && AsksRowid(cs[i])
    ensures HasAuxiliary(columns, cs) <==> exists i :: 0 <= i < |cs| && ConstrainsAuxiliary(columns, cs[i])
    ensures HasUnsupported(columns, cs) <==> exists i :: 0 <= i < |cs| && ConstrainsIllegally(columns, cs[i])
  {
    forall i | 0 <= i < |cs|
      ensures RoleOf(columns, cs[i]).MatchRole? <==> exists vector: nat :: AsksVector(columns, cs[i], vector)
      ensures RoleOf(columns, cs[i]) == LimitRole <==> AsksLimit(cs[i])
      ensures RoleOf(columns, cs[i]) == KRole <==> AsksK(columns, cs[i])
      ensures RoleOf(columns, cs[i]) == RowidRole <==> AsksRowid(cs[i])
      ensures RoleOf(columns, cs[i]) == AuxiliaryRole <==> ConstrainsAuxiliary(columns, cs[i])
      ensures RoleOf(columns, cs[i]).UnsupportedRole? <==> ConstrainsIllegally(columns, cs[i])
    {
      hide RoleOf, AsksVector, AsksLimit, AsksK, AsksRowid, ConstrainsAuxiliary, ConstrainsIllegally;
      RoleMeans(columns, cs[i]);
      if RoleOf(columns, cs[i]).MatchRole? {
        assert AsksVector(columns, cs[i], RoleOf(columns, cs[i]).vector);
      }
    }
    hide RoleOf, AsksVector, AsksLimit, AsksK, AsksRowid, ConstrainsAuxiliary, ConstrainsIllegally;
    assert forall i :: HasRole(columns, cs, i, LimitRole) <==> 0 <= i < |cs| && AsksLimit(cs[i]);
    assert forall i :: HasRole(columns, cs, i, KRole) <==> 0 <= i < |cs| && AsksK(columns, cs[i]);
    assert forall i :: HasRole(columns, cs, i, RowidRole) <==> 0 <= i < |cs| && AsksRowid(cs[i]);
  }

  lemma ClashesMean(columns: seq<Column>, cs: seq<Constraint>)
    ensures Ambiguous(columns, cs) <==>
      || (exists i, j, v: nat, w: nat ::
            0 <= i < j < |cs| && AsksVector(columns, cs[i], v) && AsksVector(columns, cs[j], w))
      || (exists i, j :: 0 <= i < j < |cs| && AsksRowids(cs[i]) && AsksRowids(cs[j]))
  {
    hide RoleOf, AsksVector, AsksRowids;
    forall i | 0 <= i < |cs|
      ensures forall vector: nat :: RoleOf(columns, cs[i]) == MatchRole(vector) <==> AsksVector(columns, cs[i], vector)
      ensures RoleOf(columns, cs[i]) == RowidInRole <==> AsksRowids(cs[i])
    {
      RoleMeans(columns, cs[i]);
    }
    if Ambiguous(columns, cs) {
      var i, j :| 0 <= i < j < |cs| && Clash(RoleOf(columns, cs[i]), RoleOf(columns, cs[j]));
      if RoleOf(columns, cs[i]).MatchRole? {
        assert AsksVector(columns, cs[i], RoleOf(columns, cs[i]).vector);
        assert AsksVector(columns, cs[j], RoleOf(columns, cs[j]).vector);
      }
    }
    forall i, j, v: nat, w: nat |
      0 <= i < j < |cs| && AsksVector(columns, cs[i], v) && AsksVector(columns, cs[j], w)
      ensures Ambiguous(columns, cs)
    {
      assert Clash(RoleOf(columns, cs[i]), RoleOf(columns, cs[j]));
    }
    forall i, j | 0 <= i < j < |cs| && AsksRowids(cs[i]) && AsksRowids(cs[j])
      ensures Ambiguous(columns, cs)
    {
      assert Clash(RoleOf(columns, cs[i]), RoleOf(columns, cs[j]));
    }
  }

  /** The planner refuses exactly the statements that are to be refused. */
  lemma RefusedIsStatementRefused(columns: seq<Column>, cs: seq<Constraint>, orderBy: seq<OrderTerm>)
    ensures Refused(columns, cs, orderBy) <==> StatementRefused(columns, cs, orderBy)
  {
    RolesMean(columns, cs);
    ClashesMean(columns, cs);
    hide Ambiguous, HasMatch, Has, HasAuxiliary, HasUnsupported;
    hide AsksMatch, AsksVector, AsksLimit, AsksK, AsksRowids, ConstrainsAuxiliary, ConstrainsIllegally;
  }

  /** What a block says about a constraint. */
  ghost predicate BlockSays(columns: seq<Column>, c: Constraint, b: Block) {
    match b
    case MatchBlock => exists vector: nat :: AsksVector(columns, c, vector)
    case KBlock => AsksLimit(c) || AsksK(columns, c)
    case RowidInBlock => AsksRowids(c)
    case PartitionBlock(column, op) => AsksPartition(columns, c, column, op)
    case MetadataBlock(column, op) => AsksMetadata(columns, c, column, op)
    case DistanceBlock(op) => AsksDistance(columns, c, op)
    case PointBlock => AsksRowid(c)
  }

  lemma AnnouncedIsSaid(columns: seq<Column>, c: Constraint, b: Block)
    requires Announces(b, RoleOf(columns, c))
    ensures BlockSays(columns, c, b)
  {
    RoleMeans(columns, c);
    hide RoleOf, AsksVector, AsksLimit, AsksK, AsksRowids, AsksRowid, AsksPartition, AsksMetadata, AsksDistance;
    if b.MatchBlock? {
      assert AsksVector(columns, c, RoleOf(columns, c).vector);
    }
  }

  /** Plans a query, or refuses it. */
  method BestIndex(columns: seq<Column>, cs: seq<Constraint>, orderBy: seq<OrderTerm>, colUsed: int)
    returns (outcome: Outcome, ghost order: seq<nat>, ghost blocks: seq<Block>)
    requires ColumnsOk(columns)
    ensures outcome.Rejected? <==> StatementRefused(columns, cs, orderBy)
    ensures outcome.Planned? && AsksMatch(columns, cs) ==> KnnPlan(columns, cs, outcome, order, blocks)
    ensures outcome.Planned? && !AsksMatch(columns, cs) ==>
              if exists i :: 0 <= i < |cs| && AsksRowid(cs[i]) then
                Building(columns, cs, outcome.idxStr, outcome.argvIndex, order, blocks, '2') && blocks == [PointBlock]
              else Building(columns, cs, outcome.idxStr, outcome.argvIndex, order, blocks, '1') && blocks == []
  {
    RolesMean(columns, cs);
    RefusedIsStatementRefused(columns, cs, orderBy);
    hide StatementRefused, AsksMatch, AsksRowid;
    hide RoleOf, Building, Encode, TermsFor, Has, HasMatch, HasAuxiliary, HasUnsupported, KnnPlan, Ambiguous;
    order, blocks := [], [];
    var ok, t := FindTerms(columns, cs);
    if !ok {
      return Rejected, order, blocks;
    }
    TermsMean(columns, cs, t);
    NothingAnnounced(columns, cs, '2', seq(|cs|, _ => 0));
    NothingAnnounced(columns, cs, '1', seq(|cs|, _ => 0));
    if t.match_ >= 0 {
      if (t.limit < 0 && t.k < 0) || (t.limit >= 0 && t.k >= 0) || !OrderAccepted(columns, orderBy) || t.auxiliary {
        return Rejected, order, blocks;
      }
      outcome, order, blocks := KnnBestIndex(columns, cs, t);
    } else if t.rowid >= 0 {
      var idxStr, argvIndex, next;
      idxStr, argvIndex, next, order, blocks :=
        AnnounceTerm(columns, cs, ['2'], seq(|cs|, _ => 0), 1, t.rowid, PointBlock, [], [], '2');
      outcome := Planned(idxStr, argvIndex, colUsed);
    } else {
      outcome := Planned(['1'], seq(|cs|, _ => 0), 0);
    }
  }

  /** A metadata filter is planned only for a metadata column of a kind that has the operator. */
  lemma PlannedFilterSupported(columns: seq<Column>, cs: seq<Constraint>, outcome: Outcome, order: seq<nat>,
                               blocks: seq<Block>, i: nat)
    requires KnnPlan(columns, cs, outcome, order, blocks) && i < |blocks| && blocks[i].MetadataBlock?
    ensures exists c :: 0 <= c < |columns| && columns[c].kind.MetadataKind? && columns[c].idx == blocks[i].column
              && (blocks[i].metadataOp.IN? ==> columns[c].kind.kind.Integer? || columns[c].kind.kind.TextColumn?)
              && (columns[c].kind.kind.Boolean? ==> blocks[i].metadataOp.EQ? || blocks[i].metadataOp.NE?)
  {
    var c := cs[order[i]];
    assert Announces(blocks[i], RoleOf(columns, c));
    MetadataRoleSupported(columns, c);
    assert columns[c.column - USERN_START].idx == blocks[i].column;
  }

  /**
   The scan recovers the plan: the string has one block of four characters per argument, and block
   `i` decodes to what the constraint with argument position `i + 1` was announced as.
   */
  lemma PlanMeaning(columns: seq<Column>, cs: seq<Constraint>, idxStr: string, argvIndex: seq<nat>,
                    order: seq<nat>, blocks: seq<Block>, plan: char, j: nat)
    requires Building(columns, cs, idxStr, argvIndex, order, blocks, plan) && j < |cs|
    ensures |idxStr| == 1 + 4 * |order|
    ensures argvIndex[j] <= |order|
    ensures forall i :: 0 <= i < |order| ==> argvIndex[order[i]] == i + 1
    ensures forall i :: 0 <= i < |cs| && i != j && argvIndex[i] == argvIndex[j] ==> argvIndex[j] == 0
    ensures argvIndex[j] > 0 ==>
              var block := Decode(idxStr, argvIndex[j] - 1);
              block.Some? && BlockSays(columns, cs[j], block.value)
  {
    if argvIndex[j] > 0 {
      DecodeEncode(plan, blocks, argvIndex[j] - 1);
      AnnouncedIsSaid(columns, cs[j], blocks[argvIndex[j] - 1]);
    }
  }
}
