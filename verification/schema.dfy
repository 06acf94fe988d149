/** The relational schema that the Alembic revisions act on, the schema operations they issue
    (`op.create_table`, `op.create_index`, `op.add_column` and their drops), and the rule
    PostgreSQL applies before accepting each one. A revision's `upgrade`/`downgrade` is a
    sequence of operations folded over the schema; the first refused operation aborts it. */
module Schema {
  import opened Wrappers

  /** The tables the revisions mention. */
  datatype TableName = Users | Instances | ApiKeys | UsageMetrics

  /** The column names the revisions mention, across all tables (a name such as `id` is one
      value, used by every table that has such a column). */
  datatype ColumnName =
    | Id | FirebaseUid | Email | DisplayName | IsActive | IsVerified | CreatedAt | UpdatedAt
    | LastLoginAt | UserId | Name | Slug | CloudRunServiceName | CloudRunUrl | Region | Status
    | HealthStatus | LastHealthCheck | Config | MemoryMb | CpuCount | MinInstances | MaxInstances
    | Description | Tags | DeployedAt | DeletedAt | DeploymentError | DeploymentLogsUrl
    | InstanceId | KeyHash | ExpiresAt | LastUsedAt | MetricType | Value | Timestamp
    | Neo4jServiceName | Neo4jUrl | Neo4jBoltUrl | Neo4jSecretName | PostgresInstanceName
    | PostgresIp | PostgresConnectionName | PostgresSecretName | PostgresDatabase
    | PostgresUser | OpenaiSecretName

  /** The index names the revisions mention. `op.f(n)` only marks `n` as final and leaves the
      text alone, so `op.f('ix_users_firebase_uid')` and `'ix_users_firebase_uid'` are the
      same name, `IxUsersFirebaseUid`. */
  datatype IndexName =
    | IxUsersEmailActive | IxUsersFirebaseUid | IxUsersId | IxUsersCreatedAt | IxUsersEmail
    | IxInstancesCloudRunService | IxInstancesSlug | IxInstancesUserStatus | IxInstancesId
    | IxInstancesUserId | IxInstancesCloudRunServiceName | IxInstancesCreatedAt
    | IxInstancesStatus | IxApiKeysId | IxApiKeysKeyHash | IxUsageMetricsId
    | IxUsageMetricsTimestamp

  /** What the migrations say about a column beyond its name: `nullable=` and whether a
      `server_default=` is given. SQL types and comments are not modelled. */
  datatype ColumnSpec = ColumnSpec(nullable: bool, hasDefault: bool)

  /** `column` of the owning table references `refColumn` of table `target`. */
  datatype ForeignKey = ForeignKey(column: ColumnName, target: TableName, refColumn: ColumnName)

  datatype Table = Table(columns: map<ColumnName, ColumnSpec>, fks: set<ForeignKey>)

  datatype Index = Index(table: TableName, columns: seq<ColumnName>, unique: bool)

  /** Index names live in one schema-wide namespace, so one map holds the indexes of every
      table. */
  datatype Schema = Schema(tables: map<TableName, Table>, indexes: map<IndexName, Index>)

  const Empty: Schema := Schema(map[], map[])

  datatype Op =
    | CreateTable(table: TableName, columns: map<ColumnName, ColumnSpec>, fks: set<ForeignKey>)
    | DropTable(table: TableName)
    | CreateIndex(name: IndexName, index: Index)
    | DropIndex(name: IndexName, table: TableName)
    | AddColumn(table: TableName, column: ColumnName, spec: ColumnSpec)
    | DropColumn(table: TableName, column: ColumnName)

  /** Why PostgreSQL refuses an operation (its SQLSTATE condition names). */
  datatype Reason =
    | DuplicateTable      // a table, or an index, of that name already exists
    | UndefinedTable
    | UndefinedObject     // DROP INDEX of a name that is not there
    | DuplicateColumn
    | UndefinedColumn
    | DependentObjects    // something else still references what is being dropped

  /** Which operation of a sequence was refused, and why. */
  datatype Failure = Failure(at: nat, reason: Reason)

  /** Every reference in the schema resolves: foreign keys name existing columns on both
      sides, and every index sits on an existing table and names existing columns of it. */
  ghost predicate WellFormed(s: Schema)
  {
    (forall t, fk :: t in s.tables && fk in s.tables[t].fks ==>
       fk.column in s.tables[t].columns && fk.target in s.tables
       && fk.refColumn in s.tables[fk.target].columns)
    && (forall n :: n in s.indexes ==>
          s.indexes[n].table in s.tables
          && forall c :: c in s.indexes[n].columns ==> c in s.tables[s.indexes[n].table].columns)
  }

  /** Some table other than `t` has a foreign key into `t`. */
  predicate Referenced(s: Schema, t: TableName)
  {
    exists u, fk :: u in s.tables && u != t && fk in s.tables[u].fks && fk.target == t
  }

  /** Foreign key `fk` of table `t` mentions `t`'s column `c`, on either side. */
  predicate Uses(t: TableName, fk: ForeignKey, c: ColumnName)
  {
    fk.column == c || (fk.target == t && fk.refColumn == c)
  }

  /** One operation, as PostgreSQL executes it. */
  function Apply(s: Schema, op: Op): Result<Schema, Reason>
  {
    match op
    case CreateTable(t, cols, fks) => ApplyCreateTable(s, t, cols, fks)
    case DropTable(t) => ApplyDropTable(s, t)
    case CreateIndex(n, ix) => ApplyCreateIndex(s, n, ix)
    case DropIndex(n, _) => ApplyDropIndex(s, n)
    case AddColumn(t, c, spec) => ApplyAddColumn(s, t, c, spec)
    case DropColumn(t, c) => ApplyDropColumn(s, t, c)
  }

  /** `CREATE TABLE`: the name is new and every foreign key resolves. */
  function ApplyCreateTable(s: Schema, t: TableName, cols: map<ColumnName, ColumnSpec>,
                            fks: set<ForeignKey>): Result<Schema, Reason>
  {
    if t in s.tables then Err(DuplicateTable)
    else if exists fk :: fk in fks && fk.target !in s.tables then Err(UndefinedTable)
    else if exists fk :: fk in fks && (fk.column !in cols || fk.refColumn !in s.tables[fk.target].columns)
    then Err(UndefinedColumn)
    else Ok(s.(tables := s.tables[t := Table(cols, fks)]))
  }

  /** `DROP TABLE` without `CASCADE`: refused while another table references it; the
      table's own indexes go with it. */
  function ApplyDropTable(s: Schema, t: TableName): Result<Schema, Reason>
  {
    if t !in s.tables then Err(UndefinedTable)
    else if Referenced(s, t) then Err(DependentObjects)
    else Ok(Schema(s.tables - {t}, map n | n in s.indexes && s.indexes[n].table != t :: s.indexes[n]))
  }

  /** `CREATE INDEX`: the name is new in the whole schema, and the table and its columns
      exist. */
  function ApplyCreateIndex(s: Schema, n: IndexName, ix: Index): Result<Schema, Reason>
  {
    if n in s.indexes then Err(DuplicateTable)
    else if ix.table !in s.tables then Err(UndefinedTable)
    else if exists c :: c in ix.columns && c !in s.tables[ix.table].columns then Err(UndefinedColumn)
    else Ok(s.(indexes := s.indexes[n := ix]))
  }

  /** `DROP INDEX`: looks the name up schema-wide; the table name Alembic passes plays no
      part. */
  function ApplyDropIndex(s: Schema, n: IndexName): Result<Schema, Reason>
  {
    if n !in s.indexes then Err(UndefinedObject)
    else Ok(s.(indexes := s.indexes - {n}))
  }

  /** `ALTER TABLE ... ADD COLUMN`: the table exists and the column name is new in it. */
  function ApplyAddColumn(s: Schema, t: TableName, c: ColumnName, spec: ColumnSpec): Result<Schema, Reason>
  {
    if t !in s.tables then Err(UndefinedTable)
    else if c in s.tables[t].columns then Err(DuplicateColumn)
    else Ok(s.(tables := s.tables[t := s.tables[t].(columns := s.tables[t].columns[c := spec])]))
  }

  /** `ALTER TABLE ... DROP COLUMN` without `CASCADE`: refused while another table's
      foreign key points at the column; the table's own indexes and foreign keys that use
      the column go with it. */
  function ApplyDropColumn(s: Schema, t: TableName, c: ColumnName): Result<Schema, Reason>
  {
    if t !in s.tables then Err(UndefinedTable)
    else if c !in s.tables[t].columns then Err(UndefinedColumn)
    else if exists u, fk :: u in s.tables && u != t && fk in s.tables[u].fks && fk.target == t && fk.refColumn == c
    then Err(DependentObjects)
    else
      var tbl := s.tables[t];
      Ok(Schema(s.tables[t := Table(tbl.columns - {c}, set fk | fk in tbl.fks && !Uses(t, fk, c))],
                map n | n in s.indexes && !(s.indexes[n].table == t && c in s.indexes[n].columns)
                  :: s.indexes[n]))
  }

  /** Move a failure position past `k` earlier operations. */
  function Shift(r: Result<Schema, Failure>, k: nat): Result<Schema, Failure>
  {
    if r.Err? then Err(Failure(r.error.at + k, r.error.reason)) else r
  }

  /** Apply a sequence of operations in order; the first refusal aborts the whole sequence
      (Alembic runs a PostgreSQL revision in one transaction). */
  function ApplyAll(s: Schema, ops: seq<Op>): (r: Result<Schema, Failure>)
    ensures r.Err? ==> r.error.at < |ops|
    decreases |ops|
  {
    if ops == [] then Ok(s)
    else match ApplyAll(s, ops[..|ops| - 1])
      case Err(f) => Err(f)
      case Ok(m) =>
        (match Apply(m, ops[|ops| - 1])
         case Err(reason) => Err(Failure(|ops| - 1, reason))
         case Ok(next) => Ok(next))
  }

  /** Running `a ++ b` is running `a`, then `b` from where `a` left off. */
  lemma {:induction false} ApplyAllAppend(s: Schema, a: seq<Op>, b: seq<Op>)
    ensures ApplyAll(s, a + b)
         == (match ApplyAll(s, a)
             case Err(f) => Err(f)
             case Ok(m) => Shift(ApplyAll(m, b), |a|))
    decreases |b|
  {
    if b == [] {
      assert a + b == a;
    } else {
      var init := b[..|b| - 1];
      assert (a + b)[..|a + b| - 1] == a + init;
      assert (a + b)[|a + b| - 1] == b[|b| - 1];
      ApplyAllAppend(s, a, init);
    }
  }

  /** A refused sequence ran its prefix up to the failure position and was refused exactly
      there, for the reported reason. */
  lemma {:induction false} ApplyAllFailure(s: Schema, ops: seq<Op>)
    requires ApplyAll(s, ops).Err?
    ensures var f := ApplyAll(s, ops).error;
            ApplyAll(s, ops[..f.at]).Ok?
            && Apply(ApplyAll(s, ops[..f.at]).value, ops[f.at]) == Err(f.reason)
    decreases |ops|
  {
    var f := ApplyAll(s, ops).error;
    var init := ops[..|ops| - 1];
    if ApplyAll(s, init).Err? {
      ApplyAllFailure(s, init);
      assert ops[..f.at] == init[..f.at] && ops[f.at] == init[f.at];
    } else {
      assert ops[..f.at] == init;
    }
  }

  // ---- Well-formedness is an invariant ----

  lemma ApplyKeepsWellFormed(s: Schema, op: Op)
    requires WellFormed(s) && Apply(s, op).Ok?
    ensures WellFormed(Apply(s, op).value)
  {
    match op {
      case CreateTable(t, cols, fks) => CreateTableKeepsWellFormed(s, t, cols, fks);
      case DropTable(t) => DropTableKeepsWellFormed(s, t);
      case CreateIndex(n, ix) => CreateIndexKeepsWellFormed(s, n, ix);
      case DropIndex(n, _) => DropIndexKeepsWellFormed(s, n);
      case AddColumn(t, c, spec) => AddColumnKeepsWellFormed(s, t, c, spec);
      case DropColumn(t, c) => DropColumnKeepsWellFormed(s, t, c);
    }
  }

  lemma CreateTableKeepsWellFormed(s: Schema, t: TableName, cols: map<ColumnName, ColumnSpec>,
                                   fks: set<ForeignKey>)
    requires WellFormed(s) && ApplyCreateTable(s, t, cols, fks).Ok?
    ensures WellFormed(ApplyCreateTable(s, t, cols, fks).value)
  {
  }

  lemma DropTableKeepsWellFormed(s: Schema, t: TableName)
    requires WellFormed(s) && ApplyDropTable(s, t).Ok?
    ensures WellFormed(ApplyDropTable(s, t).value)
  {
    var s' := ApplyDropTable(s, t).value;
    forall u, fk | u in s'.tables && fk in s'.tables[u].fks
      ensures fk.target in s'.tables
    {
      assert u != t && fk in s.tables[u].fks && !Referenced(s, t);
    }
  }

  lemma CreateIndexKeepsWellFormed(s: Schema, n: IndexName, ix: Index)
    requires WellFormed(s) && ApplyCreateIndex(s, n, ix).Ok?
    ensures WellFormed(ApplyCreateIndex(s, n, ix).value)
  {
  }

  lemma DropIndexKeepsWellFormed(s: Schema, n: IndexName)
    requires WellFormed(s) && ApplyDropIndex(s, n).Ok?
    ensures WellFormed(ApplyDropIndex(s, n).value)
  {
  }

  lemma AddColumnKeepsWellFormed(s: Schema, t: TableName, c: ColumnName, spec: ColumnSpec)
    requires WellFormed(s) && ApplyAddColumn(s, t, c, spec).Ok?
    ensures WellFormed(ApplyAddColumn(s, t, c, spec).value)
  {
  }

  lemma DropColumnKeepsWellFormed(s: Schema, t: TableName, c: ColumnName)
    requires WellFormed(s) && ApplyDropColumn(s, t, c).Ok?
    ensures WellFormed(ApplyDropColumn(s, t, c).value)
  {
    var s' := ApplyDropColumn(s, t, c).value;
    DropColumnKeepsForeignKeys(s, t, c);
    DropColumnKeepsIndexes(s, t, c);
  }

  lemma DropColumnKeepsForeignKeys(s: Schema, t: TableName, c: ColumnName)
    requires WellFormed(s) && ApplyDropColumn(s, t, c).Ok?
    ensures var s' := ApplyDropColumn(s, t, c).value;
      forall u, fk :: u in s'.tables && fk in s'.tables[u].fks ==>
        fk.column in s'.tables[u].columns && fk.target in s'.tables
        && fk.refColumn in s'.tables[fk.target].columns
  {
    var s' := ApplyDropColumn(s, t, c).value;
    forall u, fk | u in s'.tables && fk in s'.tables[u].fks
      ensures fk.column in s'.tables[u].columns && fk.target in s'.tables
              && fk.refColumn in s'.tables[fk.target].columns
    {
      DropColumnKeepsForeignKey(s, t, c, u, fk);
    }
  }

  /** One surviving foreign key of a `DROP COLUMN` still resolves. */
  lemma DropColumnKeepsForeignKey(s: Schema, t: TableName, c: ColumnName, u: TableName, fk: ForeignKey)
    requires WellFormed(s) && ApplyDropColumn(s, t, c).Ok?
    requires u in ApplyDropColumn(s, t, c).value.tables && fk in ApplyDropColumn(s, t, c).value.tables[u].fks
    ensures var s' := ApplyDropColumn(s, t, c).value;
      fk.column in s'.tables[u].columns && fk.target in s'.tables
      && fk.refColumn in s'.tables[fk.target].columns
  {
    assert fk in s.tables[u].fks;
    if u == t {
      assert !Uses(t, fk, c);
    } else if fk.target == t {
      assert fk.refColumn != c;
    }
  }

  lemma DropColumnKeepsIndexes(s: Schema, t: TableName, c: ColumnName)
    requires WellFormed(s) && ApplyDropColumn(s, t, c).Ok?
    ensures var s' := ApplyDropColumn(s, t, c).value;
      forall n :: n in s'.indexes ==>
        s'.indexes[n].table in s'.tables
        && forall d :: d in s'.indexes[n].columns ==> d in s'.tables[s'.indexes[n].table].columns
  {
    var s' := ApplyDropColumn(s, t, c).value;
    forall n | n in s'.indexes
      ensures s'.indexes[n].table in s'.tables
              && forall d :: d in s'.indexes[n].columns ==> d in s'.tables[s'.indexes[n].table].columns
    {
      assert n in s.indexes && s'.indexes[n] == s.indexes[n];
    }
  }

  lemma {:induction false} ApplyAllKeepsWellFormed(s: Schema, ops: seq<Op>)
    requires WellFormed(s) && ApplyAll(s, ops).Ok?
    ensures WellFormed(ApplyAll(s, ops).value)
    decreases |ops|
  {
    if ops != [] {
      var init := ops[..|ops| - 1];
      ApplyAllKeepsWellFormed(s, init);
      ApplyKeepsWellFormed(ApplyAll(s, init).value, ops[|ops| - 1]);
    }
  }

  // ---- Creating operations and their inverses ----

  /** The operations an `upgrade` issues. */
  predicate Creates(op: Op)
  {
    op.CreateTable? || op.CreateIndex? || op.AddColumn?
  }

  /** The drop that takes back a creating operation. */
  function Undo(op: Op): (u: Op)
    requires Creates(op)
    ensures !Creates(u) && u.table == (if op.CreateIndex? then op.index.table else op.table)
  {
    match op
    case CreateTable(t, _, _) => DropTable(t)
    case CreateIndex(n, ix) => DropIndex(n, ix.table)
    case AddColumn(t, c, _) => DropColumn(t, c)
  }

  /** The `downgrade` that takes back an `upgrade`: the inverses, in reverse order. */
  function UndoAll(ops: seq<Op>): (u: seq<Op>)
    requires forall i :: 0 <= i < |ops| ==> Creates(ops[i])
    ensures |u| == |ops|
    ensures forall i :: 0 <= i < |ops| ==> u[i] == Undo(ops[|ops| - 1 - i])
  {
    if ops == [] then [] else [Undo(ops[|ops| - 1])] + UndoAll(ops[..|ops| - 1])
  }

  /** A creating operation applied to a well-formed schema is taken back exactly by its
      inverse: the schema returns to what it was, indexes and foreign keys included. */
  lemma UndoRestores(s: Schema, op: Op)
    requires WellFormed(s) && Creates(op) && Apply(s, op).Ok?
    ensures Apply(Apply(s, op).value, Undo(op)) == Ok(s)
  {
    match op {
      case CreateTable(t, cols, fks) => UndoCreateTable(s, t, cols, fks);
      case CreateIndex(n, ix) =>
        assert ApplyCreateIndex(s, n, ix).value.indexes - {n} == s.indexes;
      case AddColumn(_, _, _) => UndoAddColumn(s, op);
    }
  }

  lemma UndoCreateTable(s: Schema, t: TableName, cols: map<ColumnName, ColumnSpec>, fks: set<ForeignKey>)
    requires WellFormed(s) && ApplyCreateTable(s, t, cols, fks).Ok?
    ensures ApplyDropTable(ApplyCreateTable(s, t, cols, fks).value, t) == Ok(s)
  {
    var s1 := ApplyCreateTable(s, t, cols, fks).value;
    assert !Referenced(s1, t) by {
      forall u, fk | u in s1.tables && u != t && fk in s1.tables[u].fks
        ensures fk.target != t
      {
        assert u in s.tables && fk in s.tables[u].fks;
      }
    }
    assert s1.tables - {t} == s.tables;
    var kept := map n | n in s1.indexes && s1.indexes[n].table != t :: s1.indexes[n];
    assert kept == s.indexes;
  }

  lemma UndoAddColumn(s: Schema, op: Op)
    requires WellFormed(s) && op.AddColumn? && Apply(s, op).Ok?
    ensures Apply(Apply(s, op).value, Undo(op)) == Ok(s)
  {
    var s1 := Apply(s, op).value;
    var t, c := op.table, op.column;
    assert !(exists u, fk :: u in s1.tables && u != t && fk in s1.tables[u].fks
                             && fk.target == t && fk.refColumn == c) by {
      forall u, fk | u in s1.tables && u != t && fk in s1.tables[u].fks && fk.target == t
        ensures fk.refColumn != c
      {
        assert fk in s.tables[u].fks;
      }
    }
    AddedColumnTableRestored(s, t, c, op.spec);
    AddedColumnIndexesRestored(s, t, c, op.spec);
  }

  lemma AddedColumnTableRestored(s: Schema, t: TableName, c: ColumnName, spec: ColumnSpec)
    requires WellFormed(s) && ApplyAddColumn(s, t, c, spec).Ok?
    ensures var tbl1 := ApplyAddColumn(s, t, c, spec).value.tables[t];
      ApplyAddColumn(s, t, c, spec).value.tables[t := Table(tbl1.columns - {c}, set fk | fk in tbl1.fks && !Uses(t, fk, c))]
      == s.tables
  {
    var s1 := ApplyAddColumn(s, t, c, spec).value;
    var tbl := s.tables[t];
    var tbl1 := s1.tables[t];
    assert tbl1 == Table(tbl.columns[c := spec], tbl.fks);
    assert tbl1.columns - {c} == tbl.columns;
    AbsentColumnUnused(s, t, c);
    assert s1.tables[t := Table(tbl.columns, tbl.fks)] == s.tables;
  }

  /** No foreign key of a well-formed table uses a column the table lacks. */
  lemma AbsentColumnUnused(s: Schema, t: TableName, c: ColumnName)
    requires WellFormed(s) && t in s.tables && c !in s.tables[t].columns
    ensures (set fk | fk in s.tables[t].fks && !Uses(t, fk, c)) == s.tables[t].fks
  {
    forall fk | fk in s.tables[t].fks ensures !Uses(t, fk, c) {
      assert fk.column in s.tables[t].columns && fk.refColumn in s.tables[fk.target].columns;
    }
  }

  lemma AddedColumnIndexesRestored(s: Schema, t: TableName, c: ColumnName, spec: ColumnSpec)
    requires WellFormed(s) && ApplyAddColumn(s, t, c, spec).Ok?
    ensures var s1 := ApplyAddColumn(s, t, c, spec).value;
      (map n | n in s1.indexes && !(s1.indexes[n].table == t && c in s1.indexes[n].columns) :: s1.indexes[n])
      == s.indexes
  {
    var s1 := ApplyAddColumn(s, t, c, spec).value;
    var kept := map n | n in s1.indexes && !(s1.indexes[n].table == t && c in s1.indexes[n].columns)
                  :: s1.indexes[n];
    assert kept == s.indexes;
  }

  /** Round trip: on a well-formed schema, an upgrade made of creating operations that runs
      through is taken back exactly by `UndoAll`, which itself runs through. */
  lemma {:induction false} UndoAllRestores(s: Schema, ops: seq<Op>)
    requires WellFormed(s) && forall i :: 0 <= i < |ops| ==> Creates(ops[i])
    requires ApplyAll(s, ops).Ok?
    ensures ApplyAll(ApplyAll(s, ops).value, UndoAll(ops)) == Ok(s)
    decreases |ops|
  {
    if ops != [] {
      var init, last := ops[..|ops| - 1], ops[|ops| - 1];
      var m := ApplyAll(s, init).value;
      ApplyAllKeepsWellFormed(s, init);
      UndoRestores(m, last);
      UndoAllRestores(s, init);
      var top := ApplyAll(s, ops).value;
      ApplyAllAppend(top, [Undo(last)], UndoAll(init));
      assert [Undo(last)][..0] == [];
      assert ApplyAll(top, [Undo(last)]) == Ok(m);
    }
  }

  /** `xs` with the neighbours at `i` and `i + 1` exchanged. */
  function Swap<T>(xs: seq<T>, i: nat): (r: seq<T>)
    requires i + 1 < |xs|
    ensures |r| == |xs| && r[i] == xs[i + 1] && r[i + 1] == xs[i]
    ensures forall k :: 0 <= k < |xs| && k != i && k != i + 1 ==> r[k] == xs[k]
  {
    xs[..i] + [xs[i + 1], xs[i]] + xs[i + 2..]
  }

  /** Swapping twice at the same place changes nothing. */
  lemma SwapTwice<T>(xs: seq<T>, i: nat)
    requires i + 1 < |xs|
    ensures Swap(Swap(xs, i), i) == xs
  {
  }

  /** A swap inside a part of a concatenation is a swap of the whole, shifted by what comes
      before that part. */
  lemma SwapInside<T>(p: seq<T>, xs: seq<T>, q: seq<T>, i: nat)
    requires i + 1 < |xs|
    ensures Swap(p + xs + q, |p| + i) == p + Swap(xs, i) + q
  {
    var l, r := Swap(p + xs + q, |p| + i), p + Swap(xs, i) + q;
    assert |l| == |r|;
    forall k | 0 <= k < |l| ensures l[k] == r[k] {
      if k < |p| {
      } else if k < |p| + |xs| {
        assert r[k] == Swap(xs, i)[k - |p|];
      } else {
        assert r[k] == q[k - |p| - |xs|];
      }
    }
  }

  /** Two drops of different index names commute: swapping them anywhere inside a sequence
      that runs through leaves its outcome unchanged. */
  lemma SwapDropIndexesIn(s: Schema, p: seq<Op>, a: IndexName, ta: TableName,
                          b: IndexName, tb: TableName, q: seq<Op>)
    requires a != b
    requires ApplyAll(s, p + [DropIndex(a, ta), DropIndex(b, tb)] + q).Ok?
    ensures ApplyAll(s, p + [DropIndex(b, tb), DropIndex(a, ta)] + q)
         == ApplyAll(s, p + [DropIndex(a, ta), DropIndex(b, tb)] + q)
  {
    var ab := [DropIndex(a, ta), DropIndex(b, tb)];
    var ba := [DropIndex(b, tb), DropIndex(a, ta)];
    assert p + ab + q == p + (ab + q) && p + ba + q == p + (ba + q);
    ApplyAllAppend(s, p, ab + q);
    ApplyAllAppend(s, p, ba + q);
    var m := ApplyAll(s, p).value;
    ApplyAllAppend(m, ab, q);
    ApplyAllAppend(m, ba, q);
    DropIndexPair(m, a, ta, b, tb);
    DropIndexPair(m, b, tb, a, ta);
    assert m.indexes - {a} - {b} == m.indexes - {b} - {a};
  }

  /** The same, for neighbours at `i` and `i + 1`. */
  lemma SwapDropIndexes(s: Schema, xs: seq<Op>, i: nat)
    requires i + 1 < |xs| && xs[i].DropIndex? && xs[i + 1].DropIndex? && xs[i].name != xs[i + 1].name
    requires ApplyAll(s, xs).Ok?
    ensures ApplyAll(s, Swap(xs, i)) == ApplyAll(s, xs)
  {
    var p, q := xs[..i], xs[i + 2..];
    assert xs == p + [DropIndex(xs[i].name, xs[i].table), DropIndex(xs[i + 1].name, xs[i + 1].table)] + q;
    SwapDropIndexesIn(s, p, xs[i].name, xs[i].table, xs[i + 1].name, xs[i + 1].table, q);
  }

  /** Two drops of different index names go through exactly when both indexes exist, and
      remove just those two. */
  lemma DropIndexPair(m: Schema, a: IndexName, ta: TableName, b: IndexName, tb: TableName)
    requires a != b
    ensures ApplyAll(m, [DropIndex(a, ta), DropIndex(b, tb)]).Ok? <==> a in m.indexes && b in m.indexes
    ensures ApplyAll(m, [DropIndex(a, ta), DropIndex(b, tb)]).Ok?
            ==> ApplyAll(m, [DropIndex(a, ta), DropIndex(b, tb)]).value == m.(indexes := m.indexes - {a} - {b})
  {
    var ab := [DropIndex(a, ta), DropIndex(b, tb)];
    assert ab[..1] == [DropIndex(a, ta)];
    assert ab[..1][..0] == [];
    assert ApplyAll(m, ab[..1][..0]) == Ok(m);
    assert ApplyAll(m, ab[..1])
        == if a in m.indexes then Ok(m.(indexes := m.indexes - {a})) else Err(Failure(0, UndefinedObject));
    if a in m.indexes {
      var m1 := m.(indexes := m.indexes - {a});
      assert b in m1.indexes <==> b in m.indexes;
      assert ApplyAll(m, ab)
          == if b in m1.indexes then Ok(m1.(indexes := m1.indexes - {b})) else Err(Failure(1, UndefinedObject));
    }
  }

  // ---- Runs that go through ----

  /** Index creations whose names are new and pairwise different, on tables and columns
      that exist, all go through: the tables stay as they are and exactly those indexes
      are added. */
  lemma {:induction false} CreateIndexesRun(s: Schema, ixs: seq<Op>)
    requires forall k :: 0 <= k < |ixs| ==>
               ixs[k].CreateIndex? && ixs[k].name !in s.indexes && ixs[k].index.table in s.tables
               && forall c :: c in ixs[k].index.columns ==> c in s.tables[ixs[k].index.table].columns
    requires forall k, l :: 0 <= k < l < |ixs| ==> ixs[k].name != ixs[l].name
    ensures ApplyAll(s, ixs).Ok? && ApplyAll(s, ixs).value.tables == s.tables
    ensures forall n :: n in ApplyAll(s, ixs).value.indexes
                        <==> n in s.indexes || exists k :: 0 <= k < |ixs| && ixs[k].name == n
    ensures forall n :: n in s.indexes ==> ApplyAll(s, ixs).value.indexes[n] == s.indexes[n]
    ensures forall k :: 0 <= k < |ixs| ==> ApplyAll(s, ixs).value.indexes[ixs[k].name] == ixs[k].index
    decreases |ixs|
  {
    if ixs != [] {
      var init, last := ixs[..|ixs| - 1], ixs[|ixs| - 1];
      assert forall k :: 0 <= k < |init| ==> init[k] == ixs[k];
      CreateIndexesRun(s, init);
      var m := ApplyAll(s, init).value;
      assert last.name !in m.indexes;
      CreateIndexAccepted(m, last.name, last.index);
      assert last == CreateIndex(last.name, last.index);
      ApplyAllStep(s, ixs);
    }
  }

  /** Creating an index under a new name on existing columns adds exactly that index. */
  lemma CreateIndexAccepted(s: Schema, n: IndexName, ix: Index)
    requires n !in s.indexes && ix.table in s.tables
    requires forall c :: c in ix.columns ==> c in s.tables[ix.table].columns
    ensures Apply(s, CreateIndex(n, ix)) == Ok(s.(indexes := s.indexes[n := ix]))
  {
  }

  /** A table's columns after a run of `AddColumn` operations, later ones winning. */
  function WithColumns(cols: map<ColumnName, ColumnSpec>, ops: seq<Op>): (m: map<ColumnName, ColumnSpec>)
    requires forall k :: 0 <= k < |ops| ==> ops[k].AddColumn?
    ensures forall c :: c in m <==> c in cols || exists k :: 0 <= k < |ops| && ops[k].column == c
  {
    if ops == [] then cols
    else
      var init, last := ops[..|ops| - 1], ops[|ops| - 1];
      assert forall k :: 0 <= k < |init| ==> init[k] == ops[k];
      WithColumns(cols, init)[last.column := last.spec]
  }

  /** With pairwise different new names, every old column keeps its spec and each added
      column gets the spec its operation gives. */
  lemma {:induction false} WithColumnsSpecs(cols: map<ColumnName, ColumnSpec>, ops: seq<Op>)
    requires forall k :: 0 <= k < |ops| ==> ops[k].AddColumn? && ops[k].column !in cols
    requires forall k, l :: 0 <= k < l < |ops| ==> ops[k].column != ops[l].column
    ensures forall c :: c in cols ==> WithColumns(cols, ops)[c] == cols[c]
    ensures forall k :: 0 <= k < |ops| ==> WithColumns(cols, ops)[ops[k].column] == ops[k].spec
    decreases |ops|
  {
    if ops != [] {
      var init := ops[..|ops| - 1];
      assert forall k :: 0 <= k < |init| ==> init[k] == ops[k];
      WithColumnsSpecs(cols, init);
    }
  }

  /** A second update of the same key overrides the first. */
  lemma UpdateTwice<K, V>(m: map<K, V>, k: K, a: V, b: V)
    ensures m[k := a][k := b] == m[k := b]
  {
  }

  /** One step of a run that has gone through so far and whose last operation is accepted. */
  lemma ApplyAllStep(s: Schema, ops: seq<Op>)
    requires ops != [] && ApplyAll(s, ops[..|ops| - 1]).Ok?
    requires Apply(ApplyAll(s, ops[..|ops| - 1]).value, ops[|ops| - 1]).Ok?
    ensures ApplyAll(s, ops) == Ok(Apply(ApplyAll(s, ops[..|ops| - 1]).value, ops[|ops| - 1]).value)
  {
  }

  /** Adding a new column to an existing table changes that table's columns and nothing else. */
  lemma AddColumnAccepted(s: Schema, t: TableName, c: ColumnName, spec: ColumnSpec)
    requires t in s.tables && c !in s.tables[t].columns
    ensures Apply(s, AddColumn(t, c, spec))
         == Ok(s.(tables := s.tables[t := s.tables[t].(columns := s.tables[t].columns[c := spec])]))
  {
  }

  /** Column additions to one existing table, with new and pairwise different names, all go
      through, and change nothing but that table's columns. */
  lemma {:induction false} AddColumnsRun(s: Schema, t: TableName, ops: seq<Op>)
    requires t in s.tables
    requires forall k :: 0 <= k < |ops| ==>
               ops[k].AddColumn? && ops[k].table == t && ops[k].column !in s.tables[t].columns
    requires forall k, l :: 0 <= k < l < |ops| ==> ops[k].column != ops[l].column
    ensures ApplyAll(s, ops)
         == Ok(s.(tables := s.tables[t := s.tables[t].(columns := WithColumns(s.tables[t].columns, ops))]))
    decreases |ops|
  {
    if ops == [] {
      assert s.tables[t := s.tables[t]] == s.tables;
    } else {
      var init, last := ops[..|ops| - 1], ops[|ops| - 1];
      assert forall k :: 0 <= k < |init| ==> init[k] == ops[k];
      AddColumnsRun(s, t, init);
      var m := ApplyAll(s, init).value;
      assert last.column !in m.tables[t].columns;
      AddColumnAccepted(m, t, last.column, last.spec);
      assert last == AddColumn(t, last.column, last.spec);
      ApplyAllStep(s, ops);
      var cols := s.tables[t].columns;
      assert WithColumns(cols, ops) == WithColumns(cols, init)[last.column := last.spec];
      UpdateTwice(s.tables, t, s.tables[t].(columns := WithColumns(cols, init)),
                  s.tables[t].(columns := WithColumns(cols, ops)));
    }
  }

  // ---- Runs that are refused ----

  /** Creating operations never remove an index: what was there, and every index the run
      creates, is there at the end. */
  lemma {:induction false} CreatedIndexesStay(s: Schema, ops: seq<Op>)
    requires forall k :: 0 <= k < |ops| ==> Creates(ops[k])
    requires ApplyAll(s, ops).Ok?
    ensures s.indexes.Keys <= ApplyAll(s, ops).value.indexes.Keys
    ensures forall k :: 0 <= k < |ops| && ops[k].CreateIndex? ==> ops[k].name in ApplyAll(s, ops).value.indexes
    decreases |ops|
  {
    if ops != [] {
      var init := ops[..|ops| - 1];
      assert forall k :: 0 <= k < |init| ==> init[k] == ops[k];
      CreatedIndexesStay(s, init);
    }
  }

  /** An upgrade that creates the same index name twice, with only creating operations in
      between, can never go through: it is refused at the second creation at the latest,
      and if it gets that far it is refused there because the name exists. */
  lemma DuplicateIndexRefused(s: Schema, ops: seq<Op>, i: nat, j: nat)
    requires forall k :: 0 <= k < |ops| ==> Creates(ops[k])
    requires i < j < |ops| && ops[i].CreateIndex? && ops[j].CreateIndex? && ops[i].name == ops[j].name
    ensures ApplyAll(s, ops).Err?
    ensures ApplyAll(s, ops).error.at < j || ApplyAll(s, ops).error == Failure(j, DuplicateTable)
  {
    var pre, post := ops[..j], ops[j..];
    assert ops == pre + post;
    ApplyAllAppend(s, pre, post);
    if ApplyAll(s, pre).Ok? {
      CreatedIndexesStay(s, pre);
      var m := ApplyAll(s, pre).value;
      assert pre[i] == ops[i];
      assert post[0] == ops[j];
      assert Apply(m, post[0]) == Err(DuplicateTable);
    }
  }

  /** Operations that only take things away. */
  predicate Removes(op: Op)
  {
    op.DropTable? || op.DropIndex? || op.DropColumn?
  }

  /** Removing operations never add an index, and an index they drop stays dropped. */
  lemma {:induction false} DroppedIndexesGone(s: Schema, ops: seq<Op>)
    requires forall k :: 0 <= k < |ops| ==> Removes(ops[k])
    requires ApplyAll(s, ops).Ok?
    ensures ApplyAll(s, ops).value.indexes.Keys <= s.indexes.Keys
    ensures forall k :: 0 <= k < |ops| && ops[k].DropIndex? ==> ops[k].name !in ApplyAll(s, ops).value.indexes
    decreases |ops|
  {
    if ops != [] {
      var init := ops[..|ops| - 1];
      assert forall k :: 0 <= k < |init| ==> init[k] == ops[k];
      DroppedIndexesGone(s, init);
    }
  }

  /** A downgrade that drops the same index name twice, with only removing operations in
      between, can never go through: it is refused at the second drop at the latest, and if
      it gets that far it is refused there because the index is gone. */
  lemma DuplicateDropRefused(s: Schema, ops: seq<Op>, i: nat, j: nat)
    requires forall k :: 0 <= k < |ops| ==> Removes(ops[k])
    requires i < j < |ops| && ops[i].DropIndex? && ops[j].DropIndex? && ops[i].name == ops[j].name
    ensures ApplyAll(s, ops).Err?
    ensures ApplyAll(s, ops).error.at < j || ApplyAll(s, ops).error == Failure(j, UndefinedObject)
  {
    var pre, post := ops[..j], ops[j..];
    assert ops == pre + post;
    ApplyAllAppend(s, pre, post);
    if ApplyAll(s, pre).Ok? {
      DroppedIndexesGone(s, pre);
      var m := ApplyAll(s, pre).value;
      assert pre[i] == ops[i];
      assert post[0] == ops[j];
      assert Apply(m, post[0]) == Err(UndefinedObject);
    }
  }

  // ---- Index names per table ----

  /** The index names a sequence creates on table `t`, in order. */
  function CreatedIndexNames(ops: seq<Op>, t: TableName): seq<IndexName>
    decreases |ops|
  {
    if ops == [] then []
    else
      var last := ops[|ops| - 1];
      CreatedIndexNames(ops[..|ops| - 1], t)
      + (if last.CreateIndex? && last.index.table == t then [last.name] else [])
  }

  /** The index names a sequence drops for table `t`, in order. */
  function DroppedIndexNames(ops: seq<Op>, t: TableName): seq<IndexName>
    decreases |ops|
  {
    if ops == [] then []
    else
      var last := ops[|ops| - 1];
      DroppedIndexNames(ops[..|ops| - 1], t)
      + (if last.DropIndex? && last.table == t then [last.name] else [])
  }

  lemma {:induction false} IndexNamesAppend(a: seq<Op>, b: seq<Op>, t: TableName)
    ensures CreatedIndexNames(a + b, t) == CreatedIndexNames(a, t) + CreatedIndexNames(b, t)
    ensures DroppedIndexNames(a + b, t) == DroppedIndexNames(a, t) + DroppedIndexNames(b, t)
    decreases |b|
  {
    if b == [] {
      assert a + b == a;
    } else {
      var init := b[..|b| - 1];
      assert (a + b)[..|a + b| - 1] == a + init;
      assert (a + b)[|a + b| - 1] == b[|b| - 1];
      IndexNamesAppend(a, init, t);
    }
  }

  function Reverse<T>(xs: seq<T>): (r: seq<T>)
    ensures |r| == |xs|
    decreases |xs|
  {
    if xs == [] then [] else [xs[|xs| - 1]] + Reverse(xs[..|xs| - 1])
  }

  lemma {:induction false} ReverseSameElements<T>(xs: seq<T>)
    ensures multiset(Reverse(xs)) == multiset(xs)
    decreases |xs|
  {
    if xs != [] {
      var init := xs[..|xs| - 1];
      ReverseSameElements(init);
      assert xs == init + [xs[|xs| - 1]];
    }
  }

  /** Reversing a sequence extended by at most one element puts that element first. */
  lemma ReverseSnoc<T>(c: seq<T>, n: seq<T>)
    requires |n| <= 1
    ensures Reverse(c + n) == n + Reverse(c)
  {
    if n == [] {
      assert c + n == c;
    } else {
      assert (c + n)[..|c + n| - 1] == c;
    }
  }

  /** `UndoAll` drops, per table, the index names the upgrade created, in reverse order. */
  lemma {:induction false} UndoAllDropsCreated(ops: seq<Op>, t: TableName)
    requires forall i :: 0 <= i < |ops| ==> Creates(ops[i])
    ensures DroppedIndexNames(UndoAll(ops), t) == Reverse(CreatedIndexNames(ops, t))
    decreases |ops|
  {
    if ops != [] {
      var init, last := ops[..|ops| - 1], ops[|ops| - 1];
      assert forall i :: 0 <= i < |init| ==> init[i] == ops[i];
      UndoAllDropsCreated(init, t);
      var c := CreatedIndexNames(init, t);
      var n := if last.CreateIndex? && last.index.table == t then [last.name] else [];
      assert CreatedIndexNames(ops, t) == c + n;
      assert UndoAll(ops) == [Undo(last)] + UndoAll(init);
      IndexNamesAppend([Undo(last)], UndoAll(init), t);
      DroppedOne(Undo(last), t);
      ReverseSnoc(c, n);
    }
  }

  /** The dropped index names of a single operation. */
  lemma DroppedOne(x: Op, t: TableName)
    ensures DroppedIndexNames([x], t) == if x.DropIndex? && x.table == t then [x.name] else []
  {
    assert [x][..0] == [];
  }

  /** Exchanging two neighbours keeps the dropped index names up to order. */
  lemma SwapKeepsDroppedIn(p: seq<Op>, x: Op, y: Op, q: seq<Op>, t: TableName)
    ensures multiset(DroppedIndexNames(p + [y, x] + q, t)) == multiset(DroppedIndexNames(p + [x, y] + q, t))
  {
    IndexNamesAppend(p + [x, y], q, t);
    IndexNamesAppend(p + [y, x], q, t);
    IndexNamesAppend(p, [x, y], t);
    IndexNamesAppend(p, [y, x], t);
    assert [x] + [y] == [x, y] && [y] + [x] == [y, x];
    IndexNamesAppend([x], [y], t);
    IndexNamesAppend([y], [x], t);
    DroppedOne(x, t);
    DroppedOne(y, t);
  }

  lemma SwapKeepsDropped(xs: seq<Op>, i: nat, t: TableName)
    requires i + 1 < |xs|
    ensures multiset(DroppedIndexNames(Swap(xs, i), t)) == multiset(DroppedIndexNames(xs, t))
  {
    var p, q := xs[..i], xs[i + 2..];
    assert xs == p + [xs[i], xs[i + 1]] + q;
    SwapKeepsDroppedIn(p, xs[i], xs[i + 1], q, t);
  }

  // ---- Tables in order ----

  /** The tables a sequence creates, in order. */
  function CreatedTables(ops: seq<Op>): seq<TableName>
    decreases |ops|
  {
    if ops == [] then []
    else CreatedTables(ops[..|ops| - 1]) + (if ops[|ops| - 1].CreateTable? then [ops[|ops| - 1].table] else [])
  }

  /** The tables a sequence drops, in order. */
  function DroppedTables(ops: seq<Op>): seq<TableName>
    decreases |ops|
  {
    if ops == [] then []
    else DroppedTables(ops[..|ops| - 1]) + (if ops[|ops| - 1].DropTable? then [ops[|ops| - 1].table] else [])
  }

  lemma {:induction false} TablesAppend(a: seq<Op>, b: seq<Op>)
    ensures CreatedTables(a + b) == CreatedTables(a) + CreatedTables(b)
    ensures DroppedTables(a + b) == DroppedTables(a) + DroppedTables(b)
    decreases |b|
  {
    if b == [] {
      assert a + b == a;
    } else {
      var init := b[..|b| - 1];
      assert (a + b)[..|a + b| - 1] == a + init;
      assert (a + b)[|a + b| - 1] == b[|b| - 1];
      TablesAppend(a, init);
    }
  }

  /** A sequence with no table creation (drop) creates (drops) no table. */
  lemma {:induction false} NoTables(ops: seq<Op>)
    ensures (forall k :: 0 <= k < |ops| ==> !ops[k].CreateTable?) ==> CreatedTables(ops) == []
    ensures (forall k :: 0 <= k < |ops| ==> !ops[k].DropTable?) ==> DroppedTables(ops) == []
    decreases |ops|
  {
    if ops != [] {
      var init := ops[..|ops| - 1];
      assert forall k :: 0 <= k < |init| ==> init[k] == ops[k];
      NoTables(init);
    }
  }

  /** A block that creates its table first and no other table creates just that table; one
      that drops its table last and no other table drops just that table. */
  lemma TableBlock(b: seq<Op>)
    requires |b| >= 1
    ensures b[0].CreateTable? && (forall k :: 1 <= k < |b| ==> !b[k].CreateTable?)
            ==> CreatedTables(b) == [b[0].table]
    ensures b[|b| - 1].DropTable? && (forall k :: 0 <= k < |b| - 1 ==> !b[k].DropTable?)
            ==> DroppedTables(b) == [b[|b| - 1].table]
  {
    var rest, init := b[1..], b[..|b| - 1];
    assert b == [b[0]] + rest;
    assert forall k :: 0 <= k < |rest| ==> rest[k] == b[k + 1];
    TablesAppend([b[0]], rest);
    NoTables(rest);
    NoTables(init);
    assert [b[0]][..0] == [];
  }

  /** `UndoAll` of a concatenation undoes the second part first. */
  lemma {:induction false} UndoAllAppend(a: seq<Op>, b: seq<Op>)
    requires forall i :: 0 <= i < |a| ==> Creates(a[i])
    requires forall i :: 0 <= i < |b| ==> Creates(b[i])
    ensures forall i :: 0 <= i < |a + b| ==> Creates((a + b)[i])
    ensures UndoAll(a + b) == UndoAll(b) + UndoAll(a)
  {
    var l, r := UndoAll(a + b), UndoAll(b) + UndoAll(a);
    assert |l| == |r|;
    forall i | 0 <= i < |l| ensures l[i] == r[i] {
      if i < |b| {
        assert (a + b)[|a + b| - 1 - i] == b[|b| - 1 - i];
      } else {
        assert (a + b)[|a + b| - 1 - i] == a[|a| - 1 - (i - |b|)];
      }
    }
  }

  // ---- Schemas built from a catalogue of definitions ----

  /** The schema holding the tables `ts` as catalogued in `defs`, and every index of
      `ixdefs` that sits on one of them. */
  function Built(ts: set<TableName>, defs: TableName -> Table, ixdefs: IndexName -> Index): Schema
  {
    Schema(map t | t in ts :: defs(t),
           map n | ixdefs(n).table in ts :: ixdefs(n))
  }

  /** A table's foreign keys resolve against the catalogued tables `ts`. */
  predicate Resolves(ts: set<TableName>, defs: TableName -> Table, t: TableName)
  {
    forall fk :: fk in defs(t).fks ==>
      fk.target in ts && fk.column in defs(t).columns
      && fk.refColumn in defs(fk.target).columns
  }

  /** Nothing of table `t` is in a schema built without it. */
  lemma BuiltWithout(ts: set<TableName>, defs: TableName -> Table, ixdefs: IndexName -> Index,
                     t: TableName)
    requires t !in ts
    ensures t !in Built(ts, defs, ixdefs).tables
    ensures forall n :: ixdefs(n).table == t ==> n !in Built(ts, defs, ixdefs).indexes
    ensures forall u :: u in ts ==>
              u in Built(ts, defs, ixdefs).tables && Built(ts, defs, ixdefs).tables[u] == defs(u)
  {
  }

  /** A schema that adds table `t` to the built tables `ts`, and exactly the creations
      `b[1..]` of all catalogued indexes of `t` under their catalogued definitions to the
      built indexes, is the schema built from `ts + {t}`. */
  lemma BuiltAfterBlock(ts: set<TableName>, defs: TableName -> Table, ixdefs: IndexName -> Index,
                        t: TableName, b: seq<Op>, r: Schema)
    requires forall k :: 1 <= k < |b| ==>
               b[k].CreateIndex? && b[k].index == ixdefs(b[k].name)
    requires forall n :: ixdefs(n).table == t ==> exists k :: 1 <= k < |b| && b[k].name == n
    requires r.tables == Built(ts, defs, ixdefs).tables[t := defs(t)]
    requires forall n :: n in r.indexes <==> n in Built(ts, defs, ixdefs).indexes || exists k :: 1 <= k < |b| && b[k].name == n
    requires forall n :: n in Built(ts, defs, ixdefs).indexes ==> r.indexes[n] == Built(ts, defs, ixdefs).indexes[n]
    requires forall k :: 1 <= k < |b| ==> r.indexes[b[k].name] == b[k].index
    requires forall k :: 1 <= k < |b| ==> b[k].index.table == t
    ensures r == Built(ts + {t}, defs, ixdefs)
  {
    var goal := Built(ts + {t}, defs, ixdefs);
    assert r.tables == goal.tables;
    forall n ensures n in r.indexes <==> n in goal.indexes {
    }
    forall n | n in r.indexes ensures r.indexes[n] == goal.indexes[n] {
      if n !in Built(ts, defs, ixdefs).indexes {
        var k :| 1 <= k < |b| && b[k].name == n;
      }
    }
    assert r.indexes == goal.indexes;
  }

  /** A new table whose foreign keys resolve, followed by fresh, pairwise different indexes
      on its own columns, goes through: the table is added as given and exactly those indexes
      join the old ones. */
  lemma TableThenIndexes(s: Schema, t: TableName, tbl: Table, b: seq<Op>)
    requires t !in s.tables
    requires forall fk :: fk in tbl.fks ==>
               fk.column in tbl.columns && fk.target in s.tables
               && fk.refColumn in s.tables[fk.target].columns
    requires |b| >= 1 && b[0] == CreateTable(t, tbl.columns, tbl.fks)
    requires forall k :: 1 <= k < |b| ==>
               b[k].CreateIndex? && b[k].name !in s.indexes && b[k].index.table == t
               && forall c :: c in b[k].index.columns ==> c in tbl.columns
    requires forall k, l :: 1 <= k < l < |b| ==> b[k].name != b[l].name
    ensures ApplyAll(s, b).Ok? && ApplyAll(s, b).value.tables == s.tables[t := tbl]
    ensures forall n :: n in ApplyAll(s, b).value.indexes
                        <==> n in s.indexes || exists k :: 1 <= k < |b| && b[k].name == n
    ensures forall n :: n in s.indexes ==> ApplyAll(s, b).value.indexes[n] == s.indexes[n]
    ensures forall k :: 1 <= k < |b| ==> ApplyAll(s, b).value.indexes[b[k].name] == b[k].index
  {
    var m := s.(tables := s.tables[t := tbl]);
    var ixs := b[1..];
    CreateTableAccepted(s, t, tbl);
    assert b == [b[0]] + ixs;
    ApplyAllAppend(s, [b[0]], ixs);
    IndexesOnNewTable(s, t, tbl, b);
    CreateIndexesRun(m, ixs);
    IndexesAfterTable(s.indexes, ApplyAll(m, ixs).value.indexes, b);
  }

  /** Creating a table under a new name whose foreign keys resolve adds exactly that table. */
  lemma CreateTableAccepted(s: Schema, t: TableName, tbl: Table)
    requires t !in s.tables
    requires forall fk :: fk in tbl.fks ==>
               fk.column in tbl.columns && fk.target in s.tables
               && fk.refColumn in s.tables[fk.target].columns
    ensures ApplyAll(s, [CreateTable(t, tbl.columns, tbl.fks)]) == Ok(s.(tables := s.tables[t := tbl]))
  {
    var op := CreateTable(t, tbl.columns, tbl.fks);
    assert Apply(s, op) == Ok(s.(tables := s.tables[t := tbl]));
    assert [op][..0] == [];
  }

  /** The indexes after a new table's first operation meet the conditions of `CreateIndexesRun`
      on the schema holding the new table. */
  lemma IndexesOnNewTable(s: Schema, t: TableName, tbl: Table, b: seq<Op>)
    requires |b| >= 1
    requires forall k :: 1 <= k < |b| ==>
               b[k].CreateIndex? && b[k].name !in s.indexes && b[k].index.table == t
               && forall c :: c in b[k].index.columns ==> c in tbl.columns
    requires forall k, l :: 1 <= k < l < |b| ==> b[k].name != b[l].name
    ensures var m := s.(tables := s.tables[t := tbl]);
      && (forall k :: 0 <= k < |b[1..]| ==>
            b[1..][k].CreateIndex? && b[1..][k].name !in m.indexes && b[1..][k].index.table in m.tables
            && forall c :: c in b[1..][k].index.columns ==> c in m.tables[b[1..][k].index.table].columns)
      && (forall k, l :: 0 <= k < l < |b[1..]| ==> b[1..][k].name != b[1..][l].name)
  {
    var ixs := b[1..];
    assert forall k :: 0 <= k < |ixs| ==> ixs[k] == b[k + 1];
  }

  /** The index facts of a run of `b[1..]`, restated with the positions of `b`. */
  lemma IndexesAfterTable(before: map<IndexName, Index>, after: map<IndexName, Index>, b: seq<Op>)
    requires |b| >= 1 && forall k :: 1 <= k < |b| ==> b[k].CreateIndex?
    requires forall n :: n in after <==> n in before || exists k :: 0 <= k < |b[1..]| && b[1..][k].name == n
    requires forall n :: n in before ==> after[n] == before[n]
    requires forall k :: 0 <= k < |b[1..]| ==> after[b[1..][k].name] == b[1..][k].index
    ensures forall n :: n in after <==> n in before || exists k :: 1 <= k < |b| && b[k].name == n
    ensures forall n :: n in before ==> after[n] == before[n]
    ensures forall k :: 1 <= k < |b| ==> after[b[k].name] == b[k].index
  {
    var ixs := b[1..];
    forall n | n in after && n !in before ensures exists k :: 1 <= k < |b| && b[k].name == n {
      var k :| 0 <= k < |ixs| && ixs[k].name == n;
      assert b[k + 1].name == n;
    }
    forall n | n !in before && (exists k :: 1 <= k < |b| && b[k].name == n) ensures n in after {
      var k :| 1 <= k < |b| && b[k].name == n;
      assert ixs[k - 1].name == n;
    }
    forall k | 1 <= k < |b| ensures after[b[k].name] == b[k].index {
      assert ixs[k - 1] == b[k];
    }
  }

  /** A table block: the catalogued table, then indexes of that table only, each under its
      catalogued name and definition on columns of the table, and no name twice. */
  predicate IsBlock(defs: TableName -> Table, ixdefs: IndexName -> Index, t: TableName, b: seq<Op>)
  {
    |b| >= 1 && b[0] == CreateTable(t, defs(t).columns, defs(t).fks)
    && (forall k :: 1 <= k < |b| ==>
          b[k].CreateIndex? && b[k].index == ixdefs(b[k].name) && b[k].index.table == t
          && forall c :: c in b[k].index.columns ==> c in defs(t).columns)
    && (forall k, l :: 1 <= k < l < |b| && b[k].CreateIndex? && b[l].CreateIndex? ==> b[k].name != b[l].name)
  }

  /** Every catalogued index of `t` is created somewhere after the first operation of `b`. */
  predicate Covers(ixdefs: IndexName -> Index, t: TableName, b: seq<Op>)
  {
    forall n :: ixdefs(n).table == t ==> exists k :: 1 <= k < |b| && b[k].CreateIndex? && b[k].name == n
  }

  /** A table block holding every catalogued index of its table, run once the tables `ts`
      its foreign keys need exist, adds exactly that table and its indexes. */
  lemma BlockRuns(ts: set<TableName>, defs: TableName -> Table, ixdefs: IndexName -> Index,
                  t: TableName, b: seq<Op>)
    requires t !in ts && Resolves(ts, defs, t)
    requires IsBlock(defs, ixdefs, t, b) && Covers(ixdefs, t, b)
    ensures ApplyAll(Built(ts, defs, ixdefs), b) == Ok(Built(ts + {t}, defs, ixdefs))
  {
    BuiltWithout(ts, defs, ixdefs, t);
    TableThenIndexes(Built(ts, defs, ixdefs), t, defs(t), b);
    BuiltAfterBlock(ts, defs, ixdefs, t, b, ApplyAll(Built(ts, defs, ixdefs), b).value);
  }

  /** `BlockRuns`, with the tables present afterwards named as `after`. */
  lemma BlockRunsInto(ts: set<TableName>, defs: TableName -> Table, ixdefs: IndexName -> Index,
                      t: TableName, b: seq<Op>, after: set<TableName>)
    requires t !in ts && Resolves(ts, defs, t)
    requires IsBlock(defs, ixdefs, t, b) && Covers(ixdefs, t, b)
    requires after == ts + {t}
    ensures ApplyAll(Built(ts, defs, ixdefs), b) == Ok(Built(after, defs, ixdefs))
  {
    BlockRuns(ts, defs, ixdefs, t, b);
  }
}
