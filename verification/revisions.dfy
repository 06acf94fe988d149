/** Revision `001_multi_tenant`, which adds eleven resource-tracking columns to `instances`,
    and the revision chain `000_initial` <- `001_multi_tenant` that Alembic walks. */
module Revisions {
  import opened Wrappers
  import opened Schema
  import opened Migrations

  // ---- Revision 001 ----

  function Add(c: ColumnName, spec: ColumnSpec): Op
  {
    AddColumn(Instances, c, spec)
  }

  function Remove(c: ColumnName): Op
  {
    DropColumn(Instances, c)
  }

  /** The Neo4j, PostgreSQL and OpenAI columns, in the order `upgrade` adds them. Only
      `postgres_database` and `postgres_user` are `NOT NULL`, each with a server default. */
  const Upgrade001: seq<Op> := [
    Add(Neo4jServiceName, Nullable), Add(Neo4jUrl, Nullable), Add(Neo4jBoltUrl, Nullable),
    Add(Neo4jSecretName, Nullable),
    Add(PostgresInstanceName, Nullable), Add(PostgresIp, Nullable),
    Add(PostgresConnectionName, Nullable), Add(PostgresSecretName, Nullable),
    Add(PostgresDatabase, Defaulted), Add(PostgresUser, Defaulted),
    Add(OpenaiSecretName, Nullable)]

  const Downgrade001: seq<Op> := [
    Remove(OpenaiSecretName), Remove(PostgresUser), Remove(PostgresDatabase),
    Remove(PostgresSecretName), Remove(PostgresConnectionName), Remove(PostgresIp),
    Remove(PostgresInstanceName), Remove(Neo4jSecretName), Remove(Neo4jBoltUrl),
    Remove(Neo4jUrl), Remove(Neo4jServiceName)]

  /** The columns of `instances` after revision 001. */
  const Instances001Columns: map<ColumnName, ColumnSpec> := WithColumns(InstancesColumns, Upgrade001)

  /** The schema after revision 001: revision 000's, with the added columns on `instances`. */
  const Schema001: Schema :=
    Schema000.(tables := Schema000.tables[Instances := Definition(Instances).(columns := Instances001Columns)])

  /** `upgrade` consists of additions to `instances` of eleven pairwise different names that
      `instances` does not have after revision 000. */
  lemma Upgrade001Shape()
    ensures |Upgrade001| == 11
    ensures forall k :: 0 <= k < |Upgrade001| ==>
              Upgrade001[k].AddColumn? && Upgrade001[k].table == Instances
              && Upgrade001[k].column !in InstancesColumns
    ensures forall k, l :: 0 <= k < l < |Upgrade001| ==> Upgrade001[k].column != Upgrade001[l].column
  {
  }

  lemma Schema000Instances()
    ensures Instances in Schema000.tables && Schema000.tables[Instances] == Definition(Instances)
  {
  }

  /** On the revision-000 schema, `upgrade` goes through and yields `Schema001`; it changes
      neither the indexes nor any table but `instances`, whose foreign keys stay. */
  lemma Upgrade001Runs()
    ensures ApplyAll(Schema000, Upgrade001) == Ok(Schema001)
    ensures Schema001.indexes == Schema000.indexes
    ensures Schema001.tables.Keys == Schema000.tables.Keys
    ensures forall t :: t in Schema000.tables && t != Instances ==> Schema001.tables[t] == Schema000.tables[t]
    ensures Schema001.tables[Instances].fks == Schema000.tables[Instances].fks
  {
    Upgrade001Reaches();
    Schema001Keeps();
  }

  lemma Schema001Keeps()
    ensures Schema001.indexes == Schema000.indexes
    ensures Schema001.tables.Keys == Schema000.tables.Keys
    ensures forall t :: t in Schema000.tables && t != Instances ==> Schema001.tables[t] == Schema000.tables[t]
    ensures Schema001.tables[Instances].fks == Schema000.tables[Instances].fks
  {
    Schema000Instances();
    var m := Schema000.tables;
    assert Schema001.tables == m[Instances := Definition(Instances).(columns := Instances001Columns)];
  }

  lemma Upgrade001Reaches()
    ensures ApplyAll(Schema000, Upgrade001) == Ok(Schema001)
  {
    Schema000Instances();
    Upgrade001Shape();
    AddColumnsRun(Schema000, Instances, Upgrade001);
    var tbl := Schema000.tables[Instances];
    assert tbl.(columns := WithColumns(tbl.columns, Upgrade001))
        == Definition(Instances).(columns := Instances001Columns);
  }

  /** The columns of `instances` after revision 001: those of revision 000 with their specs,
      and the eleven added ones with the specs the revision gives them, and nothing else. */
  lemma Instances001ColumnsSpecs()
    ensures forall c :: c in Instances001Columns
                    <==> c in InstancesColumns || exists k :: 0 <= k < |Upgrade001| && Upgrade001[k].column == c
    ensures forall c :: c in InstancesColumns ==> Instances001Columns[c] == InstancesColumns[c]
    ensures forall k :: 0 <= k < |Upgrade001| ==> Instances001Columns[Upgrade001[k].column] == Upgrade001[k].spec
  {
    Upgrade001Shape();
    WithColumnsSpecs(InstancesColumns, Upgrade001);
  }

  /** A column addition that existing rows can take: the column is nullable, or the server
      fills it in with a default. */
  predicate SafeForExistingRows(op: Op)
  {
    op.AddColumn? ==> op.spec.nullable || op.spec.hasDefault
  }

  /** Every `NOT NULL` column revision 001 adds carries a server default, so the revision
      applies to a populated `instances` table; the two such columns are `postgres_database`
      and `postgres_user`. */
  lemma Upgrade001SafeForExistingRows()
    ensures forall k :: 0 <= k < |Upgrade001| ==> SafeForExistingRows(Upgrade001[k])
    ensures forall k :: 0 <= k < |Upgrade001| && !Upgrade001[k].spec.nullable ==>
              Upgrade001[k].column in {PostgresDatabase, PostgresUser}
  {
  }

  /** An addition of a `NOT NULL` column without default would not be. */
  lemma RequiredColumnUnsafe(c: ColumnName)
    ensures !SafeForExistingRows(AddColumn(Instances, c, Required))
  {
  }

  /** `downgrade` drops exactly the added columns, in exact reverse order of addition. */
  lemma Downgrade001Undoes()
    ensures UpgradeCreates(Upgrade001) && Downgrade001 == UndoAll(Upgrade001)
    ensures forall k :: 0 <= k < |Downgrade001| ==>
              Downgrade001[k] == DropColumn(Instances, Upgrade001[|Upgrade001| - 1 - k].column)
  {
    assert UpgradeCreates(Upgrade001);
  }

  /** The revision-000 schema is well-formed. */
  lemma Schema000WellFormed()
    ensures WellFormed(Schema000)
  {
    Upgrade000Builds();
    ApplyAllKeepsWellFormed(Empty, Upgrade000);
  }

  /** Round trip: `downgrade` on `Schema001` restores the revision-000 schema exactly, the
      `instances` column set included. */
  lemma Revision001RoundTrip()
    ensures ApplyAll(Schema001, Downgrade001) == Ok(Schema000)
  {
    Schema000WellFormed();
    Downgrade001Undoes();
    Upgrade001Runs();
    UndoAllRestores(Schema000, Upgrade001);
  }

  /** Revision 001 depends on revision 000: on an empty database it is refused at its first
      operation, as `instances` does not exist. */
  lemma Upgrade001NeedsRevision000()
    ensures ApplyAll(Empty, Upgrade001) == Err(Failure(0, UndefinedTable))
  {
    ApplyAllFirst(Empty, Upgrade001);
  }

  /** Nor can it run twice: on its own result it is refused at its first operation, as the
      column exists. */
  lemma Upgrade001NotTwice()
    ensures ApplyAll(Schema001, Upgrade001) == Err(Failure(0, DuplicateColumn))
  {
    Neo4jServiceNameAdded();
    ApplyAllFirst(Schema001, Upgrade001);
  }

  lemma Neo4jServiceNameAdded()
    ensures Upgrade001[0] == AddColumn(Instances, Neo4jServiceName, Nullable)
    ensures Instances in Schema001.tables && Neo4jServiceName in Schema001.tables[Instances].columns
  {
    Instances001ColumnsSpecs();
    assert Upgrade001[0].column == Neo4jServiceName;
  }

  /** A run whose first operation is refused is refused there. */
  lemma ApplyAllFirst(s: Schema, ops: seq<Op>)
    requires ops != []
    ensures Apply(s, ops[0]).Err? ==> ApplyAll(s, ops) == Err(Failure(0, Apply(s, ops[0]).error))
  {
    if Apply(s, ops[0]).Err? {
      assert ops == [ops[0]] + ops[1..];
      ApplyAllAppend(s, [ops[0]], ops[1..]);
      assert [ops[0]][..0] == [];
    }
  }

  // ---- The revision chain ----

  /** A revision file: its identifier, the identifier it revises (`None` for the base), and
      its two operation sequences. */
  datatype Revision = Revision(id: string, down: Option<string>, upgrade: seq<Op>, downgrade: seq<Op>)

  /** Revision 000 with its duplicate index creations and drops removed. */
  const Rev000Corrected: Revision := Revision("000_initial", None, Upgrade000, Downgrade000)
  /** Revision 000 as its file is written. */
  const Rev000AsWritten: Revision := Revision("000_initial", None, Upgrade000AsWritten, Downgrade000AsWritten)
  const Rev001: Revision := Revision("001_multi_tenant", Some("000_initial"), Upgrade001, Downgrade001)
  /** The history with revision 000 corrected, and as the two files are written. */
  const CorrectedHistory: seq<Revision> := [Rev000Corrected, Rev001]
  const HistoryAsWritten: seq<Revision> := [Rev000AsWritten, Rev001]

  /** A linear history: the first revision is the base and every later one revises the one
      before it; identifiers are pairwise different. */
  predicate Chain(h: seq<Revision>)
  {
    (|h| > 0 ==> h[0].down == None)
    && (forall i :: 1 <= i < |h| ==> h[i].down == Some(h[i - 1].id))
    && (forall i, j :: 0 <= i < j < |h| ==> h[i].id != h[j].id)
  }

  /** The position of the first revision whose `down_revision` is `down`: the revision that
      follows `down` (or the base, for `None`). */
  function Find(h: seq<Revision>, down: Option<string>): (r: Option<nat>)
    ensures r.Some? ==> r.value < |h| && h[r.value].down == down
                        && forall j :: 0 <= j < r.value ==> h[j].down != down
    ensures r.None? ==> forall j :: 0 <= j < |h| ==> h[j].down != down
    decreases |h|
  {
    if h == [] then None
    else if h[0].down == down then Some(0)
    else match Find(h[1..], down)
      case None => None
      case Some(i) => Some(i + 1)
  }

  /** The revisions still to run after `after` (nothing yet, for `None`), found by following
      `down_revision` links as Alembic does, at most `fuel` of them. */
  function Path(h: seq<Revision>, after: Option<string>, fuel: nat): seq<Revision>
    decreases fuel
  {
    if fuel == 0 then []
    else match Find(h, after)
      case None => []
      case Some(i) => [h[i]] + Path(h, Some(h[i].id), fuel - 1)
  }

  /** In a chain, the base is found first and each revision is followed by the next one. */
  lemma ChainFind(h: seq<Revision>, k: nat)
    requires Chain(h) && k < |h|
    ensures Find(h, if k == 0 then None else Some(h[k - 1].id)) == Some(k)
  {
    var down := if k == 0 then None else Some(h[k - 1].id);
    assert h[k].down == down;
    forall j | 0 <= j < k ensures h[j].down != down {
      if j > 0 {
        assert h[j].down == Some(h[j - 1].id);
      }
    }
  }

  /** Nothing follows the head of a chain. */
  lemma ChainHead(h: seq<Revision>)
    requires Chain(h) && |h| > 0
    ensures Find(h, Some(h[|h| - 1].id)) == None
  {
    var down := Some(h[|h| - 1].id);
    forall j | 0 <= j < |h| ensures h[j].down != down {
      if j > 0 {
        assert h[j].down == Some(h[j - 1].id);
      }
    }
  }

  /** Following the links of a chain from the `k`-th revision visits exactly the revisions
      after it, in order, and stops at the head. */
  lemma {:induction false} PathIsSuffix(h: seq<Revision>, k: nat, fuel: nat)
    requires Chain(h) && k <= |h| && fuel >= |h| - k
    ensures Path(h, if k == 0 then None else Some(h[k - 1].id), fuel) == h[k..]
    decreases |h| - k
  {
    var after := if k == 0 then None else Some(h[k - 1].id);
    if k == |h| {
      if fuel > 0 {
        if k == 0 {
          assert Find(h, after) == None;
        } else {
          ChainHead(h);
        }
      }
    } else {
      ChainFind(h, k);
      PathIsSuffix(h, k + 1, fuel - 1);
      assert h[k..] == [h[k]] + h[k + 1..];
    }
  }

  /** The operations of upgrading through `revs`, in order. */
  function UpgradeOps(revs: seq<Revision>): seq<Op>
    decreases |revs|
  {
    if revs == [] then [] else revs[0].upgrade + UpgradeOps(revs[1..])
  }

  /** The operations of downgrading through `revs`: the last revision's downgrade first. */
  function DowngradeOps(revs: seq<Revision>): seq<Op>
    decreases |revs|
  {
    if revs == [] then [] else DowngradeOps(revs[1..]) + revs[0].downgrade
  }

  /** The two revision files form a chain with `000_initial` as its base (the links are the
      same whether or not revision 000 is corrected). */
  lemma HistoryIsChain()
    ensures Chain(CorrectedHistory)
    ensures Path(CorrectedHistory, None, |CorrectedHistory|) == CorrectedHistory
    ensures Path(CorrectedHistory, Some(Rev000Corrected.id), |CorrectedHistory|) == [Rev001]
    ensures Path(CorrectedHistory, Some(Rev001.id), |CorrectedHistory|) == []
    ensures Chain(HistoryAsWritten)
    ensures Path(HistoryAsWritten, None, |HistoryAsWritten|) == HistoryAsWritten
  {
    assert Rev000Corrected.id != Rev001.id;
    PathIsSuffix(CorrectedHistory, 0, |CorrectedHistory|);
    PathIsSuffix(CorrectedHistory, 1, |CorrectedHistory|);
    PathIsSuffix(CorrectedHistory, 2, |CorrectedHistory|);
    assert Rev000AsWritten.id != Rev001.id;
    PathIsSuffix(HistoryAsWritten, 0, |HistoryAsWritten|);
  }

  /** With revision 000 corrected, `alembic upgrade head` on an empty database runs both
      revisions and yields `Schema001`; on a database at `000_initial` it runs only revision
      001, to the same result. */
  lemma UpgradeToHead()
    ensures ApplyAll(Empty, UpgradeOps(Path(CorrectedHistory, None, |CorrectedHistory|))) == Ok(Schema001)
    ensures ApplyAll(Schema000, UpgradeOps(Path(CorrectedHistory, Some(Rev000Corrected.id), |CorrectedHistory|))) == Ok(Schema001)
  {
    HistoryIsChain();
    Upgrade000Builds();
    Upgrade001Reaches();
    assert UpgradeOps(CorrectedHistory) == Upgrade000 + UpgradeOps([Rev001]);
    assert UpgradeOps([Rev001]) == Upgrade001 + UpgradeOps([]);
    ApplyAllAppend(Empty, Upgrade000, Upgrade001);
    assert Upgrade001 + [] == Upgrade001;
  }

  /** With revision 000 corrected, `alembic downgrade base` from the head runs revision 001's
      downgrade, then revision 000's, and leaves the empty database. */
  lemma DowngradeToBase()
    ensures ApplyAll(Schema001, DowngradeOps(CorrectedHistory)) == Ok(Empty)
  {
    Revision001RoundTrip();
    Downgrade000Empties();
    assert CorrectedHistory[1..] == [Rev001];
    assert DowngradeOps([Rev001]) == DowngradeOps([]) + Downgrade001;
    assert DowngradeOps(CorrectedHistory) == Downgrade001 + Downgrade000;
    ApplyAllAppend(Schema001, Downgrade001, Downgrade000);
  }

  /** As the files are written, `alembic upgrade head` on an empty database is refused at
      operation 6, the second `CREATE INDEX ix_users_firebase_uid`, and the whole transaction
      is rolled back. */
  lemma UpgradeToHeadAsWritten()
    ensures ApplyAll(Empty, UpgradeOps(Path(HistoryAsWritten, None, |HistoryAsWritten|)))
         == Err(Failure(6, DuplicateTable))
  {
    HistoryIsChain();
    Upgrade000AsWrittenRefused();
    assert UpgradeOps(HistoryAsWritten) == Upgrade000AsWritten + UpgradeOps([Rev001]);
    ApplyAllAppend(Empty, Upgrade000AsWritten, UpgradeOps([Rev001]));
  }

  /** As the files are written, `alembic downgrade base` from the head gets through revision
      001's downgrade and is then refused inside revision 000's, at its second drop of
      `ix_instances_slug`. */
  lemma DowngradeToBaseAsWritten()
    ensures ApplyAll(Schema001, DowngradeOps(HistoryAsWritten))
         == Err(Failure(|Downgrade001| + 13, UndefinedObject))
  {
    Revision001RoundTrip();
    Downgrade000AsWrittenRefused();
    assert HistoryAsWritten[1..] == [Rev001];
    assert DowngradeOps([Rev001]) == DowngradeOps([]) + Downgrade001;
    assert DowngradeOps(HistoryAsWritten) == Downgrade001 + Downgrade000AsWritten;
    ApplyAllAppend(Schema001, Downgrade001, Downgrade000AsWritten);
  }
}
