/** The two Alembic revisions of the repository, `000_initial` (the four tables and their
    indexes) and `001_multi_tenant` (eleven resource-tracking columns on `instances`), as
    operation sequences over the schema, and what running them does. */
module Migrations {
  import opened Wrappers
  import opened Schema

  const Nullable := ColumnSpec(true, false)
  const Required := ColumnSpec(false, false)
  const Defaulted := ColumnSpec(false, true)

  // ---- The tables of revision 000 ----

  const UsersColumns: map<ColumnName, ColumnSpec> :=
    map[Id := Defaulted, FirebaseUid := Required, Email := Required, DisplayName := Nullable,
        IsActive := Defaulted, IsVerified := Defaulted, CreatedAt := Defaulted,
        UpdatedAt := Defaulted, LastLoginAt := Nullable]

  const InstancesColumns: map<ColumnName, ColumnSpec> :=
    map[Id := Defaulted, UserId := Required, Name := Required, Slug := Required,
        CloudRunServiceName := Nullable, CloudRunUrl := Nullable, Region := Defaulted,
        Status := Defaulted, HealthStatus := Defaulted, LastHealthCheck := Nullable,
        Config := Defaulted, MemoryMb := Defaulted, CpuCount := Defaulted,
        MinInstances := Defaulted, MaxInstances := Defaulted, Description := Nullable,
        Tags := Defaulted, CreatedAt := Defaulted, UpdatedAt := Defaulted,
        DeployedAt := Nullable, DeletedAt := Nullable, DeploymentError := Nullable,
        DeploymentLogsUrl := Nullable]

  const ApiKeysColumns: map<ColumnName, ColumnSpec> :=
    map[Id := Defaulted, UserId := Required, InstanceId := Nullable, KeyHash := Required,
        Name := Required, CreatedAt := Defaulted, ExpiresAt := Nullable, LastUsedAt := Nullable]

  const UsageMetricsColumns: map<ColumnName, ColumnSpec> :=
    map[Id := Defaulted, InstanceId := Required, MetricType := Required, Value := Required,
        Timestamp := Defaulted]

  /** Each table as revision 000 creates it. Every foreign key references the target's `id`. */
  function Definition(t: TableName): Table
  {
    match t
    case Users => Table(UsersColumns, {})
    case Instances => Table(InstancesColumns, {ForeignKey(UserId, Users, Id)})
    case ApiKeys => Table(ApiKeysColumns, {ForeignKey(InstanceId, Instances, Id),
                                           ForeignKey(UserId, Users, Id)})
    case UsageMetrics => Table(UsageMetricsColumns, {ForeignKey(InstanceId, Instances, Id)})
  }

  /** Each index name's definition, taking the `unique=True` form for the two names revision
      000 defines twice. */
  function IndexDef(n: IndexName): Index
  {
    match n
    case IxUsersEmailActive => Index(Users, [Email, IsActive], false)
    case IxUsersFirebaseUid => Index(Users, [FirebaseUid], true)
    case IxUsersId => Index(Users, [Id], false)
    case IxUsersCreatedAt => Index(Users, [CreatedAt], false)
    case IxUsersEmail => Index(Users, [Email], true)
    case IxInstancesCloudRunService => Index(Instances, [CloudRunServiceName], false)
    case IxInstancesSlug => Index(Instances, [Slug], true)
    case IxInstancesUserStatus => Index(Instances, [UserId, Status], false)
    case IxInstancesId => Index(Instances, [Id], false)
    case IxInstancesUserId => Index(Instances, [UserId], false)
    case IxInstancesCloudRunServiceName => Index(Instances, [CloudRunServiceName], true)
    case IxInstancesCreatedAt => Index(Instances, [CreatedAt], false)
    case IxInstancesStatus => Index(Instances, [Status], false)
    case IxApiKeysId => Index(ApiKeys, [Id], false)
    case IxApiKeysKeyHash => Index(ApiKeys, [KeyHash], true)
    case IxUsageMetricsId => Index(UsageMetrics, [Id], false)
    case IxUsageMetricsTimestamp => Index(UsageMetrics, [Timestamp], false)
  }

  function Create(t: TableName): Op
  {
    CreateTable(t, Definition(t).columns, Definition(t).fks)
  }

  function Ix(n: IndexName): Op
  {
    CreateIndex(n, IndexDef(n))
  }

  function Drop(n: IndexName): Op
  {
    DropIndex(n, IndexDef(n).table)
  }

  // ---- Revision 000 as written ----

  const UsersUpgradeAsWritten: seq<Op> := [
    Create(Users),
    Ix(IxUsersEmailActive),
    CreateIndex(IxUsersFirebaseUid, Index(Users, [FirebaseUid], false)),
    Ix(IxUsersId),
    Ix(IxUsersCreatedAt),
    Ix(IxUsersEmail),
    Ix(IxUsersFirebaseUid)]

  const InstancesUpgradeAsWritten: seq<Op> := [
    Create(Instances),
    Ix(IxInstancesCloudRunService),
    CreateIndex(IxInstancesSlug, Index(Instances, [Slug], false)),
    Ix(IxInstancesUserStatus),
    Ix(IxInstancesId),
    Ix(IxInstancesUserId),
    Ix(IxInstancesCloudRunServiceName),
    Ix(IxInstancesCreatedAt),
    Ix(IxInstancesSlug),
    Ix(IxInstancesStatus)]

  const ApiKeysUpgrade: seq<Op> := [Create(ApiKeys), Ix(IxApiKeysId), Ix(IxApiKeysKeyHash)]

  const UsageMetricsUpgrade: seq<Op> :=
    [Create(UsageMetrics), Ix(IxUsageMetricsId), Ix(IxUsageMetricsTimestamp)]

  const Upgrade000AsWritten: seq<Op> :=
    UsersUpgradeAsWritten + InstancesUpgradeAsWritten + ApiKeysUpgrade + UsageMetricsUpgrade

  const UsageMetricsDowngrade: seq<Op> :=
    [Drop(IxUsageMetricsTimestamp), Drop(IxUsageMetricsId), DropTable(UsageMetrics)]

  const ApiKeysDowngrade: seq<Op> := [Drop(IxApiKeysKeyHash), Drop(IxApiKeysId), DropTable(ApiKeys)]

  const InstancesDowngradeAsWritten: seq<Op> := [
    Drop(IxInstancesStatus), Drop(IxInstancesCreatedAt), Drop(IxInstancesSlug),
    Drop(IxInstancesCloudRunServiceName), Drop(IxInstancesUserId), Drop(IxInstancesId),
    Drop(IxInstancesUserStatus), Drop(IxInstancesSlug), Drop(IxInstancesCloudRunService),
    DropTable(Instances)]

  const UsersDowngradeAsWritten: seq<Op> := [
    Drop(IxUsersFirebaseUid), Drop(IxUsersEmail), Drop(IxUsersCreatedAt), Drop(IxUsersId),
    Drop(IxUsersFirebaseUid), Drop(IxUsersEmailActive), DropTable(Users)]

  const Downgrade000AsWritten: seq<Op> :=
    UsageMetricsDowngrade + ApiKeysDowngrade + InstancesDowngradeAsWritten + UsersDowngradeAsWritten

  // ---- Revision 000 corrected: each name created, and dropped, once ----

  const UsersUpgrade: seq<Op> := [
    Create(Users), Ix(IxUsersEmailActive), Ix(IxUsersId), Ix(IxUsersCreatedAt),
    Ix(IxUsersEmail), Ix(IxUsersFirebaseUid)]

  const InstancesUpgrade: seq<Op> := [
    Create(Instances), Ix(IxInstancesCloudRunService), Ix(IxInstancesUserStatus),
    Ix(IxInstancesId), Ix(IxInstancesUserId), Ix(IxInstancesCloudRunServiceName),
    Ix(IxInstancesCreatedAt), Ix(IxInstancesSlug), Ix(IxInstancesStatus)]

  const Upgrade000: seq<Op> := UsersUpgrade + InstancesUpgrade + ApiKeysUpgrade + UsageMetricsUpgrade

  const InstancesDowngrade: seq<Op> := [
    Drop(IxInstancesStatus), Drop(IxInstancesCreatedAt), Drop(IxInstancesSlug),
    Drop(IxInstancesCloudRunServiceName), Drop(IxInstancesUserId), Drop(IxInstancesId),
    Drop(IxInstancesUserStatus), Drop(IxInstancesCloudRunService), DropTable(Instances)]

  const UsersDowngrade: seq<Op> := [
    Drop(IxUsersFirebaseUid), Drop(IxUsersEmail), Drop(IxUsersCreatedAt), Drop(IxUsersId),
    Drop(IxUsersEmailActive), DropTable(Users)]

  const Downgrade000: seq<Op> :=
    UsageMetricsDowngrade + ApiKeysDowngrade + InstancesDowngrade + UsersDowngrade

  /** The corrected revision differs from the source only by leaving out the first, non-unique
      creation of each duplicated index name (lines 36 and 71) and the second drop of each
      (lines 128 and 136). */
  lemma CorrectionRemovesOnlyDuplicates()
    ensures UsersUpgrade == UsersUpgradeAsWritten[..2] + UsersUpgradeAsWritten[3..]
    ensures InstancesUpgrade == InstancesUpgradeAsWritten[..2] + InstancesUpgradeAsWritten[3..]
    ensures UsersDowngrade == UsersDowngradeAsWritten[..4] + UsersDowngradeAsWritten[5..]
    ensures InstancesDowngrade == InstancesDowngradeAsWritten[..7] + InstancesDowngradeAsWritten[8..]
    ensures UsersUpgradeAsWritten[2].name == UsersUpgradeAsWritten[6].name == IxUsersFirebaseUid
    ensures InstancesUpgradeAsWritten[2].name == InstancesUpgradeAsWritten[8].name == IxInstancesSlug
  {
  }

  /** Every catalogued index of table `t` names columns of `t`. */
  predicate IndexesOnOwnColumns(t: TableName)
  {
    forall n, c :: IndexDef(n).table == t && c in IndexDef(n).columns ==> c in Definition(t).columns
  }

  lemma UsersIndexColumnsExist()
    ensures IndexesOnOwnColumns(Users)
  {
    forall n, c | IndexDef(n).table == Users && c in IndexDef(n).columns ensures c in Definition(Users).columns {
      match n {
        case IxUsersEmailActive =>
        case IxUsersFirebaseUid =>
        case IxUsersId =>
        case IxUsersCreatedAt =>
        case IxUsersEmail =>
        case _ =>
      }
    }
  }

  lemma InstancesIndexColumnsExist()
    ensures IndexesOnOwnColumns(Instances)
  {
    forall n, c | IndexDef(n).table == Instances && c in IndexDef(n).columns ensures c in Definition(Instances).columns {
      match n {
        case IxInstancesCloudRunService =>
        case IxInstancesSlug =>
        case IxInstancesUserStatus =>
        case IxInstancesId =>
        case IxInstancesUserId =>
        case IxInstancesCloudRunServiceName =>
        case IxInstancesCreatedAt =>
        case IxInstancesStatus =>
        case _ =>
      }
    }
  }

  lemma ApiKeysIndexColumnsExist()
    ensures IndexesOnOwnColumns(ApiKeys)
  {
    forall n, c | IndexDef(n).table == ApiKeys && c in IndexDef(n).columns ensures c in Definition(ApiKeys).columns {
      match n {
        case IxApiKeysId =>
        case IxApiKeysKeyHash =>
        case _ =>
      }
    }
  }

  lemma UsageMetricsIndexColumnsExist()
    ensures IndexesOnOwnColumns(UsageMetrics)
  {
    forall n, c | IndexDef(n).table == UsageMetrics && c in IndexDef(n).columns ensures c in Definition(UsageMetrics).columns {
      match n {
        case IxUsageMetricsId =>
        case IxUsageMetricsTimestamp =>
        case _ =>
      }
    }
  }

  // ---- Revision 000: running it ----

  const AllTables: set<TableName> := {Users, Instances, ApiKeys, UsageMetrics}

  /** The schema at revision 000. */
  const Schema000: Schema := Built(AllTables, Definition, IndexDef)

  lemma BuiltNothing()
    ensures Built({}, Definition, IndexDef) == Empty
  {
    assert Built({}, Definition, IndexDef).tables == map[];
    assert Built({}, Definition, IndexDef).indexes == map[];
  }

  lemma UsersResolves()
    ensures Resolves({}, Definition, Users)
  {
  }

  lemma UsersBlockShape()
    ensures IsBlock(Definition, IndexDef, Users, UsersUpgrade)
  {
    var b := UsersUpgrade;
    UsersIndexColumnsExist();
    assert forall k :: 1 <= k < |b| ==> b[k] == Ix(b[k].name) && IndexDef(b[k].name).table == Users;
    assert forall k, l :: 1 <= k < l < |b| ==> b[k].name != b[l].name;
  }

  lemma UsersBlockCovers()
    ensures Covers(IndexDef, Users, UsersUpgrade)
  {
    var b := UsersUpgrade;
    forall n | IndexDef(n).table == Users ensures exists k :: 1 <= k < |b| && b[k].CreateIndex? && b[k].name == n {
      match n {
        case IxUsersEmailActive => assert b[1].name == n;
        case IxUsersId => assert b[2].name == n;
        case IxUsersCreatedAt => assert b[3].name == n;
        case IxUsersEmail => assert b[4].name == n;
        case IxUsersFirebaseUid => assert b[5].name == n;
        case _ =>
      }
    }
  }

  lemma UsersBlockRuns()
    ensures ApplyAll(Built({}, Definition, IndexDef), UsersUpgrade) == Ok(Built({Users}, Definition, IndexDef))
  {
    UsersResolves();
    UsersBlockShape();
    UsersBlockCovers();
    BlockRunsInto({}, Definition, IndexDef, Users, UsersUpgrade, {Users});
  }

  lemma InstancesResolves()
    ensures Resolves({Users}, Definition, Instances)
  {
  }

  lemma InstancesBlockShape()
    ensures IsBlock(Definition, IndexDef, Instances, InstancesUpgrade)
  {
    InstancesIndexColumnsExist();
    InstancesIndexOps();
    InstancesIndexNamesDistinct();
  }

  lemma InstancesIndexOps()
    ensures forall k :: 1 <= k < |InstancesUpgrade| ==>
      InstancesUpgrade[k] == Ix(InstancesUpgrade[k].name) && IndexDef(InstancesUpgrade[k].name).table == Instances
  {
  }

  lemma InstancesIndexNamesDistinct()
    ensures forall k, l :: 1 <= k < l < |InstancesUpgrade| ==> InstancesUpgrade[k].name != InstancesUpgrade[l].name
  {
  }

  lemma InstancesBlockCovers()
    ensures Covers(IndexDef, Instances, InstancesUpgrade)
  {
    var b := InstancesUpgrade;
    forall n | IndexDef(n).table == Instances ensures exists k :: 1 <= k < |b| && b[k].CreateIndex? && b[k].name == n {
      match n {
        case IxInstancesCloudRunService => assert b[1].name == n;
        case IxInstancesUserStatus => assert b[2].name == n;
        case IxInstancesId => assert b[3].name == n;
        case IxInstancesUserId => assert b[4].name == n;
        case IxInstancesCloudRunServiceName => assert b[5].name == n;
        case IxInstancesCreatedAt => assert b[6].name == n;
        case IxInstancesSlug => assert b[7].name == n;
        case IxInstancesStatus => assert b[8].name == n;
        case _ =>
      }
    }
  }

  lemma InstancesBlockRuns()
    ensures ApplyAll(Built({Users}, Definition, IndexDef), InstancesUpgrade) == Ok(Built({Users, Instances}, Definition, IndexDef))
  {
    InstancesResolves();
    InstancesBlockShape();
    InstancesBlockCovers();
    BlockRunsInto({Users}, Definition, IndexDef, Instances, InstancesUpgrade, {Users, Instances});
  }

  lemma ApiKeysResolves()
    ensures Resolves({Users, Instances}, Definition, ApiKeys)
  {
  }

  lemma ApiKeysBlockShape()
    ensures IsBlock(Definition, IndexDef, ApiKeys, ApiKeysUpgrade)
  {
    var b := ApiKeysUpgrade;
    ApiKeysIndexColumnsExist();
    assert forall k :: 1 <= k < |b| ==> b[k] == Ix(b[k].name) && IndexDef(b[k].name).table == ApiKeys;
    assert forall k, l :: 1 <= k < l < |b| ==> b[k].name != b[l].name;
  }

  lemma ApiKeysBlockCovers()
    ensures Covers(IndexDef, ApiKeys, ApiKeysUpgrade)
  {
    var b := ApiKeysUpgrade;
    forall n | IndexDef(n).table == ApiKeys ensures exists k :: 1 <= k < |b| && b[k].CreateIndex? && b[k].name == n {
      match n {
        case IxApiKeysId => assert b[1].name == n;
        case IxApiKeysKeyHash => assert b[2].name == n;
        case _ =>
      }
    }
  }

  lemma ApiKeysBlockRuns()
    ensures ApplyAll(Built({Users, Instances}, Definition, IndexDef), ApiKeysUpgrade) == Ok(Built({Users, Instances, ApiKeys}, Definition, IndexDef))
  {
    ApiKeysResolves();
    ApiKeysBlockShape();
    ApiKeysBlockCovers();
    BlockRunsInto({Users, Instances}, Definition, IndexDef, ApiKeys, ApiKeysUpgrade, {Users, Instances, ApiKeys});
  }

  lemma UsageMetricsResolves()
    ensures Resolves({Users, Instances, ApiKeys}, Definition, UsageMetrics)
  {
  }

  lemma UsageMetricsBlockShape()
    ensures IsBlock(Definition, IndexDef, UsageMetrics, UsageMetricsUpgrade)
  {
    var b := UsageMetricsUpgrade;
    UsageMetricsIndexColumnsExist();
    assert forall k :: 1 <= k < |b| ==> b[k] == Ix(b[k].name) && IndexDef(b[k].name).table == UsageMetrics;
    assert forall k, l :: 1 <= k < l < |b| ==> b[k].name != b[l].name;
  }

  lemma UsageMetricsBlockCovers()
    ensures Covers(IndexDef, UsageMetrics, UsageMetricsUpgrade)
  {
    var b := UsageMetricsUpgrade;
    forall n | IndexDef(n).table == UsageMetrics ensures exists k :: 1 <= k < |b| && b[k].CreateIndex? && b[k].name == n {
      match n {
        case IxUsageMetricsId => assert b[1].name == n;
        case IxUsageMetricsTimestamp => assert b[2].name == n;
        case _ =>
      }
    }
  }

  lemma UsageMetricsBlockRuns()
    ensures ApplyAll(Built({Users, Instances, ApiKeys}, Definition, IndexDef), UsageMetricsUpgrade) == Ok(Schema000)
  {
    UsageMetricsResolves();
    UsageMetricsBlockShape();
    UsageMetricsBlockCovers();
    BlockRunsInto({Users, Instances, ApiKeys}, Definition, IndexDef, UsageMetrics, UsageMetricsUpgrade, AllTables);
  }

  /** The corrected `upgrade` of revision 000 builds the revision-000 schema from nothing.
      It goes through one table block at a time, so every table's foreign keys resolve
      against the tables created before it. */
  lemma Upgrade000Builds()
    ensures ApplyAll(Empty, Upgrade000) == Ok(Schema000)
  {
    BuiltNothing();
    UsersBlockRuns();
    InstancesBlockRuns();
    ApiKeysBlockRuns();
    UsageMetricsBlockRuns();
    ApplyAllAppend(Empty, UsersUpgrade, InstancesUpgrade);
    ApplyAllAppend(Empty, UsersUpgrade + InstancesUpgrade, ApiKeysUpgrade);
    ApplyAllAppend(Empty, UsersUpgrade + InstancesUpgrade + ApiKeysUpgrade, UsageMetricsUpgrade);
  }

  // ---- Revision 000 as written is refused ----

  /** The first six operations of the users block, as written, go through and leave
      `ix_users_firebase_uid` in place. */
  lemma UsersPrefixRuns()
    ensures ApplyAll(Empty, UsersUpgradeAsWritten[..6]).Ok?
    ensures IxUsersFirebaseUid in ApplyAll(Empty, UsersUpgradeAsWritten[..6]).value.indexes
  {
    var pre := UsersUpgradeAsWritten[..6];
    UsersPrefixShape();
    TableThenIndexes(Empty, Users, Definition(Users), pre);
  }

  lemma UsersPrefixShape()
    ensures var pre := UsersUpgradeAsWritten[..6];
            |pre| == 6 && pre[0] == Create(Users) && pre[2].CreateIndex? && pre[2].name == IxUsersFirebaseUid
            && (forall k :: 1 <= k < |pre| ==>
                  pre[k].CreateIndex? && pre[k].index.table == Users
                  && forall c :: c in pre[k].index.columns ==> c in Definition(Users).columns)
            && (forall k, l :: 1 <= k < l < |pre| ==> pre[k].name != pre[l].name)
  {
    var pre := UsersUpgradeAsWritten[..6];
    UsersIndexColumnsExist();
    assert forall k :: 1 <= k < |pre| ==> pre[k].CreateIndex? && pre[k].index.table == Users
                                          && pre[k].index.columns == IndexDef(pre[k].name).columns;
  }

  /** As written, the users block is then refused at its seventh operation, the second
      `ix_users_firebase_uid`, because that name exists. */
  lemma UsersUpgradeAsWrittenRefused()
    ensures ApplyAll(Empty, UsersUpgradeAsWritten) == Err(Failure(6, DuplicateTable))
  {
    UsersPrefixRuns();
    var m := ApplyAll(Empty, UsersUpgradeAsWritten[..6]).value;
    assert Apply(m, UsersUpgradeAsWritten[6]) == Err(DuplicateTable);
  }

  /** Hence the whole `upgrade` of revision 000, as written, is refused on an empty database
      and creates nothing. */
  lemma Upgrade000AsWrittenRefused()
    ensures ApplyAll(Empty, Upgrade000AsWritten) == Err(Failure(6, DuplicateTable))
  {
    UsersUpgradeAsWrittenRefused();
    var rest := InstancesUpgradeAsWritten + ApiKeysUpgrade + UsageMetricsUpgrade;
    assert Upgrade000AsWritten == UsersUpgradeAsWritten + rest;
    ApplyAllAppend(Empty, UsersUpgradeAsWritten, rest);
  }

  /** The instances block, as written, cannot go through from any schema either: it creates
      `ix_instances_slug` at its third and its ninth operation. */
  lemma InstancesUpgradeAsWrittenRefused(s: Schema)
    ensures ApplyAll(s, InstancesUpgradeAsWritten).Err?
    ensures ApplyAll(s, InstancesUpgradeAsWritten).error.at < 8
            || ApplyAll(s, InstancesUpgradeAsWritten).error == Failure(8, DuplicateTable)
  {
    DuplicateIndexRefused(s, InstancesUpgradeAsWritten, 2, 8);
  }

  // ---- Revision 000: downgrade ----

  /** Every operation of `ops` creates something. */
  predicate UpgradeCreates(ops: seq<Op>)
  {
    forall i :: 0 <= i < |ops| ==> Creates(ops[i])
  }

  lemma UpgradeBlocksCreate()
    ensures forall i :: 0 <= i < |UsersUpgrade| ==> Creates(UsersUpgrade[i])
    ensures forall i :: 0 <= i < |InstancesUpgrade| ==> Creates(InstancesUpgrade[i])
    ensures forall i :: 0 <= i < |ApiKeysUpgrade| ==> Creates(ApiKeysUpgrade[i])
    ensures forall i :: 0 <= i < |UsageMetricsUpgrade| ==> Creates(UsageMetricsUpgrade[i])
    ensures forall i :: 0 <= i < |UsersUpgradeAsWritten| ==> Creates(UsersUpgradeAsWritten[i])
    ensures forall i :: 0 <= i < |InstancesUpgradeAsWritten| ==> Creates(InstancesUpgradeAsWritten[i])
  {
  }

  /** The usage_metrics, api_keys and users blocks of `downgrade` are exactly the inverses
      of the matching `upgrade` blocks, in reverse order. */
  lemma SmallDowngradeBlocksUndo()
    ensures UpgradeCreates(UsageMetricsUpgrade) && UsageMetricsDowngrade == UndoAll(UsageMetricsUpgrade)
    ensures UpgradeCreates(ApiKeysUpgrade) && ApiKeysDowngrade == UndoAll(ApiKeysUpgrade)
  {
    UpgradeBlocksCreate();
  }

  lemma UsersDowngradeUndoes()
    ensures UpgradeCreates(UsersUpgrade) && UsersDowngrade == UndoAll(UsersUpgrade)
    ensures UpgradeCreates(UsersUpgradeAsWritten) && UsersDowngradeAsWritten == UndoAll(UsersUpgradeAsWritten)
  {
    UpgradeBlocksCreate();
  }

  /** The instances block of `downgrade` drops `ix_instances_created_at` before
      `ix_instances_slug`, the other way round from plain reversal; up to that one exchange
      it is the inverse of the instances `upgrade` block. */
  lemma InstancesDowngradeUndoes()
    ensures UpgradeCreates(InstancesUpgrade) && UndoAll(InstancesUpgrade) == Swap(InstancesDowngrade, 1)
  {
    UpgradeBlocksCreate();
  }

  lemma InstancesDowngradeAsWrittenUndoes()
    ensures UpgradeCreates(InstancesUpgradeAsWritten)
            && UndoAll(InstancesUpgradeAsWritten) == Swap(InstancesDowngradeAsWritten, 1)
  {
    UpgradeBlocksCreate();
  }

  /** Up to the exchange inside the instances block, the corrected `downgrade` of revision
      000 is the inverse of its `upgrade`. */
  lemma Downgrade000Undoes()
    ensures UpgradeCreates(Upgrade000) && UndoAll(Upgrade000) == Swap(Downgrade000, 7)
  {
    SmallDowngradeBlocksUndo();
    UsersDowngradeUndoes();
    InstancesDowngradeUndoes();
    UndoAllAppend(UsersUpgrade, InstancesUpgrade);
    UndoAllAppend(UsersUpgrade + InstancesUpgrade, ApiKeysUpgrade);
    UndoAllAppend(UsersUpgrade + InstancesUpgrade + ApiKeysUpgrade, UsageMetricsUpgrade);
    var p := UsageMetricsDowngrade + ApiKeysDowngrade;
    SwapInside(p, InstancesDowngrade, UsersDowngrade, 1);
  }

  /** The corrected `downgrade` of revision 000 takes the revision-000 schema back to the
      empty database. */
  lemma Downgrade000Empties()
    ensures ApplyAll(Schema000, Downgrade000) == Ok(Empty)
  {
    Upgrade000Builds();
    Downgrade000Undoes();
    UndoAllRestores(Empty, Upgrade000);
    Downgrade000SwapShape();
    SwapDropIndexes(Schema000, Swap(Downgrade000, 7), 7);
    SwapTwice(Downgrade000, 7);
  }

  lemma Downgrade000SwapShape()
    ensures |Downgrade000| == 21
    ensures Swap(Downgrade000, 7)[7].DropIndex? && Swap(Downgrade000, 7)[8].DropIndex?
    ensures Swap(Downgrade000, 7)[7].name != Swap(Downgrade000, 7)[8].name
  {
  }

  // ---- Revision 000 downgrade as written is refused ----

  /** The `downgrade` of revision 000, as written, cannot go through from any schema: it drops
      `ix_instances_slug` at its ninth and its fourteenth operation (and `ix_users_firebase_uid`
      twice further on), so it is refused at the fourteenth operation at the latest. */
  lemma Downgrade000AsWrittenRefusedAnywhere(s: Schema)
    ensures ApplyAll(s, Downgrade000AsWritten).Err?
    ensures ApplyAll(s, Downgrade000AsWritten).error.at <= 13
  {
    DowngradeAsWrittenShape();
    DuplicateDropRefused(s, Downgrade000AsWritten, 8, 13);
  }

  lemma DowngradeAsWrittenShape()
    ensures |Downgrade000AsWritten| == 23 && |Downgrade000| == 21
    ensures forall k :: 0 <= k < |Downgrade000AsWritten| ==> Removes(Downgrade000AsWritten[k])
    ensures Downgrade000AsWritten[8] == Downgrade000AsWritten[13] == Drop(IxInstancesSlug)
    ensures Downgrade000AsWritten[16] == Downgrade000AsWritten[20] == Drop(IxUsersFirebaseUid)
    ensures Downgrade000AsWritten[..13] == Downgrade000[..13]
  {
  }

  /** From the revision-000 schema the first thirteen operations of the downgrade as written
      go through, as they are those of the corrected one. */
  lemma DowngradeAsWrittenPrefixRuns()
    ensures ApplyAll(Schema000, Downgrade000AsWritten[..13]).Ok?
  {
    DowngradeAsWrittenShape();
    Downgrade000Empties();
    var d := Downgrade000;
    assert d == d[..13] + d[13..];
    ApplyAllAppend(Schema000, d[..13], d[13..]);
  }

  /** So from the revision-000 schema the downgrade as written is refused exactly at its
      fourteenth operation, the second drop of `ix_instances_slug`, and removes nothing. */
  lemma Downgrade000AsWrittenRefused()
    ensures ApplyAll(Schema000, Downgrade000AsWritten) == Err(Failure(13, UndefinedObject))
  {
    var d := Downgrade000AsWritten;
    Downgrade000AsWrittenRefusedAnywhere(Schema000);
    DowngradeAsWrittenPrefixRuns();
    assert d == d[..13] + d[13..];
    ApplyAllAppend(Schema000, d[..13], d[13..]);
    DuplicateDropRefused(Schema000, d, 8, 13);
  }

  /** The users block of the downgrade as written is refused on its own as well, at its fifth
      operation at the latest. */
  lemma UsersDowngradeAsWrittenRefused(s: Schema)
    ensures ApplyAll(s, UsersDowngradeAsWritten).Err?
    ensures ApplyAll(s, UsersDowngradeAsWritten).error.at < 4
            || ApplyAll(s, UsersDowngradeAsWritten).error == Failure(4, UndefinedObject)
  {
    DuplicateDropRefused(s, UsersDowngradeAsWritten, 0, 4);
  }

  // ---- Revision 000: what the downgrade drops ----

  lemma Downgrade000AsWrittenUndoes()
    ensures UpgradeCreates(Upgrade000AsWritten) && UndoAll(Upgrade000AsWritten) == Swap(Downgrade000AsWritten, 7)
  {
    SmallDowngradeBlocksUndo();
    UsersDowngradeUndoes();
    InstancesDowngradeAsWrittenUndoes();
    UndoAllAppend(UsersUpgradeAsWritten, InstancesUpgradeAsWritten);
    UndoAllAppend(UsersUpgradeAsWritten + InstancesUpgradeAsWritten, ApiKeysUpgrade);
    UndoAllAppend(UsersUpgradeAsWritten + InstancesUpgradeAsWritten + ApiKeysUpgrade, UsageMetricsUpgrade);
    var p := UsageMetricsDowngrade + ApiKeysDowngrade;
    SwapInside(p, InstancesDowngradeAsWritten, UsersDowngradeAsWritten, 1);
  }

  /** For every table, the corrected `downgrade` drops exactly the index names the corrected
      `upgrade` creates on it, each as often. */
  lemma Downgrade000DropsCreatedIndexes(t: TableName)
    ensures multiset(DroppedIndexNames(Downgrade000, t)) == multiset(CreatedIndexNames(Upgrade000, t))
  {
    Downgrade000Undoes();
    UndoAllDropsCreated(Upgrade000, t);
    ReverseSameElements(CreatedIndexNames(Upgrade000, t));
    SwapKeepsDropped(Downgrade000, 7, t);
  }

  /** The same holds of the revision as written: its downgrade names every index its upgrade
      names, with the duplicates on both sides, so the defect is not a missing drop. */
  lemma Downgrade000AsWrittenDropsCreatedIndexes(t: TableName)
    ensures multiset(DroppedIndexNames(Downgrade000AsWritten, t))
         == multiset(CreatedIndexNames(Upgrade000AsWritten, t))
  {
    Downgrade000AsWrittenUndoes();
    UndoAllDropsCreated(Upgrade000AsWritten, t);
    ReverseSameElements(CreatedIndexNames(Upgrade000AsWritten, t));
    SwapKeepsDropped(Downgrade000AsWritten, 7, t);
  }

  /** A downgrade block for table `t`: drops of indexes on `t`, then `t` itself. */
  predicate DropsIndexesThenTable(b: seq<Op>, t: TableName)
  {
    |b| >= 1 && b[|b| - 1] == DropTable(t)
    && forall k :: 0 <= k < |b| - 1 ==> b[k].DropIndex? && b[k].table == t
  }

  /** Block by block, `downgrade` drops the indexes of a table before the table, and exactly
      the index names `upgrade` created on it. */
  lemma Downgrade000Blocks()
    ensures Downgrade000 == UsageMetricsDowngrade + ApiKeysDowngrade + InstancesDowngrade + UsersDowngrade
    ensures DropsIndexesThenTable(UsageMetricsDowngrade, UsageMetrics)
    ensures DropsIndexesThenTable(ApiKeysDowngrade, ApiKeys)
    ensures DropsIndexesThenTable(InstancesDowngrade, Instances)
    ensures DropsIndexesThenTable(UsersDowngrade, Users)
    ensures multiset(DroppedIndexNames(UsageMetricsDowngrade, UsageMetrics))
         == multiset(CreatedIndexNames(UsageMetricsUpgrade, UsageMetrics))
    ensures multiset(DroppedIndexNames(ApiKeysDowngrade, ApiKeys)) == multiset(CreatedIndexNames(ApiKeysUpgrade, ApiKeys))
    ensures multiset(DroppedIndexNames(InstancesDowngrade, Instances))
         == multiset(CreatedIndexNames(InstancesUpgrade, Instances))
    ensures multiset(DroppedIndexNames(UsersDowngrade, Users)) == multiset(CreatedIndexNames(UsersUpgrade, Users))
  {
    DowngradeBlockShapes();
    SmallBlocksDropCreated();
    UsersBlockDropsCreated();
    InstancesBlockDropsCreated();
  }

  lemma DowngradeBlockShapes()
    ensures DropsIndexesThenTable(UsageMetricsDowngrade, UsageMetrics)
    ensures DropsIndexesThenTable(ApiKeysDowngrade, ApiKeys)
    ensures DropsIndexesThenTable(InstancesDowngrade, Instances)
    ensures DropsIndexesThenTable(UsersDowngrade, Users)
  {
    SmallDowngradeBlocksUndo();
    UsersDowngradeUndoes();
    UsageMetricsBlockShape();
    ApiKeysBlockShape();
    UsersBlockShape();
    UndoneBlockShape(UsageMetrics, UsageMetricsUpgrade);
    UndoneBlockShape(ApiKeys, ApiKeysUpgrade);
    UndoneBlockShape(Users, UsersUpgrade);
    InstancesDowngradeShape();
  }

  lemma InstancesDowngradeShape()
    ensures DropsIndexesThenTable(InstancesDowngrade, Instances)
  {
    InstancesDowngradeUndoes();
    InstancesBlockShape();
    UndoneBlockShape(Instances, InstancesUpgrade);
    var u := UndoAll(InstancesUpgrade);
    SwapTwice(InstancesDowngrade, 1);
    assert InstancesDowngrade == Swap(u, 1);
  }

  /** The inverse of an upgrade block drops the block's indexes, then its table. */
  lemma UndoneBlockShape(t: TableName, b: seq<Op>)
    requires IsBlock(Definition, IndexDef, t, b)
    ensures UpgradeCreates(b) && DropsIndexesThenTable(UndoAll(b), t)
  {
    assert UpgradeCreates(b);
    var u := UndoAll(b);
    assert u[|u| - 1] == Undo(b[0]);
    forall k | 0 <= k < |u| - 1 ensures u[k].DropIndex? && u[k].table == t {
      assert u[k] == Undo(b[|b| - 1 - k]);
    }
  }

  lemma SmallBlocksDropCreated()
    ensures multiset(DroppedIndexNames(UsageMetricsDowngrade, UsageMetrics))
         == multiset(CreatedIndexNames(UsageMetricsUpgrade, UsageMetrics))
    ensures multiset(DroppedIndexNames(ApiKeysDowngrade, ApiKeys)) == multiset(CreatedIndexNames(ApiKeysUpgrade, ApiKeys))
  {
    SmallDowngradeBlocksUndo();
    UndoneBlockDropsCreated(UsageMetricsUpgrade, UsageMetrics);
    UndoneBlockDropsCreated(ApiKeysUpgrade, ApiKeys);
  }

  lemma UsersBlockDropsCreated()
    ensures multiset(DroppedIndexNames(UsersDowngrade, Users)) == multiset(CreatedIndexNames(UsersUpgrade, Users))
  {
    UsersDowngradeUndoes();
    UndoneBlockDropsCreated(UsersUpgrade, Users);
  }

  lemma InstancesBlockDropsCreated()
    ensures multiset(DroppedIndexNames(InstancesDowngrade, Instances))
         == multiset(CreatedIndexNames(InstancesUpgrade, Instances))
  {
    InstancesDowngradeUndoes();
    UndoneBlockDropsCreated(InstancesUpgrade, Instances);
    SwapKeepsDropped(InstancesDowngrade, 1, Instances);
  }

  /** The index names `UndoAll(up)` drops on `t` are those `up` creates on it. */
  lemma UndoneBlockDropsCreated(up: seq<Op>, t: TableName)
    requires UpgradeCreates(up)
    ensures multiset(DroppedIndexNames(UndoAll(up), t)) == multiset(CreatedIndexNames(up, t))
  {
    UndoAllDropsCreated(up, t);
    ReverseSameElements(CreatedIndexNames(up, t));
  }

  // ---- Revision 000: table order ----

  /** Every table in `order` has its foreign keys point only at tables before it. */
  predicate ParentsFirst(order: seq<TableName>)
  {
    forall i, fk :: 0 <= i < |order| && fk in Definition(order[i]).fks ==> fk.target in order[..i]
  }

  /** The upgrade creates the tables parents first, users before instances before api_keys
      and usage_metrics, and the downgrade drops them in exactly the reverse order, so no
      table is dropped while one that references it remains. */
  lemma TableOrder000()
    ensures CreatedTables(Upgrade000) == [Users, Instances, ApiKeys, UsageMetrics]
    ensures CreatedTables(Upgrade000AsWritten) == CreatedTables(Upgrade000)
    ensures ParentsFirst(CreatedTables(Upgrade000))
    ensures DroppedTables(Downgrade000) == Reverse(CreatedTables(Upgrade000))
    ensures DroppedTables(Downgrade000AsWritten) == DroppedTables(Downgrade000)
  {
    CreatedTables000();
    DroppedTables000();
    ParentsFirst000();
  }

  lemma CreatedTables000()
    ensures CreatedTables(Upgrade000) == [Users, Instances, ApiKeys, UsageMetrics]
    ensures CreatedTables(Upgrade000AsWritten) == [Users, Instances, ApiKeys, UsageMetrics]
  {
    UpgradeBlockTables();
    TablesAppend(UsersUpgrade, InstancesUpgrade);
    TablesAppend(UsersUpgrade + InstancesUpgrade, ApiKeysUpgrade);
    TablesAppend(UsersUpgrade + InstancesUpgrade + ApiKeysUpgrade, UsageMetricsUpgrade);
    TablesAppend(UsersUpgradeAsWritten, InstancesUpgradeAsWritten);
    TablesAppend(UsersUpgradeAsWritten + InstancesUpgradeAsWritten, ApiKeysUpgrade);
    TablesAppend(UsersUpgradeAsWritten + InstancesUpgradeAsWritten + ApiKeysUpgrade, UsageMetricsUpgrade);
  }

  lemma UpgradeBlockTables()
    ensures CreatedTables(UsersUpgrade) == CreatedTables(UsersUpgradeAsWritten) == [Users]
    ensures CreatedTables(InstancesUpgrade) == CreatedTables(InstancesUpgradeAsWritten) == [Instances]
    ensures CreatedTables(ApiKeysUpgrade) == [ApiKeys]
    ensures CreatedTables(UsageMetricsUpgrade) == [UsageMetrics]
  {
    UsersTables();
    InstancesTables();
    TableBlock(ApiKeysUpgrade);
    TableBlock(UsageMetricsUpgrade);
  }

  lemma DowngradeBlockTables()
    ensures DroppedTables(UsersDowngrade) == DroppedTables(UsersDowngradeAsWritten) == [Users]
    ensures DroppedTables(InstancesDowngrade) == DroppedTables(InstancesDowngradeAsWritten) == [Instances]
    ensures DroppedTables(ApiKeysDowngrade) == [ApiKeys]
    ensures DroppedTables(UsageMetricsDowngrade) == [UsageMetrics]
  {
    UsersTables();
    InstancesTables();
    TableBlock(ApiKeysDowngrade);
    TableBlock(UsageMetricsDowngrade);
  }

  lemma UsersTables()
    ensures CreatedTables(UsersUpgrade) == CreatedTables(UsersUpgradeAsWritten) == [Users]
    ensures DroppedTables(UsersDowngrade) == DroppedTables(UsersDowngradeAsWritten) == [Users]
  {
    UsersUpgradeTables();
    UsersDowngradeTables();
  }

  lemma UsersUpgradeTables()
    ensures CreatedTables(UsersUpgrade) == [Users]
    ensures CreatedTables(UsersUpgradeAsWritten) == [Users]
  {
    TableBlock(UsersUpgrade);
    TableBlock(UsersUpgradeAsWritten);
  }

  lemma UsersDowngradeTables()
    ensures DroppedTables(UsersDowngrade) == [Users]
    ensures DroppedTables(UsersDowngradeAsWritten) == [Users]
  {
    TableBlock(UsersDowngrade);
    TableBlock(UsersDowngradeAsWritten);
  }

  lemma InstancesTables()
    ensures CreatedTables(InstancesUpgrade) == [Instances]
    ensures CreatedTables(InstancesUpgradeAsWritten) == [Instances]
    ensures DroppedTables(InstancesDowngrade) == [Instances]
    ensures DroppedTables(InstancesDowngradeAsWritten) == [Instances]
  {
    InstancesUpgradeTables();
    InstancesDowngradeTables();
  }

  lemma InstancesUpgradeTables()
    ensures CreatedTables(InstancesUpgrade) == [Instances]
    ensures CreatedTables(InstancesUpgradeAsWritten) == [Instances]
  {
    TableBlock(InstancesUpgrade);
    TableBlock(InstancesUpgradeAsWritten);
  }

  lemma InstancesDowngradeTables()
    ensures DroppedTables(InstancesDowngrade) == [Instances]
    ensures DroppedTables(InstancesDowngradeAsWritten) == [Instances]
  {
    TableBlock(InstancesDowngrade);
    TableBlock(InstancesDowngradeAsWritten);
  }

  lemma DroppedTables000()
    ensures DroppedTables(Downgrade000) == [UsageMetrics, ApiKeys, Instances, Users]
    ensures DroppedTables(Downgrade000AsWritten) == [UsageMetrics, ApiKeys, Instances, Users]
    ensures Reverse([Users, Instances, ApiKeys, UsageMetrics]) == [UsageMetrics, ApiKeys, Instances, Users]
  {
    DowngradeBlockTables();
    var um, ak := UsageMetricsDowngrade, ApiKeysDowngrade;
    TablesAppend(um, ak);
    TablesAppend(um + ak, InstancesDowngrade);
    TablesAppend(um + ak + InstancesDowngrade, UsersDowngrade);
    TablesAppend(um + ak, InstancesDowngradeAsWritten);
    TablesAppend(um + ak + InstancesDowngradeAsWritten, UsersDowngradeAsWritten);
    ReverseOfFour();
  }

  lemma ReverseOfFour()
    ensures Reverse([Users, Instances, ApiKeys, UsageMetrics]) == [UsageMetrics, ApiKeys, Instances, Users]
  {
    assert [Users][..0] == [];
    assert Reverse([Users]) == [Users];
    assert [Users, Instances][..1] == [Users];
    assert Reverse([Users, Instances]) == [Instances, Users];
    assert [Users, Instances, ApiKeys][..2] == [Users, Instances];
    assert Reverse([Users, Instances, ApiKeys]) == [ApiKeys, Instances, Users];
    assert [Users, Instances, ApiKeys, UsageMetrics][..3] == [Users, Instances, ApiKeys];
  }

  lemma ParentsFirst000()
    ensures ParentsFirst([Users, Instances, ApiKeys, UsageMetrics])
  {
    var order := [Users, Instances, ApiKeys, UsageMetrics];
    forall i, fk | 0 <= i < |order| && fk in Definition(order[i]).fks
      ensures fk.target in order[..i]
    {
      if i == 1 {
        assert fk in Definition(Instances).fks;
        assert order[..1] == [Users];
      } else if i == 2 {
        assert fk in Definition(ApiKeys).fks;
        assert order[..2] == [Users, Instances];
      } else if i == 3 {
        assert fk in Definition(UsageMetrics).fks;
        assert order[..3] == [Users, Instances, ApiKeys];
      }
    }
  }

  /** Out of order, the same statements are refused: instances cannot be created before
      users exist, and users cannot be dropped while instances and api_keys reference it. */
  lemma OutOfOrderRefused()
    ensures ApplyAll(Empty, [Create(Instances)]) == Err(Failure(0, UndefinedTable))
    ensures ApplyAll(Schema000, [DropTable(Users)]) == Err(Failure(0, DependentObjects))
  {
    var fk := ForeignKey(UserId, Users, Id);
    assert fk in Definition(Instances).fks;
    assert [Create(Instances)][..0] == [] && [DropTable(Users)][..0] == [];
    assert Instances in Schema000.tables && Schema000.tables[Instances] == Definition(Instances);
  }
}
