/** The `instances` row: lifecycle status, column defaults, and the two derived predicates
    the API uses to decide whether an instance is usable or may be (re)deployed. */
module Instances {
  import opened Wrappers

  /** The six lifecycle states of an instance. */
  datatype InstanceStatus = Creating | Running | Stopped | Failed | Deleting | Deleted

  /** The enum's `.value` string: what `InstanceStatus(v)` looks up, and the form of
      revision 000's `server_default` for the `status` column. */
  function StatusValue(s: InstanceStatus): string
  {
    match s
    case Creating => "creating"
    case Running => "running"
    case Stopped => "stopped"
    case Failed => "failed"
    case Deleting => "deleting"
    case Deleted => "deleted"
  }

  const AllStatusValues: set<string> :=
    {"creating", "running", "stopped", "failed", "deleting", "deleted"}

  /** Enum lookup by value, `InstanceStatus(v)`: `None` where Python raises `ValueError`. */
  function ParseStatus(v: string): (r: Option<InstanceStatus>)
    ensures r.Some? ==> StatusValue(r.value) == v
    ensures r.None? ==> v !in AllStatusValues
  {
    if v == "creating" then Some(Creating)
    else if v == "running" then Some(Running)
    else if v == "stopped" then Some(Stopped)
    else if v == "failed" then Some(Failed)
    else if v == "deleting" then Some(Deleting)
    else if v == "deleted" then Some(Deleted)
    else None
  }

  /** Exactly six distinct values, each looked up as the state it came from. */
  lemma StatusValuesRoundTrip(s: InstanceStatus)
    ensures StatusValue(s) in AllStatusValues
    ensures ParseStatus(StatusValue(s)) == Some(s)
    ensures |AllStatusValues| == 6
  {
  }

  /** The member name. An `Enum` column built from a Python enum class persists and reads
      back member names, so this is the string the `status` column holds for a row the ORM
      wrote. */
  function StatusName(s: InstanceStatus): string
  {
    match s
    case Creating => "CREATING"
    case Running => "RUNNING"
    case Stopped => "STOPPED"
    case Failed => "FAILED"
    case Deleting => "DELETING"
    case Deleted => "DELETED"
  }

  /** The column's read-back of a stored string, by member name: `None` where the ORM
      raises `LookupError`. */
  function LoadStatus(v: string): (r: Option<InstanceStatus>)
    ensures r.Some? ==> StatusName(r.value) == v
    ensures r.None? ==> forall s: InstanceStatus :: StatusName(s) != v
  {
    if v == "CREATING" then Some(Creating)
    else if v == "RUNNING" then Some(Running)
    else if v == "STOPPED" then Some(Stopped)
    else if v == "FAILED" then Some(Failed)
    else if v == "DELETING" then Some(Deleting)
    else if v == "DELETED" then Some(Deleted)
    else None
  }

  /** The column reads back every state it writes; the stored name is never the value. */
  lemma StatusNamesRoundTrip(s: InstanceStatus)
    ensures LoadStatus(StatusName(s)) == Some(s)
    ensures StatusName(s) != StatusValue(s)
  {
  }

  /** The two spellings do not mix: the string the column stores for a running instance is
      refused by lookup by value, and revision 000's `server_default` value is refused by the
      column's read-back, so a row that takes that default cannot be loaded. */
  lemma UpperCaseNameIsNotAStatus()
    ensures StatusName(Running) == "RUNNING" && LoadStatus("RUNNING") == Some(Running)
    ensures ParseStatus("RUNNING") == None
    ensures ParseStatus("creating") == Some(Creating) && LoadStatus("creating") == None
  {
  }

  datatype Instance = Instance(
    id: string,
    userId: string,
    name: string,
    slug: string,
    cloudRunServiceName: Option<string>,
    cloudRunUrl: Option<string>,
    region: string,
    neo4jServiceName: Option<string>,
    neo4jUrl: Option<string>,
    neo4jBoltUrl: Option<string>,
    neo4jSecretName: Option<string>,
    postgresInstanceName: Option<string>,
    postgresIp: Option<string>,
    postgresConnectionName: Option<string>,
    postgresSecretName: Option<string>,
    postgresDatabase: string,
    postgresUser: string,
    openaiSecretName: Option<string>,
    status: InstanceStatus,
    healthStatus: string,
    lastHealthCheck: Option<int>,
    config: map<string, string>,
    memoryMb: int,
    cpuCount: int,
    minInstances: int,
    maxInstances: int,
    description: Option<string>,
    tags: seq<string>,
    createdAt: int,
    updatedAt: int,
    deployedAt: Option<int>,
    deletedAt: Option<int>,
    deploymentError: Option<string>,
    deploymentLogsUrl: Option<string>)

  const DefaultRegion := "us-central1"

  /** A row as inserted with only identity columns given: every other column takes its
      declared default, and the two timestamps take the insertion time `now`. */
  function NewInstance(id: string, userId: string, name: string, slug: string, now: int): Instance
  {
    Instance(id, userId, name, slug, None, None, DefaultRegion,
             None, None, None, None, None, None, None, None, "memmachine", "postgres", None,
             Creating, "unknown", None, map[], 512, 1, 0, 10, None, [], now, now,
             None, None, None, None)
  }

  /** `is_healthy`: running and last reported healthy. */
  function IsHealthy(inst: Instance): (r: bool)
    ensures r ==> inst.status == Running && inst.healthStatus == "healthy" && !IsDeployable(inst)
    ensures inst.status == Running && inst.healthStatus == "healthy" ==> r
  {
    inst.status == Running && inst.healthStatus == "healthy"
  }

  /** `is_deployable`: the instance is in one of the three states a deployment may start from;
      equivalently, it is none of running, deleting or deleted. */
  function IsDeployable(inst: Instance): (r: bool)
    ensures r <==> !(inst.status == Running || inst.status == Deleting || inst.status == Deleted)
  {
    inst.status == Creating || inst.status == Stopped || inst.status == Failed
  }

  /** Healthy instances are running, so none of them may be deployed over. */
  lemma HealthyIsNotDeployable(inst: Instance)
    ensures !(IsHealthy(inst) && IsDeployable(inst))
    ensures IsHealthy(inst) ==> inst.status == Running
  {
  }

  /** A freshly inserted row is waiting for its deployment: deployable, not yet healthy,
      with the declared resource defaults. */
  lemma NewInstanceDefaults(id: string, userId: string, name: string, slug: string, now: int)
    ensures var inst := NewInstance(id, userId, name, slug, now);
      && IsDeployable(inst) && !IsHealthy(inst)
      && inst.status == Creating && inst.healthStatus == "unknown"
      && inst.memoryMb == 512 && inst.cpuCount == 1
      && inst.minInstances == 0 && inst.maxInstances == 10
      && inst.region == "us-central1"
  {
  }
}
