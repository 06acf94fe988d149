/** The stack deployer: deterministic resource names, generated identifiers, the bounded
    health-check retry, and the five-step `deploy_complete_stack` with rollback on failure.
    Cloud calls are abstract outcomes; random bytes are parameters. */
module Deployer {
  import opened Wrappers
  import opened Strings
  import opened Instances

  // ---- Resource names ----

  /** Every resource the deployer creates for an instance is named by a fixed prefix followed
      by the instance id. */
  function Prefixed(prefix: string, instanceId: string): (r: string)
    ensures |r| == |prefix| + |instanceId|
    ensures r[..|prefix|] == prefix && r[|prefix|..] == instanceId
  {
    prefix + instanceId
  }

  /** Secret holding the user's OpenAI key; `_store_openai_key` returns this id. */
  function OpenAiSecretId(instanceId: string): string
  {
    Prefixed("openai-key-", instanceId)
  }

  /** Cloud SQL instance name. */
  function SqlInstanceName(instanceId: string): string
  {
    Prefixed("memmachine-", instanceId)
  }

  /** `project:region:instance`, the connection name `_deploy_cloud_sql` returns. */
  function SqlConnectionName(project: string, region: string, instanceId: string): (r: string)
    ensures |r| == |project| + |region| + 2 + |SqlInstanceName(instanceId)|
    ensures r[..|project|] == project && r[|project|] == ':'
    ensures r[|project| + 1..|project| + 1 + |region|] == region
    ensures r[|project| + 1 + |region|] == ':'
    ensures r[|project| + |region| + 2..] == SqlInstanceName(instanceId)
  {
    project + ":" + region + ":" + SqlInstanceName(instanceId)
  }

  /** Cloud Run service id of the graph database. */
  function Neo4jServiceId(instanceId: string): string
  {
    Prefixed("neo4j-", instanceId)
  }

  /** Cloud Run service id of the application. */
  function MemMachineServiceId(instanceId: string): string
  {
    Prefixed("memmachine-", instanceId)
  }

  /** Fully qualified Cloud Run service name. */
  function ServicePath(project: string, region: string, serviceId: string): string
  {
    "projects/" + project + "/locations/" + region + "/services/" + serviceId
  }

  /** The two Cloud Run services never collide, whatever the two instance ids; each name
      determines its instance id. */
  lemma ServiceIdsDistinct(a: string, b: string)
    ensures Neo4jServiceId(a) != MemMachineServiceId(b)
    ensures Neo4jServiceId(a) == Neo4jServiceId(b) ==> a == b
    ensures MemMachineServiceId(a) == MemMachineServiceId(b) ==> a == b
    ensures OpenAiSecretId(a) == OpenAiSecretId(b) ==> a == b
  {
    assert Neo4jServiceId(a)[0] == 'n';
    assert MemMachineServiceId(b)[0] == 'm';
  }

  /** The connection name splits back at its two colons into project, region and Cloud SQL
      instance name, provided project and region contain no colon. */
  lemma ConnectionNameFields(project: string, region: string, instanceId: string)
    requires ':' !in project && ':' !in region
    ensures var c := SqlConnectionName(project, region, instanceId);
      forall i :: 0 <= i < |project| + |region| + 2 && c[i] == ':' ==>
        i == |project| || i == |project| + |region| + 1
  {
  }

  // ---- Generated identifiers ----

  /** `n` values drawn from `secrets`, each a byte. */
  predicate RandomBytes(xs: seq<int>, n: nat)
  {
    |xs| == n && forall i :: 0 <= i < n ==> IsByte(xs[i])
  }

  /** `_generate_instance_id`: the first eight characters of the user id, a dash, then the
      8 random bytes of `secrets.token_hex(8)` as 16 hex digits. */
  function GenerateInstanceId(userId: string, randomBytes: seq<int>): (r: string)
    requires RandomBytes(randomBytes, 8)
    ensures |r| == |Take(userId, 8)| + 17
    ensures r[..|Take(userId, 8)|] == Take(userId, 8)
    ensures r[|Take(userId, 8)|] == '-'
    ensures IsHexString(r[|Take(userId, 8)| + 1..])
  {
    Take(userId, 8) + "-" + HexEncode(randomBytes)
  }

  /** The slug of `deploy_complete_stack`: "mem-", the user prefix, a dash, 8 hex digits. */
  function StackSlug(userId: string, randomBytes: seq<int>): (r: string)
    requires RandomBytes(randomBytes, 4)
    ensures |r| == 4 + |Take(userId, 8)| + 9
    ensures r[..4] == "mem-"
    ensures r[4..4 + |Take(userId, 8)|] == Take(userId, 8)
    ensures r[4 + |Take(userId, 8)|] == '-'
    ensures IsHexString(r[|r| - 8..])
    ensures HexDecode(r[|r| - 8..]) == randomBytes
  {
    var r := "mem-" + Take(userId, 8) + "-" + HexEncode(randomBytes);
    assert r[|r| - 8..] == HexEncode(randomBytes);
    HexRoundTrip(randomBytes);
    r
  }

  /** The random part of an instance id is recoverable: it decodes to the bytes drawn. */
  lemma InstanceIdRandomPart(userId: string, randomBytes: seq<int>)
    requires RandomBytes(randomBytes, 8)
    ensures var r := GenerateInstanceId(userId, randomBytes);
      HexDecode(r[|Take(userId, 8)| + 1..]) == randomBytes
  {
    var r := GenerateInstanceId(userId, randomBytes);
    assert r[|Take(userId, 8)| + 1..] == HexEncode(randomBytes);
    HexRoundTrip(randomBytes);
  }

  // ---- Health check ----

  const MaxHealthAttempts := 5
  const HealthCheckError := "Health check failed after 5 attempts"

  /** What one GET of the health URL produced: a response, or an exception (timeout, refused). */
  datatype Probe = Responded(statusCode: int) | Raised(error: string)

  predicate Healthy(p: Probe) { p == Responded(200) }

  /** Number of raised probes in `ps`; each is followed by a 10-second wait. */
  function Raises(ps: seq<Probe>): nat
  {
    if ps == [] then 0 else (if ps[0].Raised? then 1 else 0) + Raises(ps[1..])
  }

  lemma RaisesAppend(ps: seq<Probe>, p: Probe)
    ensures Raises(ps + [p]) == Raises(ps) + (if p.Raised? then 1 else 0)
  {
    if ps != [] {
      assert (ps + [p])[1..] == ps[1..] + [p];
      RaisesAppend(ps[1..], p);
    }
  }

  /** `_validate_deployment`: probe `url + "/health"` until the first 200, at most five times;
      `probes[i]` is what attempt `i` observes. Returns the URLs probed and the waits taken. */
  method ValidateDeployment(url: string, probes: seq<Probe>)
    returns (result: Outcome<string>, probed: seq<string>, waits: nat)
    requires |probes| >= MaxHealthAttempts
    ensures 1 <= |probed| <= MaxHealthAttempts
    ensures forall i :: 0 <= i < |probed| ==> probed[i] == url + "/health"
    ensures forall i :: 0 <= i < |probed| - 1 ==> !Healthy(probes[i])
    ensures result.Pass? <==> Healthy(probes[|probed| - 1])
    ensures result.Pass? <==> exists i :: 0 <= i < MaxHealthAttempts && Healthy(probes[i])
    ensures result.Fail? ==> |probed| == MaxHealthAttempts && result.error == HealthCheckError
    ensures waits == Raises(probes[..|probed|])
  {
    var healthUrl := url + "/health";
    probed := [];
    waits := 0;
    var attempt := 0;
    while attempt < MaxHealthAttempts
      invariant 0 <= attempt <= MaxHealthAttempts
      invariant |probed| == attempt
      invariant forall i :: 0 <= i < attempt ==> probed[i] == healthUrl && !Healthy(probes[i])
      invariant waits == Raises(probes[..attempt])
    {
      probed := probed + [healthUrl];
      RaisesAppend(probes[..attempt], probes[attempt]);
      assert probes[..attempt + 1] == probes[..attempt] + [probes[attempt]];
      if Healthy(probes[attempt]) {
        result := Pass;
        return;
      }
      if probes[attempt].Raised? {
        waits := waits + 1;
      }
      attempt := attempt + 1;
    }
    result := Fail(HealthCheckError);
  }

  // ---- deploy_complete_stack ----

  /** Each cloud call the deployer makes, with the names and values it passes. */
  datatype StackCall =
    | StoreOpenAiKey(secretId: string)
    | CreateSqlInstance(sqlInstanceName: string)
    | CreateNeo4jService(servicePath: string)
    | CreateMemMachineService(servicePath: string, postgresHost: string, neo4jHost: string,
                              openAiSecretRef: string, groupId: string)
    | ProbeHealth(url: string)
    | RollBack(instanceId: string)

  /** The answers of the cloud: failure of any call, or the service URIs Cloud Run reports. */
  datatype Cloud = Cloud(
    storeKey: Outcome<string>,
    createSql: Outcome<string>,
    neo4j: Result<string, string>,
    memmachine: Result<string, string>,
    probes: seq<Probe>)

  datatype StackRun = StackRun(result: Result<Instance, string>, calls: seq<StackCall>)

  function ProbeCalls(urls: seq<string>): (r: seq<StackCall>)
    ensures |r| == |urls|
    ensures forall i :: 0 <= i < |urls| ==> r[i] == ProbeHealth(urls[i])
  {
    if urls == [] then [] else [ProbeHealth(urls[0])] + ProbeCalls(urls[1..])
  }

  function FailureMessage(cause: string): string { "Deployment failed: " + cause }

  /** The four provisioning calls of a stack deployment, in order, with their arguments. */
  function PlannedCalls(project: string, region: string, userId: string, id: string,
                        neo4jUrl: string): (r: seq<StackCall>)
    ensures |r| == 4
  {
    [StoreOpenAiKey(OpenAiSecretId(id)),
     CreateSqlInstance(SqlInstanceName(id)),
     CreateNeo4jService(ServicePath(project, region, Neo4jServiceId(id))),
     CreateMemMachineService(ServicePath(project, region, MemMachineServiceId(id)),
                             "/cloudsql/" + SqlConnectionName(project, region, id), neo4jUrl,
                             "projects/" + project + "/secrets/" + OpenAiSecretId(id), userId)]
  }

  /** The record returned for a deployment that passed its health check. */
  function DeployedInstance(project: string, region: string, userId: string, instanceName: string,
                            id: string, slug: string, neo4jUrl: string, memmachineUrl: string,
                            now: int): (inst: Instance)
    ensures IsHealthy(inst) && !IsDeployable(inst)
    ensures inst.id == id && inst.userId == userId && inst.name == instanceName && inst.slug == slug
    ensures inst.cloudRunServiceName == Some(MemMachineServiceId(id))
    ensures inst.cloudRunUrl == Some(memmachineUrl)
    ensures inst.status == Running && inst.healthStatus == "healthy"
    ensures inst.config.Keys == {"postgres_connection", "neo4j_url", "neo4j_service"}
    ensures inst.config["postgres_connection"] == SqlConnectionName(project, region, id)
    ensures inst.config["neo4j_url"] == neo4jUrl
    ensures inst.config["neo4j_service"] == Neo4jServiceId(id)
    ensures inst.deployedAt == Some(now)
  {
    NewInstance(id, userId, instanceName, slug, now).(
      cloudRunServiceName := Some(MemMachineServiceId(id)),
      cloudRunUrl := Some(memmachineUrl),
      status := Running,
      healthStatus := "healthy",
      config := map["postgres_connection" := SqlConnectionName(project, region, id),
                    "neo4j_url" := neo4jUrl,
                    "neo4j_service" := Neo4jServiceId(id)],
      deployedAt := Some(now))
  }

  /** `deploy_complete_stack`: secret, Cloud SQL, Neo4j, MemMachine, health check, in that
      order; the first failure rolls back and is re-raised as a deployment error. */
  method DeployCompleteStack(project: string, region: string, userId: string, instanceName: string,
                             idBytes: seq<int>, slugBytes: seq<int>, cloud: Cloud, now: int)
    returns (run: StackRun)
    requires RandomBytes(idBytes, 8)
    requires RandomBytes(slugBytes, 4)
    requires |cloud.probes| >= MaxHealthAttempts
    ensures run.result.Ok? <==>
      && cloud.storeKey.Pass? && cloud.createSql.Pass? && cloud.neo4j.Ok? && cloud.memmachine.Ok?
      && exists i :: 0 <= i < MaxHealthAttempts && Healthy(cloud.probes[i])
    ensures var id := GenerateInstanceId(userId, idBytes);
      var planned := PlannedCalls(project, region, userId, id,
                                  if cloud.neo4j.Ok? then cloud.neo4j.value else "");
      && (cloud.storeKey.Fail? ==> run.calls == planned[..1] + [RollBack(id)])
      && (cloud.storeKey.Pass? && cloud.createSql.Fail? ==> run.calls == planned[..2] + [RollBack(id)])
      && (cloud.storeKey.Pass? && cloud.createSql.Pass? && cloud.neo4j.Err? ==>
            run.calls == planned[..3] + [RollBack(id)])
      && (cloud.storeKey.Pass? && cloud.createSql.Pass? && cloud.neo4j.Ok? && cloud.memmachine.Err? ==>
            run.calls == planned + [RollBack(id)])
      && (cloud.storeKey.Pass? && cloud.createSql.Pass? && cloud.neo4j.Ok? && cloud.memmachine.Ok? ==>
            |run.calls| > 4 && run.calls[..4] == planned)
    ensures run.result.Err? ==> run.calls[|run.calls| - 1] == RollBack(GenerateInstanceId(userId, idBytes))
    ensures cloud.storeKey.Fail? ==> run.result == Err(FailureMessage(cloud.storeKey.error))
    ensures cloud.storeKey.Pass? && cloud.createSql.Fail? ==>
      run.result == Err(FailureMessage(cloud.createSql.error))
    ensures cloud.storeKey.Pass? && cloud.createSql.Pass? && cloud.neo4j.Err? ==>
      run.result == Err(FailureMessage(cloud.neo4j.error))
    ensures cloud.storeKey.Pass? && cloud.createSql.Pass? && cloud.neo4j.Ok? && cloud.memmachine.Err? ==>
      run.result == Err(FailureMessage(cloud.memmachine.error))
    ensures (&& cloud.storeKey.Pass? && cloud.createSql.Pass? && cloud.neo4j.Ok? && cloud.memmachine.Ok?
             && run.result.Err?) ==> run.result.error == FailureMessage(HealthCheckError)
    ensures run.result.Ok? ==>
      var id := GenerateInstanceId(userId, idBytes);
      && run.result.value == DeployedInstance(project, region, userId, instanceName, id,
                                              StackSlug(userId, slugBytes), cloud.neo4j.value,
                                              cloud.memmachine.value, now)
      && forall i :: 4 <= i < |run.calls| ==> run.calls[i] == ProbeHealth(cloud.memmachine.value + "/health")
  {
    var id := GenerateInstanceId(userId, idBytes);
    var neo4jUrl := if cloud.neo4j.Ok? then cloud.neo4j.value else "";
    var planned := PlannedCalls(project, region, userId, id, neo4jUrl);
    var failure := FirstFailure(cloud);
    if failure.Some? {
      assert planned[..4] == planned;
      return AbortAfter(planned, failure.value.0, id, failure.value.1);
    }
    var inst := DeployedInstance(project, region, userId, instanceName, id,
                                 StackSlug(userId, slugBytes), neo4jUrl, cloud.memmachine.value, now);
    run := ProbeAndFinish(planned, id, cloud.memmachine.value, cloud.probes, inst);
  }

  /** The first of the four provisioning calls to fail, counted from 1, with its error. */
  function FirstFailure(cloud: Cloud): (f: Option<(nat, string)>)
    ensures f.Some? ==> 1 <= f.value.0 <= 4
    ensures f.None? <==> cloud.storeKey.Pass? && cloud.createSql.Pass? && cloud.neo4j.Ok? && cloud.memmachine.Ok?
  {
    if cloud.storeKey.Fail? then Some((1, cloud.storeKey.error))
    else if cloud.createSql.Fail? then Some((2, cloud.createSql.error))
    else if cloud.neo4j.Err? then Some((3, cloud.neo4j.error))
    else if cloud.memmachine.Err? then Some((4, cloud.memmachine.error))
    else None
  }

  /** The run when the `n`-th planned call fails: the calls up to and including it, then the
      rollback, and the error wrapped as a deployment failure. */
  function AbortAfter(planned: seq<StackCall>, n: nat, id: string, cause: string): (run: StackRun)
    requires 1 <= n <= |planned|
    ensures run.result == Err(FailureMessage(cause))
    ensures run.calls == planned[..n] + [RollBack(id)]
    ensures run.calls[|run.calls| - 1] == RollBack(id)
  {
    StackRun(Err(FailureMessage(cause)), planned[..n] + [RollBack(id)])
  }

  /** The health probing that ends a stack deployment once every resource exists. */
  method ProbeAndFinish(planned: seq<StackCall>, id: string, memmachineUrl: string, probes: seq<Probe>,
                        inst: Instance)
    returns (run: StackRun)
    requires |planned| == 4 && |probes| >= MaxHealthAttempts
    ensures run.result.Ok? <==> exists i :: 0 <= i < MaxHealthAttempts && Healthy(probes[i])
    ensures |run.calls| > 4 && run.calls[..4] == planned
    ensures run.result.Err? ==>
      && run.calls[|run.calls| - 1] == RollBack(id)
      && run.result.error == FailureMessage(HealthCheckError)
    ensures run.result.Ok? ==>
      && run.result.value == inst
      && forall i :: 4 <= i < |run.calls| ==> run.calls[i] == ProbeHealth(memmachineUrl + "/health")
  {
    var health, probed, _ := ValidateDeployment(memmachineUrl, probes);
    var calls := planned + ProbeCalls(probed);
    assert calls[..4] == planned;
    if health.Fail? {
      assert (calls + [RollBack(id)])[..4] == planned;
      return StackRun(Err(FailureMessage(health.error)), calls + [RollBack(id)]);
    }
    run := StackRun(Ok(inst), calls);
  }
}
