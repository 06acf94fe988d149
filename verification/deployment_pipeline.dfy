/** `execute_deployment` as a pure pipeline. Every call into code the model cannot see (the
    deployer's constructor and methods, the database writes) is an abstract outcome in a
    `Provisioner` record. The six steps become `Stage`s; a run is the event list those stages
    produce, folded over the status snapshot with the record operations. */
module DeploymentPipeline {
  import opened Wrappers
  import opened Strings
  import opened Instances
  import opened DeploymentTracker
  import Deployer

  // ---- What the outside world answers ----

  datatype SqlHandle = SqlHandle(ip: string, connection: string)

  datatype Neo4jHandle = Neo4jHandle(url: string, bolt: string)

  /** Outcomes of the calls `execute_deployment` makes, in the order it makes them. */
  datatype Provisioner = Provisioner(
    init: Outcome<string>,                      // MemMachineDeployer()
    openaiSecret: Outcome<string>,              // _store_secret for the OpenAI key (undefined)
    postgresSecret: Outcome<string>,            // _store_secret for the database password
    cloudSql: Result<SqlHandle, string>,        // _deploy_cloud_sql
    neo4jSecret: Outcome<string>,               // _store_secret for the graph password
    neo4jService: Result<Neo4jHandle, string>,  // _deploy_neo4j (Cloud Run branch only)
    memmachine: Result<string, string>,         // _deploy_memmachine
    health: Outcome<string>,                    // _validate_deployment
    persist: Outcome<string>,                   // saving the deployed instance row
    markFailed: Outcome<string>)                // saving the FAILED instance row

  /** Arguments passed to `_deploy_memmachine`. */
  datatype MemMachineArgs = MemMachineArgs(
    instanceId: string,
    postgresIp: string,
    postgresSecret: string,
    neo4jBoltUrl: string,
    neo4jSecret: string,
    openaiSecret: string,
    userId: string,
    neo4jConnectionUrl: string)

  /** A call into the deployer, with the arguments the pipeline passes. */
  datatype Call =
    | StoreSecret(secretId: string)
    | DeployCloudSql(instanceId: string)
    | DeployNeo4j(instanceId: string)
    | DeployMemMachine(args: MemMachineArgs)
    | ValidateDeployment(url: string)

  datatype Attempt = Attempt(call: Call, outcome: Outcome<string>)

  /** One numbered step of the pipeline: the step record it opens, the calls it makes, the
      details it closes the step with and the overall progress it assigns afterwards. */
  datatype Stage = Stage(step: Step, attempts: seq<Attempt>, details: Option<Details>, progress: Option<int>)

  function OutcomeOf<T>(r: Result<T, string>): Outcome<string>
  {
    if r.Ok? then Pass else Fail(r.error)
  }

  /** The value of a call, or a placeholder for a call that failed. A failing call ends the
      run, so a placeholder is never observed by any later step. */
  function ValueOr<T>(r: Result<T, string>, placeholder: T): T
  {
    if r.Ok? then r.value else placeholder
  }

  // ---- Neo4j URL derivation ----

  const AuraScheme := "neo4j+s://"
  const PlainScheme := "neo4j://"

  /** The bolt address of an Aura URI: every "neo4j+s://" removed, then every "neo4j://". */
  function Neo4jBolt(uri: string): (r: string)
    ensures |r| <= |uri|
  {
    RemoveAll(RemoveAll(uri, AuraScheme), PlainScheme)
  }

  /** For a URI "neo4j+s://host" whose host mentions neither scheme, the bolt address is the host. */
  lemma BoltOfAuraUri(host: string)
    requires !Occurs(host, AuraScheme) && !Occurs(host, PlainScheme)
    ensures Neo4jBolt(AuraScheme + host) == host
  {
    RemoveAllLeading(AuraScheme, host);
    RemoveAllAbsent(host, AuraScheme);
    RemoveAllAbsent(host, PlainScheme);
  }

  /** The managed-service branch: URI, user and password all given and non-empty. */
  predicate UsesAura(req: DeploymentRequest)
  {
    Truthy(req.neo4jUri) && Truthy(req.neo4jUser) && Truthy(req.neo4jPassword)
  }

  /** Names and addresses the pipeline derives before passing them on. */
  datatype Wiring = Wiring(
    openaiSecret: string,
    postgresSecret: string,
    neo4jSecret: string,
    sql: SqlHandle,
    neo4jUrl: string,
    neo4jBolt: string,
    connectionUrl: string,
    memmachineUrl: string)

  function Wire(id: string, req: DeploymentRequest, prov: Provisioner): (w: Wiring)
    ensures w.openaiSecret == Deployer.OpenAiSecretId(id)
    ensures UsesAura(req) ==> w.neo4jUrl == req.neo4jUri.value && w.neo4jBolt == Neo4jBolt(req.neo4jUri.value)
    ensures !UsesAura(req) && prov.neo4jService.Ok? ==>
      w.neo4jUrl == prov.neo4jService.value.url && w.neo4jBolt == prov.neo4jService.value.bolt
    ensures Truthy(req.neo4jUri) ==> w.connectionUrl == w.neo4jUrl
    ensures !Truthy(req.neo4jUri) ==> w.connectionUrl == "bolt://" + w.neo4jBolt + ":7687"
  {
    var aura := UsesAura(req);
    var service := ValueOr(prov.neo4jService, Neo4jHandle("", ""));
    var url := if aura then req.neo4jUri.value else service.url;
    var bolt := if aura then Neo4jBolt(req.neo4jUri.value) else service.bolt;
    Wiring(
      Deployer.OpenAiSecretId(id),
      "postgres-pass-" + id,
      (if aura then "neo4j-aura-pass-" else "neo4j-pass-") + id,
      ValueOr(prov.cloudSql, SqlHandle("", "")),
      url, bolt,
      if Truthy(req.neo4jUri) then url else "bolt://" + bolt + ":7687",
      ValueOr(prov.memmachine, ""))
  }

  /** With Aura credentials the application connects to the given URI itself, and the bolt
      address is the URI's host. */
  lemma AuraWiring(id: string, req: DeploymentRequest, prov: Provisioner, host: string)
    requires UsesAura(req) && req.neo4jUri.value == AuraScheme + host
    requires !Occurs(host, AuraScheme) && !Occurs(host, PlainScheme)
    ensures Wire(id, req, prov).neo4jBolt == host
    ensures Wire(id, req, prov).connectionUrl == AuraScheme + host
  {
    BoltOfAuraUri(host);
  }

  /** A URI without user or password still selects the Cloud Run branch, yet the application
      is pointed at the Cloud Run service URL rather than at a bolt address. */
  lemma UriWithoutCredentials(id: string, req: DeploymentRequest, prov: Provisioner)
    requires Truthy(req.neo4jUri) && !Truthy(req.neo4jUser) && prov.neo4jService.Ok?
    ensures !UsesAura(req)
    ensures Wire(id, req, prov).connectionUrl == prov.neo4jService.value.url
  {
  }

  // ---- Events and their fold over the status ----

  datatype Event =
    | Begin(step: Step)                                           // add_step
    | Invoke(call: Call)                                          // a call into the deployer
    | Complete(stepId: string, details: Option<Details>)          // complete_step
    | SetProgress(value: int)                                     // overall_progress = value
    | Finish(endpoints: map<string, string>, decision: Decision)  // the success assignments
    | Abort(error: string)                                        // the catch-all handler

  const FinalProgress := 100
  const FinalQuality := 95

  function Apply(st: DeploymentStatus, e: Event, now: int): DeploymentStatus
  {
    match e
    case Begin(s) => AddStep(st, s, now)
    case Invoke(_) => st
    case Complete(id, d) => CompleteStep(st, id, d, now)
    case SetProgress(v) => st.(overallProgress := v)
    case Finish(eps, d) =>
      st.(endpoints := Some(eps), success := true, overallProgress := FinalProgress,
          qualityScore := FinalQuality, decisions := st.decisions + [d])
    case Abort(_) => st.(success := false)
  }

  function Replay(st: DeploymentStatus, evs: seq<Event>, now: int): DeploymentStatus
    decreases |evs|
  {
    if evs == [] then st else Replay(Apply(st, evs[0], now), evs[1..], now)
  }

  /** Every snapshot a poller can observe: the start and the state after each event. */
  function Trace(st: DeploymentStatus, evs: seq<Event>, now: int): (t: seq<DeploymentStatus>)
    ensures |t| == |evs| + 1 && t[0] == st
    decreases |evs|
  {
    [st] + (if evs == [] then [] else Trace(Apply(st, evs[0], now), evs[1..], now))
  }

  lemma {:induction false} ReplayAppend(st: DeploymentStatus, a: seq<Event>, b: seq<Event>, now: int)
    ensures Replay(st, a + b, now) == Replay(Replay(st, a, now), b, now)
    decreases |a|
  {
    if a != [] {
      assert (a + b)[1..] == a[1..] + b;
      ReplayAppend(Apply(st, a[0], now), a[1..], b, now);
    } else {
      assert a + b == b;
    }
  }

  /** The snapshots of `a + b` are those of `a` followed by those of `b` from where `a` ended. */
  lemma {:induction false} TraceAppend(st: DeploymentStatus, a: seq<Event>, b: seq<Event>, now: int)
    ensures Trace(st, a + b, now) == Trace(st, a, now) + Trace(Replay(st, a, now), b, now)[1..]
    decreases |a|
  {
    if a != [] {
      assert (a + b)[1..] == a[1..] + b;
      TraceAppend(Apply(st, a[0], now), a[1..], b, now);
    } else {
      assert a + b == b;
    }
  }

  /** The last snapshot of a trace is the replayed state. */
  lemma {:induction false} TraceEndsInReplay(st: DeploymentStatus, evs: seq<Event>, now: int)
    ensures Trace(st, evs, now)[|evs|] == Replay(st, evs, now)
    decreases |evs|
  {
    if evs != [] {
      TraceEndsInReplay(Apply(st, evs[0], now), evs[1..], now);
    }
  }

  /** A snapshot of `a + b` is a snapshot of `a` or of `b` from where `a` ended. */
  lemma InAppendedTrace(st: DeploymentStatus, a: seq<Event>, b: seq<Event>, now: int, t: DeploymentStatus)
    requires t in Trace(st, a + b, now)
    ensures t in Trace(st, a, now) || t in Trace(Replay(st, a, now), b, now)
  {
    TraceAppend(st, a, b, now);
    if t !in Trace(st, a, now) {
      assert t in Trace(Replay(st, a, now), b, now)[1..];
    }
  }

  lemma SingleEvent(st: DeploymentStatus, e: Event, now: int)
    ensures Replay(st, [e], now) == Apply(st, e, now)
    ensures Trace(st, [e], now) == [st, Apply(st, e, now)]
  {
    assert [e][1..] == [];
  }

  /** The calls of one stage: issued in order up to and including the first that fails. */
  function Invokes(attempts: seq<Attempt>): (r: seq<Event>)
    ensures forall i :: 0 <= i < |r| ==> r[i].Invoke?
  {
    if attempts == [] then []
    else [Invoke(attempts[0].call)] + (if attempts[0].outcome.Fail? then [] else Invokes(attempts[1..]))
  }

  /** The error of the first failing call of a stage, if any. */
  function FirstFailure(attempts: seq<Attempt>): (r: Option<string>)
    ensures r.None? <==> forall i :: 0 <= i < |attempts| ==> attempts[i].outcome.Pass?
  {
    if attempts == [] then None
    else if attempts[0].outcome.Fail? then Some(attempts[0].outcome.error)
    else FirstFailure(attempts[1..])
  }

  /** Calls change nothing in the status. */
  lemma {:induction false} InvokesNoop(st: DeploymentStatus, evs: seq<Event>, now: int)
    requires forall i :: 0 <= i < |evs| ==> evs[i].Invoke?
    ensures Replay(st, evs, now) == st
    ensures forall t :: t in Trace(st, evs, now) ==> t == st
    decreases |evs|
  {
    if evs != [] {
      InvokesNoop(st, evs[1..], now);
    }
  }

  function ProgressEvent(p: Option<int>): seq<Event>
  {
    if p.Some? then [SetProgress(p.value)] else []
  }

  /** What follows the calls of a stage: the handler on a failure, else completion and progress. */
  function StageEnd(s: Stage): seq<Event>
  {
    if FirstFailure(s.attempts).Some? then [Abort(FirstFailure(s.attempts).value)]
    else [Complete(s.step.id, s.details)] + ProgressEvent(s.progress)
  }

  /** The events of one stage: open the step, make the calls, then abort or complete. */
  function OneStage(s: Stage): seq<Event>
  {
    [Begin(s.step)] + Invokes(s.attempts) + StageEnd(s)
  }

  /** The events of a run of stages, stopping at the first stage that aborts. */
  function StageEvents(ss: seq<Stage>): seq<Event>
    decreases |ss|
  {
    if ss == [] then []
    else OneStage(ss[0]) + (if FirstFailure(ss[0].attempts).Some? then [] else StageEvents(ss[1..]))
  }

  /** Index of the first stage with a failing call, or the number of stages. */
  function FailedAt(ss: seq<Stage>): (k: nat)
    ensures k <= |ss|
    ensures forall i :: 0 <= i < k ==> FirstFailure(ss[i].attempts).None?
    ensures k < |ss| ==> FirstFailure(ss[k].attempts).Some?
  {
    if ss == [] then 0
    else if FirstFailure(ss[0].attempts).Some? then 0
    else 1 + FailedAt(ss[1..])
  }

  /** The step as `add_step` records it. */
  function Opened(s: Step, now: int): Step { s.(startedAt := Some(now)) }

  /** The step of a stage as it reads once closed. */
  function Done(s: Stage, now: int): Step { Close(Opened(s.step, now), s.details, now) }

  /** The steps of fully run stages, as they read once closed. */
  function DoneSteps(ss: seq<Stage>, now: int): (r: seq<Step>)
    ensures |r| == |ss|
    ensures forall i :: 0 <= i < |ss| ==> r[i] == Done(ss[i], now)
  {
    if ss == [] then [] else [Done(ss[0], now)] + DoneSteps(ss[1..], now)
  }

  /** The progress left by running `ss` from progress `p`. */
  function LastProgress(p: int, ss: seq<Stage>): int
    decreases |ss|
  {
    if ss == [] then p else LastProgress(if ss[0].progress.Some? then ss[0].progress.value else p, ss[1..])
  }

  /** When the last stage assigns progress, that is the progress left. */
  lemma {:induction false} LastProgressOfLast(p: int, ss: seq<Stage>)
    requires |ss| > 0 && ss[|ss| - 1].progress.Some?
    ensures LastProgress(p, ss) == ss[|ss| - 1].progress.value
    decreases |ss|
  {
    if |ss| > 1 {
      LastProgressOfLast(if ss[0].progress.Some? then ss[0].progress.value else p, ss[1..]);
    }
  }

  /** Reference account of one stage, stated on the status directly. */
  function AfterStage(st: DeploymentStatus, s: Stage, now: int): DeploymentStatus
  {
    if FirstFailure(s.attempts).Some? then st.(steps := st.steps + [Opened(s.step, now)], success := false)
    else st.(steps := st.steps + [Done(s, now)],
             overallProgress := if s.progress.Some? then s.progress.value else st.overallProgress)
  }

  /** Reference account of a run of stages. */
  function AfterStages(st: DeploymentStatus, ss: seq<Stage>, now: int): DeploymentStatus
    decreases |ss|
  {
    if ss == [] then st
    else if FirstFailure(ss[0].attempts).Some? then AfterStage(st, ss[0], now)
    else AfterStages(AfterStage(st, ss[0], now), ss[1..], now)
  }

  /** The state after the `Begin` event and the calls. */
  lemma StageOpens(st: DeploymentStatus, s: Stage, now: int)
    ensures Replay(st, [Begin(s.step)] + Invokes(s.attempts), now) == st.(steps := st.steps + [Opened(s.step, now)])
    ensures forall t :: t in Trace(st, [Begin(s.step)] + Invokes(s.attempts), now) ==>
      t == st || t == st.(steps := st.steps + [Opened(s.step, now)])
  {
    var st1 := AddStep(st, s.step, now);
    SingleEvent(st, Begin(s.step), now);
    InvokesNoop(st1, Invokes(s.attempts), now);
    ReplayAppend(st, [Begin(s.step)], Invokes(s.attempts), now);
    TraceAppend(st, [Begin(s.step)], Invokes(s.attempts), now);
  }

  /** The state after the end of a stage whose step is open and carries a fresh id. */
  lemma StageCloses(st: DeploymentStatus, s: Stage, now: int)
    requires forall j :: 0 <= j < |st.steps| ==> st.steps[j].id != s.step.id
    ensures Replay(st.(steps := st.steps + [Opened(s.step, now)]), StageEnd(s), now) == AfterStage(st, s, now)
    ensures forall t :: t in Trace(st.(steps := st.steps + [Opened(s.step, now)]), StageEnd(s), now) ==>
      t.steps == st.steps + [Opened(s.step, now)] || t.steps == AfterStage(st, s, now).steps
  {
    if FirstFailure(s.attempts).Some? {
      SingleEvent(st.(steps := st.steps + [Opened(s.step, now)]), StageEnd(s)[0], now);
    } else {
      StageCompletes(st, s, now);
    }
  }

  /** The closing events of a stage whose calls all succeed: the step is completed, then the
      progress, if any, is assigned. */
  lemma StageCompletes(st: DeploymentStatus, s: Stage, now: int)
    requires forall j :: 0 <= j < |st.steps| ==> st.steps[j].id != s.step.id
    requires FirstFailure(s.attempts).None?
    ensures Replay(st.(steps := st.steps + [Opened(s.step, now)]), StageEnd(s), now) == AfterStage(st, s, now)
    ensures forall t :: t in Trace(st.(steps := st.steps + [Opened(s.step, now)]), StageEnd(s), now) ==>
      t.steps == st.steps + [Opened(s.step, now)] || t.steps == AfterStage(st, s, now).steps
  {
    var st1 := st.(steps := st.steps + [Opened(s.step, now)]);
    var done := Complete(s.step.id, s.details);
    CloseLast(st.steps, Opened(s.step, now), s.details, now);
    assert Apply(st1, done, now) == st.(steps := st.steps + [Done(s, now)]);
    assert StageEnd(s) == [done] + ProgressEvent(s.progress);
    ClosingEvents(st1, done, s.progress, now);
  }

  /** Completing a step and then assigning the progress, if any: the snapshots show the steps
      as before or as the completion leaves them, and the end state carries the progress. */
  lemma ClosingEvents(st: DeploymentStatus, done: Event, p: Option<int>, now: int)
    ensures var st2 := Apply(st, done, now);
      Replay(st, [done] + ProgressEvent(p), now)
        == st2.(overallProgress := if p.Some? then p.value else st2.overallProgress)
    ensures forall t :: t in Trace(st, [done] + ProgressEvent(p), now) ==>
      t.steps == st.steps || t.steps == Apply(st, done, now).steps
  {
    var st2 := Apply(st, done, now);
    SingleEvent(st, done, now);
    ReplayAppend(st, [done], ProgressEvent(p), now);
    TraceAppend(st, [done], ProgressEvent(p), now);
    if p.Some? {
      SingleEvent(st2, SetProgress(p.value), now);
    } else {
      assert Trace(st2, [], now) == [st2];
    }
  }

  /** One stage replayed agrees with the reference account. */
  lemma OneStageEffect(st: DeploymentStatus, s: Stage, now: int)
    requires forall j :: 0 <= j < |st.steps| ==> st.steps[j].id != s.step.id
    ensures Replay(st, OneStage(s), now) == AfterStage(st, s, now)
  {
    StageOpens(st, s, now);
    StageCloses(st, s, now);
    ReplayAppend(st, [Begin(s.step)] + Invokes(s.attempts), StageEnd(s), now);
  }

  /** During one stage a poller sees the steps as they were, with the new step open, or as
      the stage leaves them. */
  lemma OneStageSnapshots(st: DeploymentStatus, s: Stage, now: int)
    requires forall j :: 0 <= j < |st.steps| ==> st.steps[j].id != s.step.id
    ensures forall t :: t in Trace(st, OneStage(s), now) ==>
      t.steps == st.steps || t.steps == st.steps + [Opened(s.step, now)] || t.steps == AfterStage(st, s, now).steps
  {
    var head := [Begin(s.step)] + Invokes(s.attempts);
    StageOpens(st, s, now);
    StageCloses(st, s, now);
    var st1 := st.(steps := st.steps + [Opened(s.step, now)]);
    forall t | t in Trace(st, OneStage(s), now)
      ensures t.steps == st.steps || t.steps == st.steps + [Opened(s.step, now)]
              || t.steps == AfterStage(st, s, now).steps
    {
      InAppendedTrace(st, head, StageEnd(s), now, t);
    }
  }

  /** Step ids are pairwise distinct and none is already in `steps`. */
  predicate IdsFresh(steps: seq<Step>, ss: seq<Stage>)
  {
    && (forall i, j :: 0 <= i < j < |ss| ==> ss[i].step.id != ss[j].step.id)
    && (forall i, j :: 0 <= i < |ss| && 0 <= j < |steps| ==> steps[j].id != ss[i].step.id)
  }

  /** The ids of later stages stay fresh after a stage has recorded its own step. */
  lemma FreshAfterStage(steps: seq<Step>, ss: seq<Stage>, extra: Step)
    requires IdsFresh(steps, ss) && |ss| > 0 && extra.id == ss[0].step.id
    ensures IdsFresh(steps + [extra], ss[1..])
  {
    var steps' := steps + [extra];
    forall i, j | 0 <= i < |ss[1..]| && 0 <= j < |steps'|
      ensures steps'[j].id != ss[1..][i].step.id
    {
      assert ss[1..][i] == ss[i + 1];
      if j < |steps| {
        assert steps'[j] == steps[j];
      }
    }
  }

  /** A run of stages replayed agrees with the reference account. */
  lemma {:induction false} StagesReplay(st: DeploymentStatus, ss: seq<Stage>, now: int)
    requires IdsFresh(st.steps, ss)
    ensures Replay(st, StageEvents(ss), now) == AfterStages(st, ss, now)
    decreases |ss|
  {
    if ss != [] {
      var s := ss[0];
      OneStageEffect(st, s, now);
      if FirstFailure(s.attempts).Some? {
        assert StageEvents(ss) == OneStage(s) + [];
        assert OneStage(s) + [] == OneStage(s);
      } else {
        ReplayAppend(st, OneStage(s), StageEvents(ss[1..]), now);
        FreshAfterStage(st.steps, ss, Done(s, now));
        StagesReplay(AfterStage(st, s, now), ss[1..], now);
      }
    }
  }

  /** The steps a run of stages adds: closed ones for the stages that complete, then the open
      step of the failing stage, if any. */
  function RunSteps(ss: seq<Stage>, now: int): seq<Step>
    decreases |ss|
  {
    if ss == [] then []
    else if FirstFailure(ss[0].attempts).Some? then [Opened(ss[0].step, now)]
    else [Done(ss[0], now)] + RunSteps(ss[1..], now)
  }

  /** The progress a run of stages leaves, starting from `p`. */
  function RunProgress(p: int, ss: seq<Stage>): int
    decreases |ss|
  {
    if ss == [] || FirstFailure(ss[0].attempts).Some? then p
    else RunProgress(if ss[0].progress.Some? then ss[0].progress.value else p, ss[1..])
  }

  /** The reference account, field by field: the run adds `RunSteps`, leaves `RunProgress`,
      clears `success` on a failure, and changes nothing else in the status. */
  lemma {:induction false} StageRun(st: DeploymentStatus, ss: seq<Stage>, now: int)
    ensures AfterStages(st, ss, now)
      == st.(steps := st.steps + RunSteps(ss, now),
             overallProgress := RunProgress(st.overallProgress, ss),
             success := FailedAt(ss) == |ss| && st.success)
    decreases |ss|
  {
    if ss != [] && FirstFailure(ss[0].attempts).None? {
      var st1 := AfterStage(st, ss[0], now);
      StageRun(st1, ss[1..], now);
      assert st1.steps + RunSteps(ss[1..], now) == st.steps + RunSteps(ss, now);
    }
  }

  /** Closed form of the steps a run adds: the first `FailedAt` stages closed, then the
      failing one open. */
  lemma {:induction false} RunStepsClosedForm(ss: seq<Stage>, now: int)
    ensures RunStepsClosed(ss, now)
    decreases |ss|
  {
    if ss == [] || FirstFailure(ss[0].attempts).Some? {
      assert ss[..0] == [];
    } else {
      RunStepsClosedForm(ss[1..], now);
      RunStepsClosedCons(ss, now);
    }
  }

  /** `RunSteps` in closed form: the first `FailedAt` stages closed, then the failing one open. */
  predicate RunStepsClosed(ss: seq<Stage>, now: int)
  {
    var k := FailedAt(ss);
    RunSteps(ss, now) == DoneSteps(ss[..k], now) + (if k < |ss| then [Opened(ss[k].step, now)] else [])
  }

  /** The closed form carries over from the stages after a completing first stage to all of them. */
  lemma RunStepsClosedCons(ss: seq<Stage>, now: int)
    requires ss != [] && FirstFailure(ss[0].attempts).None?
    requires RunStepsClosed(ss[1..], now)
    ensures RunStepsClosed(ss, now)
  {
    var t := ss[1..];
    var k' := FailedAt(t);
    var tail := if k' < |t| then [Opened(t[k'].step, now)] else [];
    var tail' := if k' + 1 < |ss| then [Opened(ss[k' + 1].step, now)] else [];
    assert FailedAt(ss) == k' + 1;
    assert tail == tail' by {
      if k' < |t| {
        assert t[k'] == ss[k' + 1];
      }
    }
    DoneStepsPrefixCons(ss, k', now);
    calc {
      RunSteps(ss, now);
      [Done(ss[0], now)] + RunSteps(t, now);
      [Done(ss[0], now)] + (DoneSteps(t[..k'], now) + tail);
      ([Done(ss[0], now)] + DoneSteps(t[..k'], now)) + tail;
      DoneSteps(ss[..k' + 1], now) + tail';
    }
  }

  /** The closed steps of a prefix of `k + 1` stages: the first stage's, then those of the next `k`. */
  lemma DoneStepsPrefixCons(ss: seq<Stage>, k: nat, now: int)
    requires k < |ss|
    ensures DoneSteps(ss[..k + 1], now) == [Done(ss[0], now)] + DoneSteps(ss[1..][..k], now)
  {
    assert ss[..k + 1][1..] == ss[1..][..k];
  }

  /** Closed form of the progress a run leaves: the last value among the completed stages. */
  lemma {:induction false} RunProgressClosedForm(p: int, ss: seq<Stage>)
    ensures RunProgress(p, ss) == LastProgress(p, ss[..FailedAt(ss)])
    decreases |ss|
  {
    if ss == [] || FirstFailure(ss[0].attempts).Some? {
      assert ss[..0] == [];
    } else {
      RunProgressClosedForm(if ss[0].progress.Some? then ss[0].progress.value else p, ss[1..]);
      var k' := FailedAt(ss[1..]);
      assert ss[..k' + 1][1..] == ss[1..][..k'];
    }
  }

  /** A run of stages replayed, in closed form. */
  lemma StagesClosedForm(st: DeploymentStatus, ss: seq<Stage>, now: int)
    requires IdsFresh(st.steps, ss)
    ensures var k := FailedAt(ss);
      var r := Replay(st, StageEvents(ss), now);
      && r.steps == st.steps + DoneSteps(ss[..k], now) + (if k < |ss| then [Opened(ss[k].step, now)] else [])
      && r.overallProgress == LastProgress(st.overallProgress, ss[..k])
      && r.success == (k == |ss| && st.success)
      && r.(steps := st.steps, overallProgress := st.overallProgress, success := st.success) == st
  {
    StagesReplay(st, ss, now);
    StageRun(st, ss, now);
    RunStepsClosedForm(ss, now);
    RunProgressClosedForm(st.overallProgress, ss);
  }

  // ---- Each step is closed before the next opens ----

  /** Every step from index `n` on is completed. */
  predicate ClosedFrom(steps: seq<Step>, n: nat)
  {
    forall j :: n <= j < |steps| ==> steps[j].status == Completed
  }

  /** Every step from index `n` on, except possibly the last, is completed. */
  predicate OnlyLastOpen(steps: seq<Step>, n: nat)
  {
    forall j :: n <= j < |steps| - 1 ==> steps[j].status == Completed
  }

  /** In every snapshot of a run of stages, at most the newest step is still open: no step is
      added before the previous one has been completed. */
  lemma {:induction false} StageTraceDiscipline(st: DeploymentStatus, ss: seq<Stage>, n: nat, now: int)
    requires IdsFresh(st.steps, ss) && n <= |st.steps| && ClosedFrom(st.steps, n)
    ensures Disciplined(st, StageEvents(ss), n, now)
    decreases |ss|
  {
    if ss == [] {
      assert Trace(st, [], now) == [st];
    } else {
      var s := ss[0];
      StageDisciplined(st, s, n, now);
      if FirstFailure(s.attempts).Some? {
        assert StageEvents(ss) == OneStage(s) + [];
        assert OneStage(s) + [] == OneStage(s);
      } else {
        OneStageEffect(st, s, now);
        var st3 := AfterStage(st, s, now);
        assert ClosedFrom(st3.steps, n);
        FreshAfterStage(st.steps, ss, Done(s, now));
        StageTraceDiscipline(st3, ss[1..], n, now);
        DisciplinedAppend(st, OneStage(s), StageEvents(ss[1..]), n, now);
      }
    }
  }

  /** In every snapshot of replaying `evs` from `st`, at most the newest step from index `n`
      on is still open. */
  predicate Disciplined(st: DeploymentStatus, evs: seq<Event>, n: nat, now: int)
  {
    forall t :: t in Trace(st, evs, now) ==> OnlyLastOpen(t.steps, n)
  }

  /** One stage keeps the discipline: its snapshots add at most one open step at the end. */
  lemma StageDisciplined(st: DeploymentStatus, s: Stage, n: nat, now: int)
    requires forall j :: 0 <= j < |st.steps| ==> st.steps[j].id != s.step.id
    requires n <= |st.steps| && ClosedFrom(st.steps, n)
    ensures Disciplined(st, OneStage(s), n, now)
  {
    OneStageSnapshots(st, s, now);
  }

  /** The discipline holds over two runs of events one after the other when it holds over each. */
  lemma DisciplinedAppend(st: DeploymentStatus, a: seq<Event>, b: seq<Event>, n: nat, now: int)
    requires Disciplined(st, a, n, now) && Disciplined(Replay(st, a, now), b, n, now)
    ensures Disciplined(st, a + b, n, now)
  {
    forall t | t in Trace(st, a + b, now)
      ensures OnlyLastOpen(t.steps, n)
    {
      InAppendedTrace(st, a, b, now, t);
    }
  }

  // ---- Progress only moves forward ----

  /** The value an event assigns to the overall progress, if any. */
  function Assigned(e: Event): Option<int>
  {
    match e
    case SetProgress(v) => Some(v)
    case Finish(_, _) => Some(FinalProgress)
    case _ => None
  }

  /** The values a list of events assigns to the overall progress, in order. */
  function Targets(evs: seq<Event>): seq<int>
    decreases |evs|
  {
    if evs == [] then []
    else (if Assigned(evs[0]).Some? then [Assigned(evs[0]).value] else []) + Targets(evs[1..])
  }

  /** `xs` never goes below `lo` and never decreases. */
  predicate SortedFrom(lo: int, xs: seq<int>)
    decreases |xs|
  {
    xs == [] || (lo <= xs[0] && SortedFrom(xs[0], xs[1..]))
  }

  lemma {:induction false} TargetsAppend(a: seq<Event>, b: seq<Event>)
    ensures Targets(a + b) == Targets(a) + Targets(b)
    decreases |a|
  {
    if a != [] {
      assert (a + b)[1..] == a[1..] + b;
      TargetsAppend(a[1..], b);
    } else {
      assert a + b == b;
    }
  }

  lemma {:induction false} InvokeTargets(evs: seq<Event>)
    requires forall i :: 0 <= i < |evs| ==> evs[i].Invoke?
    ensures Targets(evs) == []
    decreases |evs|
  {
    if evs != [] {
      InvokeTargets(evs[1..]);
    }
  }

  /** The progress values the stages assign, in order. */
  function Progressions(ss: seq<Stage>): seq<int>
    decreases |ss|
  {
    if ss == [] then [] else (if ss[0].progress.Some? then [ss[0].progress.value] else []) + Progressions(ss[1..])
  }

  lemma OneStageTargets(s: Stage)
    ensures FirstFailure(s.attempts).Some? ==> Targets(OneStage(s)) == []
    ensures FirstFailure(s.attempts).None? ==>
      Targets(OneStage(s)) == (if s.progress.Some? then [s.progress.value] else [])
  {
    InvokeTargets(Invokes(s.attempts));
    assert Targets([Begin(s.step)]) == [];
    TargetsAppend([Begin(s.step)], Invokes(s.attempts));
    TargetsAppend([Begin(s.step)] + Invokes(s.attempts), StageEnd(s));
    if FirstFailure(s.attempts).Some? {
      assert Targets(StageEnd(s)) == [];
    } else {
      assert Targets([Complete(s.step.id, s.details)]) == [];
      TargetsAppend([Complete(s.step.id, s.details)], ProgressEvent(s.progress));
      if s.progress.Some? {
        assert Targets(ProgressEvent(s.progress)) == [s.progress.value];
      }
    }
  }

  /** The progress values a run of stages assigns are those of the stages it completes. */
  lemma {:induction false} StageTargets(ss: seq<Stage>)
    ensures Targets(StageEvents(ss)) == Progressions(ss[..FailedAt(ss)])
    decreases |ss|
  {
    if ss == [] {
      assert ss[..0] == [];
    } else {
      var s := ss[0];
      if FirstFailure(s.attempts).Some? {
        OneStageTargets(s);
        assert StageEvents(ss) == OneStage(s) + [];
        assert OneStage(s) + [] == OneStage(s);
        assert ss[..0] == [];
      } else {
        var rest := ss[1..];
        assert ss == [s] + rest;
        StageTargets(rest);
        StageTargetsCons(s, rest, FailedAt(rest));
      }
    }
  }

  /** The progress values carry over from the stages after a completing first stage to all of
      them: `k` stages of `rest` complete before the run stops. */
  lemma StageTargetsCons(s: Stage, rest: seq<Stage>, k: nat)
    requires FirstFailure(s.attempts).None? && k <= |rest|
    requires Targets(StageEvents(rest)) == Progressions(rest[..k])
    ensures Targets(StageEvents([s] + rest)) == Progressions(([s] + rest)[..k + 1])
  {
    var ss := [s] + rest;
    assert ss[0] == s && ss[1..] == rest;
    assert StageEvents(ss) == OneStage(s) + StageEvents(rest);
    PrefixOfCons(s, rest, k);
    CompletedStageTargets(s);
    TargetsAppend(OneStage(s), StageEvents(rest));
    ProgressionsAppend([s], rest[..k]);
  }

  /** Taking `k + 1` stages after putting `s` in front takes `s` and then `k` of the rest. */
  lemma PrefixOfCons(s: Stage, rest: seq<Stage>, k: nat)
    requires k <= |rest|
    ensures ([s] + rest)[..k + 1] == [s] + rest[..k]
  {
    var a := ([s] + rest)[..k + 1];
    var b := [s] + rest[..k];
    assert |a| == |b|;
    forall i | 0 <= i < |a|
      ensures a[i] == b[i]
    {
      if i > 0 {
        assert a[i] == rest[i - 1] && b[i] == rest[..k][i - 1];
      }
    }
  }

  /** The progress values of two runs of stages one after the other. */
  lemma {:induction false} ProgressionsAppend(a: seq<Stage>, b: seq<Stage>)
    ensures Progressions(a + b) == Progressions(a) + Progressions(b)
    decreases |a|
  {
    if a == [] {
      assert a + b == b;
    } else {
      assert (a + b)[1..] == a[1..] + b;
      ProgressionsAppend(a[1..], b);
    }
  }

  /** A completing stage assigns exactly its own progress value, if it has one. */
  lemma CompletedStageTargets(s: Stage)
    requires FirstFailure(s.attempts).None?
    ensures Targets(OneStage(s)) == Progressions([s])
  {
    OneStageTargets(s);
    assert [s][1..] == [];
  }

  lemma {:induction false} ProgressionsPrefix(ss: seq<Stage>, k: nat)
    requires k <= |ss|
    ensures Progressions(ss[..k]) <= Progressions(ss)
    decreases k
  {
    if k > 0 {
      assert ss[..k][1..] == ss[1..][..k - 1];
      ProgressionsPrefix(ss[1..], k - 1);
    }
  }

  lemma {:induction false} SortedPrefix(lo: int, xs: seq<int>, ys: seq<int>)
    requires SortedFrom(lo, xs) && ys <= xs
    ensures SortedFrom(lo, ys)
    decreases |xs|
  {
    if ys != [] {
      assert ys[1..] <= xs[1..];
      SortedPrefix(xs[0], xs[1..], ys[1..]);
    }
  }

  /** Only `SetProgress` and `Finish` change the overall progress, to the value they assign. */
  lemma ApplyProgress(st: DeploymentStatus, e: Event, now: int)
    ensures Apply(st, e, now).overallProgress
      == if Assigned(e).Some? then Assigned(e).value else st.overallProgress
  {
  }

  lemma SortedCons(lo: int, xs: seq<int>)
    requires SortedFrom(lo, xs) && xs != []
    ensures lo <= xs[0] && SortedFrom(xs[0], xs[1..])
  {
  }

  /** After the first event the remaining assignments are still sorted from the new progress,
      which is no lower than before. */
  lemma FirstEventProgress(st: DeploymentStatus, evs: seq<Event>, now: int)
    requires evs != [] && SortedFrom(st.overallProgress, Targets(evs))
    ensures st.overallProgress <= Apply(st, evs[0], now).overallProgress
    ensures SortedFrom(Apply(st, evs[0], now).overallProgress, Targets(evs[1..]))
  {
    ApplyProgress(st, evs[0], now);
    if Assigned(evs[0]).Some? {
      var xs := Targets(evs);
      assert xs == [Assigned(evs[0]).value] + Targets(evs[1..]);
      SortedCons(st.overallProgress, xs);
      assert xs[0] == Assigned(evs[0]).value;
      assert xs[1..] == Targets(evs[1..]);
    } else {
      assert Targets(evs) == [] + Targets(evs[1..]);
      assert [] + Targets(evs[1..]) == Targets(evs[1..]);
    }
  }

  /** No snapshot shows lower overall progress than an earlier one. */
  predicate ProgressMonotone(t: seq<DeploymentStatus>)
  {
    forall i, j :: 0 <= i <= j < |t| ==> t[i].overallProgress <= t[j].overallProgress
  }

  lemma MonotoneCons(x: DeploymentStatus, rest: seq<DeploymentStatus>)
    requires rest != [] && ProgressMonotone(rest) && x.overallProgress <= rest[0].overallProgress
    ensures ProgressMonotone([x] + rest)
  {
    var t := [x] + rest;
    forall i, j | 0 <= i <= j < |t|
      ensures t[i].overallProgress <= t[j].overallProgress
    {
      if i > 0 {
        assert t[i] == rest[i - 1] && t[j] == rest[j - 1];
      } else if j > 0 {
        assert t[j] == rest[j - 1];
      }
    }
  }

  /** If the assigned values never go below the starting progress and never decrease, no
      snapshot in the trace shows lower progress than an earlier one. */
  lemma {:induction false} TraceMonotone(st: DeploymentStatus, evs: seq<Event>, now: int)
    requires SortedFrom(st.overallProgress, Targets(evs))
    ensures ProgressMonotone(Trace(st, evs, now))
    decreases |evs|
  {
    if evs != [] {
      var st1 := Apply(st, evs[0], now);
      FirstEventProgress(st, evs, now);
      TraceMonotone(st1, evs[1..], now);
      MonotoneCons(st, Trace(st1, evs[1..], now));
    }
  }

  // ---- A whole run ----

  /** The events of a run: a failed setup aborts at once; otherwise the stages, then the
      epilogue if every stage completed. */
  function RunEvents(init: Outcome<string>, ss: seq<Stage>, epilogue: seq<Event>): seq<Event>
  {
    if init.Fail? then [Abort(init.error)]
    else StageEvents(ss) + (if FailedAt(ss) < |ss| then [] else epilogue)
  }

  /** Events that touch no step. */
  predicate NoStepEvents(evs: seq<Event>)
  {
    forall i :: 0 <= i < |evs| ==> evs[i].Finish? || evs[i].Abort?
  }

  lemma {:induction false} NoStepEventsKeepSteps(st: DeploymentStatus, evs: seq<Event>, now: int)
    requires NoStepEvents(evs)
    ensures forall t :: t in Trace(st, evs, now) ==> t.steps == st.steps
    decreases |evs|
  {
    if evs != [] {
      NoStepEventsKeepSteps(Apply(st, evs[0], now), evs[1..], now);
    }
  }

  /** In every snapshot of a run, every step the run added except the newest is completed. */
  lemma RunDiscipline(st: DeploymentStatus, init: Outcome<string>, ss: seq<Stage>, epilogue: seq<Event>, now: int)
    requires IdsFresh(st.steps, ss) && NoStepEvents(epilogue)
    ensures forall t :: t in Trace(st, RunEvents(init, ss, epilogue), now) ==> OnlyLastOpen(t.steps, |st.steps|)
  {
    var n := |st.steps|;
    if init.Fail? {
      SingleEvent(st, Abort(init.error), now);
    } else {
      StageTraceDiscipline(st, ss, n, now);
      var post := if FailedAt(ss) < |ss| then [] else epilogue;
      var mid := Replay(st, StageEvents(ss), now);
      NoStepEventsKeepSteps(mid, post, now);
      TraceEndsInReplay(st, StageEvents(ss), now);
      assert mid in Trace(st, StageEvents(ss), now);
      forall t | t in Trace(st, RunEvents(init, ss, epilogue), now) ensures OnlyLastOpen(t.steps, n) {
        InAppendedTrace(st, StageEvents(ss), post, now, t);
      }
    }
  }

  /** The progress values a run assigns: those of the completed stages, then the epilogue's. */
  lemma RunTargets(init: Outcome<string>, ss: seq<Stage>, epilogue: seq<Event>)
    requires init.Pass?
    ensures var k := FailedAt(ss);
      Targets(RunEvents(init, ss, epilogue)) == Progressions(ss[..k]) + (if k < |ss| then [] else Targets(epilogue))
  {
    StageTargets(ss);
    TargetsAppend(StageEvents(ss), if FailedAt(ss) < |ss| then [] else epilogue);
  }

  /** Whatever happens, a run assigns a prefix of the stages' values followed by the epilogue's. */
  lemma RunTargetsPrefix(init: Outcome<string>, ss: seq<Stage>, epilogue: seq<Event>)
    ensures Targets(RunEvents(init, ss, epilogue)) <= Progressions(ss) + Targets(epilogue)
  {
    if init.Fail? {
      assert Targets([Abort(init.error)]) == [] by { assert [Abort(init.error)][1..] == []; }
    } else {
      var k := FailedAt(ss);
      RunTargets(init, ss, epilogue);
      ProgressionsPrefix(ss, k);
      if k == |ss| {
        assert ss[..k] == ss;
      }
    }
  }

  /** Progress never falls between a run's snapshots when the values it may assign are sorted
      from the starting progress. */
  lemma RunMonotone(st: DeploymentStatus, init: Outcome<string>, ss: seq<Stage>, epilogue: seq<Event>, now: int)
    requires SortedFrom(st.overallProgress, Progressions(ss) + Targets(epilogue))
    ensures ProgressMonotone(Trace(st, RunEvents(init, ss, epilogue), now))
  {
    RunTargetsPrefix(init, ss, epilogue);
    SortedPrefix(st.overallProgress, Progressions(ss) + Targets(epilogue), Targets(RunEvents(init, ss, epilogue)));
    TraceMonotone(st, RunEvents(init, ss, epilogue), now);
  }

  /** With the last stage assigning nothing, the progress left by a full run is the value
      assigned by the stage before it. */
  lemma LastProgressBeforeLast(p: int, ss: seq<Stage>)
    requires |ss| >= 2 && ss[|ss| - 1].progress.None? && ss[|ss| - 2].progress.Some?
    ensures LastProgress(p, ss) == ss[|ss| - 2].progress.value
  {
    var n := |ss| - 1;
    LastProgressSplit(p, ss, n);
    LastProgressOfLast(p, ss[..n]);
    assert ss[n..][1..] == [];
  }

  /** Running `ss` is running its first `k` stages, then the rest. */
  lemma {:induction false} LastProgressSplit(p: int, ss: seq<Stage>, k: nat)
    requires k <= |ss|
    ensures LastProgress(p, ss) == LastProgress(LastProgress(p, ss[..k]), ss[k..])
    decreases k
  {
    if k > 0 {
      assert ss[..k][1..] == ss[1..][..k - 1];
      assert ss[1..][k - 1..] == ss[k..];
      LastProgressSplit(if ss[0].progress.Some? then ss[0].progress.value else p, ss[1..], k - 1);
    } else {
      assert ss[..0] == [] && ss[0..] == ss;
    }
  }

  /** A run of stages that all complete, the last one assigning no progress: every step is
      closed and the progress is the one the stage before the last assigned. */
  lemma CompletedStages(st: DeploymentStatus, ss: seq<Stage>, now: int)
    requires IdsFresh(st.steps, ss) && FailedAt(ss) == |ss|
    requires |ss| >= 2 && ss[|ss| - 1].progress.None? && ss[|ss| - 2].progress.Some?
    ensures Replay(st, StageEvents(ss), now)
      == st.(steps := st.steps + DoneSteps(ss, now), overallProgress := ss[|ss| - 2].progress.value)
  {
    StagesClosedForm(st, ss, now);
    assert ss[..|ss|] == ss;
    LastProgressBeforeLast(st.overallProgress, ss);
  }

  /** A run of stages stopped by a failing stage: success is cleared, the failing step is left
      open after the closed ones, and the progress is the last one a completed stage assigned. */
  lemma StoppedStages(st: DeploymentStatus, ss: seq<Stage>, now: int)
    requires IdsFresh(st.steps, ss) && FailedAt(ss) < |ss|
    requires forall i :: 0 <= i < FailedAt(ss) ==> ss[i].progress.Some?
    ensures var k := FailedAt(ss);
      var r := Replay(st, StageEvents(ss), now);
      && !r.success
      && r.steps == st.steps + DoneSteps(ss[..k], now) + [Opened(ss[k].step, now)]
      && r.overallProgress == (if k == 0 then st.overallProgress else ss[k - 1].progress.value)
      && r.(steps := st.steps, overallProgress := st.overallProgress, success := st.success) == st
  {
    StagesClosedForm(st, ss, now);
    var k := FailedAt(ss);
    if k == 0 {
      assert ss[..0] == [];
    } else {
      LastProgressOfLast(st.overallProgress, ss[..k]);
    }
  }

  // ---- The six stages of `execute_deployment` ----

  const SecretStepName := "Storing OpenAI API key in Secret Manager"
  const PostgresStepName := "Creating Cloud SQL PostgreSQL instance (this takes 3-5 minutes)"
  const AuraStepName := "Configuring Neo4j Aura connection (managed service)"
  const Neo4jStepName := "Deploying Neo4j graph database to Cloud Run"
  const MemMachineStepName := "Deploying MemMachine API with your configuration"
  const HealthStepName := "Running health checks on MemMachine API"
  const FinalizeStepName := "Deployment complete! Your MemMachine is ready"

  function SecretStage(w: Wiring, prov: Provisioner): Stage
  {
    Stage(NewStep("secret-openai", Discovery, SecretStepName, 2),
          [Attempt(StoreSecret(w.openaiSecret), prov.openaiSecret)],
          None, Some(5))
  }

  function PostgresStage(id: string, w: Wiring, prov: Provisioner): Stage
  {
    Stage(NewStep("postgres-create", Architecture,
                  PostgresStepName, 10),
          [Attempt(StoreSecret(w.postgresSecret), prov.postgresSecret),
           Attempt(DeployCloudSql(id), OutcomeOf(prov.cloudSql))],
          Some(map["postgres_ip" := w.sql.ip, "connection" := w.sql.connection]), Some(35))
  }

  function Neo4jStage(id: string, req: DeploymentRequest, w: Wiring, prov: Provisioner): Stage
  {
    if UsesAura(req) then
      Stage(NewStep("neo4j-setup", MvpCore, AuraStepName, 40),
            [Attempt(StoreSecret(w.neo4jSecret), prov.neo4jSecret)],
            Some(map["neo4j_url" := w.neo4jUrl, "neo4j_bolt" := w.neo4jBolt, "neo4j_type" := "aura"]),
            Some(55))
    else
      Stage(NewStep("neo4j-deploy", MvpCore, Neo4jStepName, 40),
            [Attempt(StoreSecret(w.neo4jSecret), prov.neo4jSecret),
             Attempt(DeployNeo4j(id), OutcomeOf(prov.neo4jService))],
            Some(map["neo4j_url" := w.neo4jUrl, "neo4j_bolt" := w.neo4jBolt, "neo4j_type" := "cloud_run"]),
            Some(55))
  }

  function MemMachineStage(id: string, req: DeploymentRequest, w: Wiring, prov: Provisioner): Stage
  {
    Stage(NewStep("memmachine-deploy", MvpCore, MemMachineStepName, 60),
          [Attempt(DeployMemMachine(MemMachineArgs(id, w.sql.ip, w.postgresSecret, w.neo4jBolt,
                                                   w.neo4jSecret, w.openaiSecret, req.userId,
                                                   w.connectionUrl)),
                   OutcomeOf(prov.memmachine))],
          Some(map["memmachine_url" := w.memmachineUrl]), Some(85))
  }

  function HealthStage(w: Wiring, prov: Provisioner): Stage
  {
    Stage(NewStep("health-check", Beta, HealthStepName, 90),
          [Attempt(ValidateDeployment(w.memmachineUrl), prov.health)],
          None, Some(95))
  }

  function FinalizeStage(): Stage
  {
    Stage(NewStep("finalize", Production, FinalizeStepName, 98), [], None, None)
  }

  function Stages(id: string, req: DeploymentRequest, prov: Provisioner): seq<Stage>
  {
    var w := Wire(id, req, prov);
    [SecretStage(w, prov), PostgresStage(id, w, prov), Neo4jStage(id, req, w, prov),
     MemMachineStage(id, req, w, prov), HealthStage(w, prov), FinalizeStage()]
  }

  const ProgressAfterStage: seq<int> := [5, 35, 55, 85, 95]

  /** Six steps in the order DISCOVERY, ARCHITECTURE, MVP_CORE, MVP_CORE, BETA, PRODUCTION;
      progress 5, 35, 55, 85, 95 is assigned after the first five and none after the last,
      which makes no call. */
  lemma StagesShape(id: string, req: DeploymentRequest, prov: Provisioner)
    ensures var ss := Stages(id, req, prov);
      && |ss| == 6
      && ss[0].step.id == "secret-openai" && ss[1].step.id == "postgres-create"
      && ss[2].step.id == (if UsesAura(req) then "neo4j-setup" else "neo4j-deploy")
      && ss[3].step.id == "memmachine-deploy" && ss[4].step.id == "health-check"
      && ss[5].step.id == "finalize"
      && ss[0].step.phase == Discovery && ss[1].step.phase == Architecture
      && ss[2].step.phase == MvpCore && ss[3].step.phase == MvpCore
      && ss[4].step.phase == Beta && ss[5].step.phase == Production
      && (forall i :: 0 <= i < 5 ==> ss[i].progress == Some(ProgressAfterStage[i]))
      && ss[5].progress.None? && ss[5].attempts == []
      && (forall i :: 0 <= i < 6 ==> ss[i].step.status == InProgress)
  {
    StagesSteps(id, req, prov);
    StagesProgress(id, req, prov);
  }

  /** The id, phase and status each of the six stages opens its step with. */
  lemma StagesSteps(id: string, req: DeploymentRequest, prov: Provisioner)
    ensures var ss := Stages(id, req, prov);
      && |ss| == 6
      && ss[0].step.id == "secret-openai" && ss[1].step.id == "postgres-create"
      && ss[2].step.id == (if UsesAura(req) then "neo4j-setup" else "neo4j-deploy")
      && ss[3].step.id == "memmachine-deploy" && ss[4].step.id == "health-check"
      && ss[5].step.id == "finalize"
      && ss[0].step.phase == Discovery && ss[1].step.phase == Architecture
      && ss[2].step.phase == MvpCore && ss[3].step.phase == MvpCore
      && ss[4].step.phase == Beta && ss[5].step.phase == Production
      && (forall i :: 0 <= i < 6 ==> ss[i].step.status == InProgress)
  {
  }

  /** The progress assigned after each of the six stages, and the call-free last stage. */
  lemma StagesProgress(id: string, req: DeploymentRequest, prov: Provisioner)
    ensures var ss := Stages(id, req, prov);
      && |ss| == 6
      && (forall i :: 0 <= i < 5 ==> ss[i].progress == Some(ProgressAfterStage[i]))
      && ss[5].progress.None? && ss[5].attempts == []
  {
  }

  /** The six step ids are distinct, so a fresh status holds none of them. */
  lemma StagesFresh(id: string, req: DeploymentRequest, prov: Provisioner)
    ensures IdsFresh([], Stages(id, req, prov))
  {
    var ss := Stages(id, req, prov);
    StagesShape(id, req, prov);
    assert |ss[0].step.id| == 13 && |ss[1].step.id| == 15 && |ss[3].step.id| == 17 && |ss[5].step.id| == 8;
    assert |ss[2].step.id| in {11, 12} && |ss[4].step.id| == 12;
    assert ss[2].step.id[0] == 'n' && ss[4].step.id[0] == 'h';
  }

  /** Phases never go back: a later step's phase ranks no lower than an earlier one's. */
  lemma PhasesInOrder(id: string, req: DeploymentRequest, prov: Provisioner)
    ensures var ss := Stages(id, req, prov);
      forall i, j :: 0 <= i <= j < |ss| ==> Rank(ss[i].step.phase) <= Rank(ss[j].step.phase)
  {
    StagesShape(id, req, prov);
  }

  /** Every provisioner call succeeds. */
  predicate ProvisioningSucceeds(req: DeploymentRequest, prov: Provisioner)
  {
    && prov.init.Pass? && prov.openaiSecret.Pass? && prov.postgresSecret.Pass?
    && prov.cloudSql.Ok? && prov.neo4jSecret.Pass?
    && (UsesAura(req) || prov.neo4jService.Ok?)
    && prov.memmachine.Ok? && prov.health.Pass?
  }

  /** The stages all run to completion exactly when every provisioner call succeeds. */
  lemma StagesSucceedIff(id: string, req: DeploymentRequest, prov: Provisioner)
    requires prov.init.Pass?
    ensures FailedAt(Stages(id, req, prov)) == 6 <==> ProvisioningSucceeds(req, prov)
  {
    var ss := Stages(id, req, prov);
    StagesShape(id, req, prov);
    if ProvisioningSucceeds(req, prov) {
      forall i | 0 <= i < 6 ensures FirstFailure(ss[i].attempts).None? {
        assert forall a :: 0 <= a < |ss[i].attempts| ==> ss[i].attempts[a].outcome.Pass?;
      }
    } else if prov.openaiSecret.Fail? {
      assert ss[0].attempts[0].outcome.Fail?;
    } else if prov.postgresSecret.Fail? {
      assert ss[1].attempts[0].outcome.Fail?;
    } else if prov.cloudSql.Err? {
      assert ss[1].attempts[1].outcome.Fail?;
    } else if prov.neo4jSecret.Fail? {
      assert ss[2].attempts[0].outcome.Fail?;
    } else if !UsesAura(req) && prov.neo4jService.Err? {
      assert ss[2].attempts[1].outcome.Fail?;
    } else if prov.memmachine.Err? {
      assert ss[3].attempts[0].outcome.Fail?;
    } else {
      assert ss[4].attempts[0].outcome.Fail?;
    }
  }

  /** Endpoints published on success. */
  function Endpoints(id: string, w: Wiring): map<string, string>
  {
    map["memmachine_api" := w.memmachineUrl,
        "postgres" := w.sql.ip + ":5432",
        "neo4j" := w.neo4jUrl,
        "playground" := "/playground/" + id]
  }

  const Confidence := "■■■■■"

  function DeployedDecision(id: string, now: int): Decision
  {
    Decision("Deployed instance " + id + " to GCP", now, Confidence)
  }

  /** What follows the six stages when all succeed: the success assignments, then the
      catch-all handler if saving the instance row fails. */
  function Epilogue(id: string, req: DeploymentRequest, prov: Provisioner, now: int): (evs: seq<Event>)
    ensures NoStepEvents(evs)
  {
    [Finish(Endpoints(id, Wire(id, req, prov)), DeployedDecision(id, now))]
      + (if prov.persist.Fail? then [Abort(prov.persist.error)] else [])
  }

  /** The events of `execute_deployment`. */
  function Plan(id: string, req: DeploymentRequest, prov: Provisioner, now: int): seq<Event>
  {
    RunEvents(prov.init, Stages(id, req, prov), Epilogue(id, req, prov, now))
  }

  /** The status after `execute_deployment` has returned. */
  function ExecuteDeployment(st: DeploymentStatus, id: string, req: DeploymentRequest,
                             prov: Provisioner, now: int): DeploymentStatus
  {
    Replay(st, Plan(id, req, prov, now), now)
  }

  /** The status once all six stages have run, before the epilogue. */
  lemma AllStagesRun(st: DeploymentStatus, id: string, req: DeploymentRequest, prov: Provisioner, now: int)
    requires ProvisioningSucceeds(req, prov)
    requires IdsFresh(st.steps, Stages(id, req, prov))
    ensures var ss := Stages(id, req, prov);
      Replay(st, StageEvents(ss), now) == st.(steps := st.steps + DoneSteps(ss, now), overallProgress := 95)
  {
    var ss := Stages(id, req, prov);
    StagesShape(id, req, prov);
    StagesSucceedIff(id, req, prov);
    CompletedStages(st, ss, now);
  }

  /** On full success: progress 100, quality 95, success set, the four endpoints, exactly one
      decision appended, six new steps all completed in the fixed phase order, and the phase
      table and current phase untouched. */
  lemma SuccessfulRun(st: DeploymentStatus, id: string, req: DeploymentRequest, prov: Provisioner, now: int)
    requires ProvisioningSucceeds(req, prov) && prov.persist.Pass?
    requires IdsFresh(st.steps, Stages(id, req, prov))
    ensures var r := ExecuteDeployment(st, id, req, prov, now);
      var w := Wire(id, req, prov);
      && r.success && r.overallProgress == 100 && r.qualityScore == 95
      && r.endpoints == Some(map["memmachine_api" := prov.memmachine.value,
                                 "postgres" := prov.cloudSql.value.ip + ":5432",
                                 "neo4j" := w.neo4jUrl,
                                 "playground" := "/playground/" + id])
      && r.decisions == st.decisions + [Decision("Deployed instance " + id + " to GCP", now, Confidence)]
      && |r.steps| == |st.steps| + 6
      && r.steps[..|st.steps|] == st.steps
      && (forall j :: |st.steps| <= j < |r.steps| ==>
            r.steps[j].status == Completed && r.steps[j].startedAt == Some(now)
            && r.steps[j].completedAt == Some(now))
      && r.steps[|st.steps|].phase == Discovery && r.steps[|st.steps| + 1].phase == Architecture
      && r.steps[|st.steps| + 2].phase == MvpCore && r.steps[|st.steps| + 3].phase == MvpCore
      && r.steps[|st.steps| + 4].phase == Beta && r.steps[|st.steps| + 5].phase == Production
      && r.phases == st.phases && r.currentPhase == st.currentPhase
      && r.technicalDebt == st.technicalDebt && r.deploymentId == st.deploymentId
  {
    SucceededState(st, id, req, prov, now);
    StagesSteps(id, req, prov);
    DoneStepsAppended(st.steps, Stages(id, req, prov), now);
  }

  /** Closed steps appended after `base` keep `base` in front, each read completed at `now`
      in the phase of its stage. */
  lemma DoneStepsAppended(base: seq<Step>, ss: seq<Stage>, now: int)
    ensures var steps := base + DoneSteps(ss, now);
      && |steps| == |base| + |ss| && steps[..|base|] == base
      && (forall j :: |base| <= j < |steps| ==>
            steps[j].status == Completed && steps[j].startedAt == Some(now)
            && steps[j].completedAt == Some(now) && steps[j].phase == ss[j - |base|].step.phase)
  {
    var steps := base + DoneSteps(ss, now);
    assert steps[..|base|] == base;
    forall j | |base| <= j < |steps|
      ensures steps[j] == Done(ss[j - |base|], now)
    {
    }
  }

  /** After a fully successful run the status is the starting one with the six closed steps
      appended and the success assignments made. */
  lemma SucceededState(st: DeploymentStatus, id: string, req: DeploymentRequest, prov: Provisioner, now: int)
    requires ProvisioningSucceeds(req, prov) && prov.persist.Pass?
    requires IdsFresh(st.steps, Stages(id, req, prov))
    ensures ExecuteDeployment(st, id, req, prov, now)
      == st.(steps := st.steps + DoneSteps(Stages(id, req, prov), now),
             endpoints := Some(Endpoints(id, Wire(id, req, prov))), success := true,
             overallProgress := 100, qualityScore := 95,
             decisions := st.decisions + [DeployedDecision(id, now)])
  {
    var ss := Stages(id, req, prov);
    StagesSucceedIff(id, req, prov);
    AllStagesRun(st, id, req, prov, now);
    var mid := Replay(st, StageEvents(ss), now);
    var fin := Finish(Endpoints(id, Wire(id, req, prov)), DeployedDecision(id, now));
    assert Epilogue(id, req, prov, now) == [fin];
    ReplayAppend(st, StageEvents(ss), [fin], now);
    SingleEvent(mid, fin, now);
  }

  /** A failing call is in one of the first five stages; the last stage makes no call. */
  lemma FailureBeforeFinalize(id: string, req: DeploymentRequest, prov: Provisioner)
    requires prov.init.Pass? && !ProvisioningSucceeds(req, prov)
    ensures FailedAt(Stages(id, req, prov)) < 5
  {
    StagesShape(id, req, prov);
    StagesSucceedIff(id, req, prov);
  }

  /** When a provisioner call fails, the run stops there: success is cleared, the steps before
      it stay completed, the failing step stays in progress, progress keeps its last assigned
      value, and no endpoint or decision is recorded. */
  lemma FailedRun(st: DeploymentStatus, id: string, req: DeploymentRequest, prov: Provisioner, now: int)
    requires prov.init.Pass? && !ProvisioningSucceeds(req, prov)
    requires IdsFresh(st.steps, Stages(id, req, prov))
    ensures var r := ExecuteDeployment(st, id, req, prov, now);
      var ss := Stages(id, req, prov);
      var k := FailedAt(ss);
      && k < 5
      && !r.success
      && r.endpoints == st.endpoints && r.decisions == st.decisions && r.qualityScore == st.qualityScore
      && r.steps == st.steps + DoneSteps(ss[..k], now) + [Opened(ss[k].step, now)]
      && r.steps[|r.steps| - 1].status == InProgress
      && r.overallProgress == (if k == 0 then st.overallProgress else ProgressAfterStage[k - 1])
      && r.phases == st.phases && r.currentPhase == st.currentPhase
  {
    var ss := Stages(id, req, prov);
    FailureBeforeFinalize(id, req, prov);
    StoppedPlan(st, id, req, prov, now);
    StagesProgress(id, req, prov);
    StoppedStages(st, ss, now);
  }

  /** A run stopped by a failing stage replays only the stage events: the epilogue never runs. */
  lemma StoppedPlan(st: DeploymentStatus, id: string, req: DeploymentRequest, prov: Provisioner, now: int)
    requires prov.init.Pass? && FailedAt(Stages(id, req, prov)) < |Stages(id, req, prov)|
    ensures ExecuteDeployment(st, id, req, prov, now) == Replay(st, StageEvents(Stages(id, req, prov)), now)
  {
    var ss := Stages(id, req, prov);
    assert Plan(id, req, prov, now) == StageEvents(ss) + [];
    assert StageEvents(ss) + [] == StageEvents(ss);
  }

  /** Saving the deployed row can still fail after the success assignments: the handler then
      clears `success` but leaves the endpoints, the 100% progress and the decision in place. */
  lemma PersistFailureAfterSuccess(st: DeploymentStatus, id: string, req: DeploymentRequest,
                                   prov: Provisioner, now: int)
    requires ProvisioningSucceeds(req, prov) && prov.persist.Fail?
    requires IdsFresh(st.steps, Stages(id, req, prov))
    ensures var r := ExecuteDeployment(st, id, req, prov, now);
      && !r.success && r.endpoints.Some? && r.overallProgress == 100
      && r.decisions == st.decisions + [DeployedDecision(id, now)]
  {
    var ss := Stages(id, req, prov);
    StagesSucceedIff(id, req, prov);
    AllStagesRun(st, id, req, prov, now);
    var mid := Replay(st, StageEvents(ss), now);
    var fin := Finish(Endpoints(id, Wire(id, req, prov)), DeployedDecision(id, now));
    var ab := Abort(prov.persist.error);
    assert Epilogue(id, req, prov, now) == [fin] + [ab];
    ReplayAppend(st, StageEvents(ss), [fin] + [ab], now);
    ReplayAppend(mid, [fin], [ab], now);
    SingleEvent(mid, fin, now);
    SingleEvent(Apply(mid, fin, now), ab, now);
  }

  /** A deployer that cannot construct itself fails before any step is recorded. */
  lemma InitFailure(st: DeploymentStatus, id: string, req: DeploymentRequest, prov: Provisioner, now: int)
    requires prov.init.Fail?
    ensures ExecuteDeployment(st, id, req, prov, now) == st.(success := false)
  {
    SingleEvent(st, Abort(prov.init.error), now);
  }

  /** When the first secret call fails, a fresh deployment ends with one open step and
      progress 0. With the deployer as written this is every run that gets past the
      constructor: it defines no `_store_secret`, so that first call always raises. */
  lemma StoreSecretMissing(id: string, req: DeploymentRequest, prov: Provisioner, now: int)
    requires prov.init.Pass? && prov.openaiSecret.Fail?
    ensures var r := ExecuteDeployment(NewStatus(id), id, req, prov, now);
      && !r.success && r.overallProgress == 0 && |r.steps| == 1
      && r.steps[0].id == "secret-openai" && r.steps[0].status == InProgress
  {
    StagesShape(id, req, prov);
    StagesFresh(id, req, prov);
    var ss := Stages(id, req, prov);
    assert FirstFailure(ss[0].attempts).Some?;
    FailedRun(NewStatus(id), id, req, prov, now);
    assert ss[..0] == [];
  }

  /** The progress values the six stages assign. */
  lemma StagesProgressions(id: string, req: DeploymentRequest, prov: Provisioner)
    ensures Progressions(Stages(id, req, prov)) == ProgressAfterStage
  {
    var ss := Stages(id, req, prov);
    StagesShape(id, req, prov);
    assert Progressions(ss[5..]) == [] by { assert ss[5..][1..] == []; }
    assert Progressions(ss[4..]) == [95] by { assert ss[4..][1..] == ss[5..]; }
    assert Progressions(ss[3..]) == [85, 95] by { assert ss[3..][1..] == ss[4..]; }
    assert Progressions(ss[2..]) == [55, 85, 95] by { assert ss[2..][1..] == ss[3..]; }
    assert Progressions(ss[1..]) == [35, 55, 85, 95] by { assert ss[1..][1..] == ss[2..]; }
  }

  /** No snapshot observed during a run that starts at progress 5 or less shows lower overall
      progress than an earlier one. */
  lemma ProgressNeverDecreases(st: DeploymentStatus, id: string, req: DeploymentRequest,
                               prov: Provisioner, now: int)
    requires st.overallProgress <= 5
    ensures ProgressMonotone(Trace(st, Plan(id, req, prov, now), now))
  {
    var ss := Stages(id, req, prov);
    var epi := Epilogue(id, req, prov, now);
    var full := [5, 35, 55, 85, 95, 100];
    StagesProgressions(id, req, prov);
    EpilogueTargets(id, req, prov, now);
    assert Progressions(ss) + Targets(epi) == full;
    ProgressValuesSorted(st.overallProgress);
    RunMonotone(st, prov.init, ss, epi, now);
  }

  /** The values 5, 35, 55, 85, 95, 100 climb from any start no higher than the first. */
  lemma ProgressValuesSorted(lo: int)
    requires lo <= 5
    ensures SortedFrom(lo, [5, 35, 55, 85, 95, 100])
  {
    var full := [5, 35, 55, 85, 95, 100];
    assert full[1..] == [35, 55, 85, 95, 100];
    assert full[1..][1..] == [55, 85, 95, 100];
    assert full[1..][1..][1..] == [85, 95, 100];
    assert full[1..][1..][1..][1..] == [95, 100];
    assert full[1..][1..][1..][1..][1..] == [100];
  }

  lemma EpilogueTargets(id: string, req: DeploymentRequest, prov: Provisioner, now: int)
    ensures Targets(Epilogue(id, req, prov, now)) == [FinalProgress]
  {
    var fin := Finish(Endpoints(id, Wire(id, req, prov)), DeployedDecision(id, now));
    var ab: seq<Event> := if prov.persist.Fail? then [Abort(prov.persist.error)] else [];
    TargetsAppend([fin], ab);
    assert Targets([fin]) == [FinalProgress];
    if prov.persist.Fail? {
      assert Targets(ab) == [] by { assert ab[1..] == []; }
    }
  }

  /** In every snapshot observed during a run, every step the run added except the newest is
      completed: no step is added before the previous one has been closed. */
  lemma StepsClosedInOrder(st: DeploymentStatus, id: string, req: DeploymentRequest,
                           prov: Provisioner, now: int)
    requires IdsFresh(st.steps, Stages(id, req, prov))
    ensures forall t :: t in Trace(st, Plan(id, req, prov, now), now) ==> OnlyLastOpen(t.steps, |st.steps|)
  {
    RunDiscipline(st, prov.init, Stages(id, req, prov), Epilogue(id, req, prov, now), now);
  }

  // ---- The instance row ----

  /** The error the catch-all handler records, or `None` when the run succeeded. */
  function RunError(id: string, req: DeploymentRequest, prov: Provisioner): (e: Option<string>)
    ensures prov.init.Pass? ==> (e.None? <==> ProvisioningSucceeds(req, prov) && prov.persist.Pass?)
  {
    if prov.init.Fail? then Some(prov.init.error)
    else
      var ss := Stages(id, req, prov);
      var k := FailedAt(ss);
      StagesSucceedIff(id, req, prov);
      if k < |ss| then Some(FirstFailure(ss[k].attempts).value)
      else if prov.persist.Fail? then Some(prov.persist.error)
      else None
  }

  /** The deployed row: RUNNING and healthy, with every resource name and address recorded.
      The commit refreshes `updated_at` (its `onupdate`); every other column is kept. */
  function MarkRunning(inst: Instance, id: string, w: Wiring, now: int): (r: Instance)
    ensures IsHealthy(r) && !IsDeployable(r)
    ensures r.cloudRunServiceName == Some(Deployer.MemMachineServiceId(id))
    ensures r.cloudRunUrl == Some(w.memmachineUrl)
    ensures r.neo4jServiceName == Some(Deployer.Neo4jServiceId(id))
    ensures r.neo4jUrl == Some(w.neo4jUrl) && r.neo4jBoltUrl == Some(w.neo4jBolt)
    ensures r.neo4jSecretName == Some(w.neo4jSecret)
    ensures r.postgresInstanceName == Some(Deployer.SqlInstanceName(id))
    ensures r.postgresIp == Some(w.sql.ip) && r.postgresConnectionName == Some(w.sql.connection)
    ensures r.postgresSecretName == Some(w.postgresSecret)
    ensures r.openaiSecretName == Some(Deployer.OpenAiSecretId(id))
    ensures r.deployedAt == Some(now) && r.lastHealthCheck == Some(now) && r.updatedAt == now
    ensures r.(status := inst.status, cloudRunServiceName := inst.cloudRunServiceName,
               cloudRunUrl := inst.cloudRunUrl, neo4jServiceName := inst.neo4jServiceName,
               neo4jUrl := inst.neo4jUrl, neo4jBoltUrl := inst.neo4jBoltUrl,
               neo4jSecretName := inst.neo4jSecretName,
               postgresInstanceName := inst.postgresInstanceName, postgresIp := inst.postgresIp,
               postgresConnectionName := inst.postgresConnectionName,
               postgresSecretName := inst.postgresSecretName,
               openaiSecretName := inst.openaiSecretName, deployedAt := inst.deployedAt,
               healthStatus := inst.healthStatus, lastHealthCheck := inst.lastHealthCheck,
               updatedAt := inst.updatedAt) == inst
  {
    inst.(status := Running,
          cloudRunServiceName := Some(Deployer.MemMachineServiceId(id)),
          cloudRunUrl := Some(w.memmachineUrl),
          neo4jServiceName := Some(Deployer.Neo4jServiceId(id)),
          neo4jUrl := Some(w.neo4jUrl),
          neo4jBoltUrl := Some(w.neo4jBolt),
          neo4jSecretName := Some(w.neo4jSecret),
          postgresInstanceName := Some(Deployer.SqlInstanceName(id)),
          postgresIp := Some(w.sql.ip),
          postgresConnectionName := Some(w.sql.connection),
          postgresSecretName := Some(w.postgresSecret),
          openaiSecretName := Some(Deployer.OpenAiSecretId(id)),
          deployedAt := Some(now),
          healthStatus := "healthy",
          lastHealthCheck := Some(now),
          updatedAt := now)
  }

  /** The row after a failure: FAILED, with the error text, deployable again. The commit
      refreshes `updated_at` (its `onupdate`); every other column is kept. */
  function MarkFailed(inst: Instance, error: string, now: int): (r: Instance)
    ensures r.status == InstanceStatus.Failed && IsDeployable(r) && !IsHealthy(r)
    ensures r.deploymentError == Some(error)
    ensures r.updatedAt == now
    ensures r.(status := inst.status, deploymentError := inst.deploymentError,
               updatedAt := inst.updatedAt) == inst
  {
    inst.(status := InstanceStatus.Failed, deploymentError := Some(error), updatedAt := now)
  }

  /** The instance row after the run; a missing row (`None`) is left missing, and a failed
      write leaves the row as it was. */
  function InstanceAfterRun(inst: Option<Instance>, id: string, req: DeploymentRequest,
                            prov: Provisioner, now: int): (r: Option<Instance>)
    ensures inst.None? ==> r.None?
    ensures inst.Some? && RunError(id, req, prov).None? ==>
      r.Some? && IsHealthy(r.value) && r.value.updatedAt == now
    ensures inst.Some? && RunError(id, req, prov).Some? && prov.markFailed.Pass? ==>
      r == Some(MarkFailed(inst.value, RunError(id, req, prov).value, now))
    ensures RunError(id, req, prov).Some? && prov.markFailed.Fail? ==> r == inst
  {
    if inst.None? then None
    else
      match RunError(id, req, prov)
      case None => Some(MarkRunning(inst.value, id, Wire(id, req, prov), now))
      case Some(e) => if prov.markFailed.Pass? then Some(MarkFailed(inst.value, e, now)) else inst
  }
}
