/** The in-memory deployment status snapshot, its three record operations (`add_step`,
    `complete_step`, `update_phase`), the registry of active deployments and the record-creating
    part of `start_deployment`. */
module DeploymentTracker {
  import opened Wrappers
  import opened Strings
  import opened Instances

  /** The seven phase names. Only the first six have an entry in a status's phase table. */
  datatype Phase = Discovery | Architecture | MvpCore | MvpPolish | Beta | Production | Evolution

  /** Position of a phase in the fixed order. */
  function Rank(p: Phase): nat
  {
    match p
    case Discovery => 0
    case Architecture => 1
    case MvpCore => 2
    case MvpPolish => 3
    case Beta => 4
    case Production => 5
    case Evolution => 6
  }

  datatype StepStatus = Pending | InProgress | Completed | Failed

  type Details = map<string, string>

  datatype Step = Step(
    id: string,
    phase: Phase,
    name: string,
    status: StepStatus,
    progress: int,
    startedAt: Option<int>,
    completedAt: Option<int>,
    error: Option<string>,
    details: Option<Details>)

  /** A step as the pipeline constructs it: already "in_progress", no timestamps yet. */
  function NewStep(id: string, phase: Phase, name: string, progress: int): Step
  {
    Step(id, phase, name, InProgress, progress, None, None, None, None)
  }

  datatype PhaseEntry = PhaseEntry(progress: int, status: string, gates: seq<string>)

  datatype Decision = Decision(decision: string, timestamp: int, confidence: string)

  datatype DeploymentStatus = DeploymentStatus(
    deploymentId: string,
    overallProgress: int,
    currentPhase: Phase,
    qualityScore: int,
    phases: map<Phase, PhaseEntry>,
    steps: seq<Step>,
    endpoints: Option<map<string, string>>,
    success: bool,
    decisions: seq<Decision>,
    technicalDebt: seq<string>)

  const TrackedPhases: seq<Phase> := [Discovery, Architecture, MvpCore, MvpPolish, Beta, Production]

  /** A fresh status: nothing done, every tracked phase pending at 0, no EVOLUTION entry. */
  function NewStatus(id: string): (st: DeploymentStatus)
    ensures st.deploymentId == id && st.overallProgress == 0 && st.qualityScore == 0
    ensures st.currentPhase == Discovery && !st.success
    ensures st.steps == [] && st.endpoints == None && st.decisions == [] && st.technicalDebt == []
    ensures forall p :: p in st.phases <==> p != Evolution
    ensures forall p :: p in st.phases ==> st.phases[p] == PhaseEntry(0, "pending", [])
  {
    assert forall p: Phase :: p != Evolution ==> p == TrackedPhases[Rank(p)];
    DeploymentStatus(id, 0, Discovery, 0,
                     map p | p in TrackedPhases :: PhaseEntry(0, "pending", []),
                     [], None, false, [], [])
  }

  // ---- Record operations ----

  /** `add_step`: stamp the start time and append. */
  function AddStep(st: DeploymentStatus, step: Step, now: int): (r: DeploymentStatus)
    ensures |r.steps| == |st.steps| + 1
    ensures r.steps[..|st.steps|] == st.steps
    ensures r.steps[|st.steps|] == step.(startedAt := Some(now))
    ensures r.(steps := st.steps) == st
  {
    st.(steps := st.steps + [step.(startedAt := Some(now))])
  }

  /** What `complete_step` does to the step it finds. */
  function Close(s: Step, details: Option<Details>, now: int): Step
  {
    s.(status := Completed, completedAt := Some(now), details := details)
  }

  /** `r` is `steps` with the first step carrying `id` closed and every other step as it was. */
  predicate ClosesFirst(steps: seq<Step>, id: string, details: Option<Details>, now: int, r: seq<Step>)
  {
    && |r| == |steps|
    && (forall j :: 0 <= j < |steps| && steps[j].id != id ==> r[j] == steps[j])
    && (forall j :: 0 <= j < |steps| && steps[j].id == id && (forall k :: 0 <= k < j ==> steps[k].id != id)
          ==> r[j] == Close(steps[j], details, now))
    && (forall j, k :: 0 <= k < j < |steps| && steps[k].id == id ==> r[j] == steps[j])
  }

  /** A leading step without the id is kept, and the rest is closed as before. */
  lemma ClosesFirstCons(s: Step, steps: seq<Step>, id: string, details: Option<Details>, now: int, rest: seq<Step>)
    requires s.id != id && ClosesFirst(steps, id, details, now, rest)
    ensures ClosesFirst([s] + steps, id, details, now, [s] + rest)
  {
    var xs, r := [s] + steps, [s] + rest;
    forall j | 1 <= j < |xs| ensures xs[j] == steps[j - 1] && r[j] == rest[j - 1] {}
    forall j | 0 <= j < |xs| && xs[j].id == id && (forall k :: 0 <= k < j ==> xs[k].id != id)
      ensures r[j] == Close(xs[j], details, now)
    {
      assert forall k :: 0 <= k < j - 1 ==> steps[k] == xs[k + 1];
    }
    forall j, k | 0 <= k < j < |xs| && xs[k].id == id ensures r[j] == xs[j] {
      assert steps[k - 1].id == id;
    }
  }

  /** A leading step with the id is closed, and the rest is kept. */
  lemma ClosesFirstHead(s: Step, steps: seq<Step>, id: string, details: Option<Details>, now: int)
    requires s.id == id
    ensures ClosesFirst([s] + steps, id, details, now, [Close(s, details, now)] + steps)
  {
    var xs, r := [s] + steps, [Close(s, details, now)] + steps;
    assert xs[0] == s;
    forall j | 1 <= j < |xs| ensures xs[j] == r[j] {}
  }

  /** The loop of `complete_step`: close the first step carrying `id`, then stop. */
  function CloseFirst(steps: seq<Step>, id: string, details: Option<Details>, now: int): (r: seq<Step>)
    ensures ClosesFirst(steps, id, details, now, r)
  {
    if steps == [] then []
    else if steps[0].id == id then
      ClosesFirstHead(steps[0], steps[1..], id, details, now);
      assert [steps[0]] + steps[1..] == steps;
      [Close(steps[0], details, now)] + steps[1..]
    else
      var rest := CloseFirst(steps[1..], id, details, now);
      ClosesFirstCons(steps[0], steps[1..], id, details, now, rest);
      assert [steps[0]] + steps[1..] == steps;
      [steps[0]] + rest
  }

  /** `complete_step`: only the step list changes, and only at the first matching step. */
  function CompleteStep(st: DeploymentStatus, id: string, details: Option<Details>, now: int): (r: DeploymentStatus)
    ensures r.(steps := st.steps) == st
    ensures (forall j :: 0 <= j < |st.steps| ==> st.steps[j].id != id) ==> r == st
  {
    st.(steps := CloseFirst(st.steps, id, details, now))
  }

  /** Closing a step that was appended last, when no earlier step shares its id. */
  lemma CloseLast(steps: seq<Step>, s: Step, details: Option<Details>, now: int)
    requires forall j :: 0 <= j < |steps| ==> steps[j].id != s.id
    ensures CloseFirst(steps + [s], s.id, details, now) == steps + [Close(s, details, now)]
  {
    var xs := steps + [s];
    var r := CloseFirst(xs, s.id, details, now);
    assert forall j :: 0 <= j < |steps| ==> xs[j] == steps[j];
    assert r[|steps|] == Close(s, details, now);
  }

  /** `update_phase`: set the status of one phase entry; a phase with no entry (EVOLUTION in
      every status) is a `KeyError`. */
  function UpdatePhase(st: DeploymentStatus, phase: Phase, status: string): (r: Result<DeploymentStatus, string>)
    ensures r.Ok? <==> phase in st.phases
    ensures r.Ok? ==>
      && r.value.phases.Keys == st.phases.Keys
      && r.value.phases[phase] == st.phases[phase].(status := status)
      && (forall p :: p in st.phases && p != phase ==> r.value.phases[p] == st.phases[p])
      && r.value.(phases := st.phases) == st
  {
    if phase in st.phases then
      Ok(st.(phases := st.phases[phase := st.phases[phase].(status := status)]))
    else Err("KeyError")
  }

  /** No status derived from a fresh one by phase updates ever gains an EVOLUTION entry, so
      updating it always fails, while every other phase can be updated. */
  lemma EvolutionHasNoEntry(id: string, phase: Phase, status: string)
    ensures UpdatePhase(NewStatus(id), Evolution, status).Err?
    ensures phase != Evolution ==> UpdatePhase(NewStatus(id), phase, status).Ok?
    ensures phase != Evolution ==> UpdatePhase(UpdatePhase(NewStatus(id), phase, status).value, Evolution, status).Err?
  {
  }

  // ---- Registry ----

  /** `active_deployments`. */
  type Registry = map<string, DeploymentStatus>

  datatype HttpError = HttpError(statusCode: int, detail: string)

  /** `get_deployment_status`: the stored snapshot, or 404. */
  function GetDeploymentStatus(reg: Registry, id: string): (r: Result<DeploymentStatus, HttpError>)
    ensures r.Ok? <==> id in reg
    ensures r.Ok? ==> r.value == reg[id]
    ensures r.Err? ==> r.error.statusCode == 404
  {
    if id in reg then Ok(reg[id]) else Err(HttpError(404, "Deployment not found"))
  }

  datatype DeploymentRequest = DeploymentRequest(
    name: string,
    openaiApiKey: string,
    userId: string,
    neo4jUri: Option<string>,
    neo4jUser: Option<string>,
    neo4jPassword: Option<string>)

  datatype StartResponse = StartResponse(deploymentId: string, instanceId: string,
                                         websocketUrl: string, status: string)

  /** What `start_deployment` leaves behind: the registry, the row it committed (none when
      the commit raised), and the response or the error that escaped. */
  datatype Started = Started(registry: Registry, inserted: Option<Instance>,
                             response: Result<StartResponse, string>)

  /** The instance slug of `start_deployment`: the name lower-cased with spaces turned into
      dashes, a dash, and the first eight characters of the deployment id. */
  function InstanceSlug(name: string, id: string): (r: string)
    ensures |r| == |name| + 1 + |Take(id, 8)|
    ensures forall i :: 0 <= i < |name| ==> r[i] != ' ' && !IsUpperAscii(r[i])
    ensures forall i :: 0 <= i < |name| && name[i] != ' ' && !IsUpperAscii(name[i]) ==> r[i] == name[i]
    ensures forall i :: 0 <= i < |name| && name[i] == ' ' ==> r[i] == '-'
    ensures forall i :: 0 <= i < |name| && IsUpperAscii(name[i]) ==> r[i] == LowerChar(name[i])
    ensures r[|name|] == '-' && r[|name| + 1..] == Take(id, 8)
  {
    ReplaceChar(Lower(name), ' ', '-') + "-" + Take(id, 8)
  }

  /** `start_deployment`, minus the background task: insert the instance row, commit, and
      only then register a fresh status under the new id. `commit` is the database's answer
      to the commit (it fails, for one, when the user id has no `users` row); a failed commit
      raises before registration, so nothing is registered. Other deployments are untouched. */
  function StartDeployment(reg: Registry, id: string, req: DeploymentRequest, region: string,
                           now: int, commit: Outcome<string>): (r: Started)
    ensures commit.Fail? ==> r.registry == reg && r.inserted.None? && r.response == Err(commit.error)
    ensures commit.Pass? ==>
      && r.registry.Keys == reg.Keys + {id}
      && r.registry[id] == NewStatus(id)
      && (forall k :: k in reg && k != id ==> r.registry[k] == reg[k])
      && r.response == Ok(StartResponse(id, id, "/api/v1/deployment/" + id + "/ws", "started"))
      && r.inserted.Some?
    ensures r.inserted.Some? ==>
      var inst := r.inserted.value;
      && inst.id == id && inst.userId == req.userId && inst.name == req.name
      && inst.slug == InstanceSlug(req.name, id)
      && inst.status == Creating && inst.region == region
      && IsDeployable(inst) && !IsHealthy(inst)
  {
    if commit.Fail? then Started(reg, None, Err(commit.error))
    else
      var inst := NewInstance(id, req.userId, req.name, InstanceSlug(req.name, id), now).(region := region);
      Started(reg[id := NewStatus(id)], Some(inst),
              Ok(StartResponse(id, id, "/api/v1/deployment/" + id + "/ws", "started")))
  }

  /** Right after it starts, a deployment can be polled and reads as a fresh status. */
  lemma StartedIsPollable(reg: Registry, id: string, req: DeploymentRequest, region: string, now: int)
    ensures GetDeploymentStatus(StartDeployment(reg, id, req, region, now, Pass).registry, id) == Ok(NewStatus(id))
  {
  }

  /** After a failed commit a new id cannot be polled: the answer is 404. */
  lemma FailedStartNotPollable(reg: Registry, id: string, req: DeploymentRequest, region: string,
                               now: int, error: string)
    requires id !in reg
    ensures GetDeploymentStatus(StartDeployment(reg, id, req, region, now, Fail(error)).registry, id).Err?
    ensures GetDeploymentStatus(StartDeployment(reg, id, req, region, now, Fail(error)).registry, id).error.statusCode == 404
  {
  }
}
