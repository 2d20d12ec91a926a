/**
 The ILPTask protocol: the two policy controllers that write the halves of one ILPTask, and the
 task controller that claims one optimization pod and pushes its plan to Atlas and AtlasMesh.

 The API server is a state with atomic calls. Each controller is a program counter over those
 calls; between any two of them other controllers, users and the cluster may act, a call may fail,
 take effect without its reply arriving, or the controller may crash. Reconciles of one key are
 serialised and reads are consistent.
 */
module Protocol {
  import opened Wrappers

  // ----- Objects -----

  /** A reference to a policy; `""` and `0` stand for absent fields. */
  datatype Ref = Ref(name: string, version: nat)

  datatype Plan = Plan(components: seq<string>, edges: seq<string>)

  datatype Status = Status(result: string, plan: Plan, podRef: string, dfVersion: nat, dpVersion: nat)

  /** The ILPTask; `version` is its resourceVersion. */
  datatype Task = Task(df: Ref, dp: Ref, status: Status, version: nat)

  datatype Phase = Pending | Running | Succeeded | Failed

  datatype Pod = Pod(terminating: bool, phase: Phase)

  /**
   An Atlas or an AtlasMesh. `reviewed` and `approved` record the plan its last approver had read and
   the plan it had when approved.
   */
  datatype PlanObject = PlanObject(plan: Plan, approve: bool, version: nat, reviewed: Plan, approved: Plan)

  function NewObject(plan: Plan): PlanObject
  {
    PlanObject(plan, false, 1, NO_PLAN, NO_PLAN)
  }

  /** What a user has read and is about to approve. */
  datatype Review = Review(plan: Plan, version: nat)

  datatype Side = Dataflow | Deployment

  datatype Target = Atlas | AtlasMesh

  const NO_REF := Ref("", 0)
  const NO_PLAN := Plan([], [])
  const NEW_STATUS := Status("", NO_PLAN, "", 0, 0)

  // ----- Program counters -----

  /** A policy controller. `version` is the policy version its reconcile has read. */
  datatype WriterPc =
    | WIdle
    | WGetTask(version: nat)
    | WCreate(version: nat)
    | WPatch(version: nat, orig: Task)
    | WGetAgain(version: nat)
    | WPatchAgain(version: nat, orig: Task)

  /** `synced` is the policy version read by the last reconcile that returned without error or requeue. */
  datatype Writer = Writer(policy: nat, pc: WriterPc, synced: nat)

  /** A plan to be pushed; `finish` is the task whose status is to be stored afterwards, if any. */
  datatype Job = Job(plan: Plan, finish: Option<Task>)

  datatype TaskPc =
    | Idle
    | GetDataflow(task: Task)
    | GetDeployment(task: Task, df: nat)
    | ListPods(task: Task)
    | CreatePod(task: Task)
    | GetForClaim(pod: string)
    | AlreadyClaimed(pod: string)
    | PatchClaim(pod: string, orig: Task)
    | DropPod(pod: string)
    | GetPod(task: Task, df: nat, dp: nat)
    | ReadPlan(task: Task, df: nat, dp: nat)
    | ListObjects(target: Target, job: Job)
    | CreateObject(target: Target, job: Job)
    | UpdateObject(target: Target, job: Job, read: PlanObject)
    | UpdateObjectStatus(target: Target, job: Job, version: nat)
    | StoreStatus(task: Task, ensured: bool)
    | ClearGet
    | ClearPut(latest: Task)
    | PurgeList
    | PurgeDelete(pods: set<string>)

  /** How the last reconcile of the task ended; `Ensured` is a clean return after both ensure calls. */
  datatype Outcome = Busy | Returned | Ensured(plan: Plan)

  /** An Atlas or AtlasMesh list, and a user's pending approval. */
  datatype Published = Published(objects: seq<PlanObject>, review: Option<Review>)

  /** What the task controller works on. */
  datatype World = World(
    task: Option<Task>,
    pods: map<string, Pod>,
    atlas: Published,
    mesh: Published,
    pc: TaskPc,
    outcome: Outcome)

  /** `key` is the name shared by the policies and the task. */
  datatype State = State(key: string, df: Writer, dp: Writer, world: World)

  /**
   `Rejected`: the call fails. `Lost`: it takes effect but the caller sees an error. `Conflicted`: a
   write is refused with Conflict, which the server may answer to an unversioned patch as well.
   */
  datatype Fault = NoFault | Rejected | Lost | Conflicted

  /** The call has no effect. */
  predicate Refused(f: Fault)
  {
    f == Rejected || f == Conflicted
  }

  /** What a step of the task controller does not decide itself; `sameApp`: the policies carry the same app-id label. */
  datatype Choice = Choice(fault: Fault, pod: string, plan: Plan, giveUp: bool, listFails: bool, sameApp: bool)

  const NO_TROUBLE := Choice(NoFault, "", NO_PLAN, false, false, true)

  datatype Event =
    | EditPolicy(side: Side)
    | WriterStep(side: Side, fault: Fault)
    | WriterCrash(side: Side)
    | TaskStep(choice: Choice)
    | TaskCrash
    | SetPhase(pod: string, phase: Phase)
    | DeletePod(pod: string)
    | RemovePod(pod: string)
    | ReviewPlan(target: Target)
    | ApprovePlan(target: Target)
    | PatchApproval(target: Target)
    | RevokePlan(target: Target)

  function Other(side: Side): Side
  {
    if side == Dataflow then Deployment else Dataflow
  }

  function RefOf(t: Task, side: Side): Ref
  {
    if side == Dataflow then t.df else t.dp
  }

  function WithRef(t: Task, side: Side, r: Ref): Task
  {
    if side == Dataflow then t.(df := r) else t.(dp := r)
  }

  function WriterOf(s: State, side: Side): Writer
  {
    if side == Dataflow then s.df else s.dp
  }

  function WithWriter(s: State, side: Side, w: Writer): State
  {
    if side == Dataflow then s.(df := w) else s.(dp := w)
  }

  function PublishedAs(w: World, t: Target): Published
  {
    if t == Atlas then w.atlas else w.mesh
  }

  function WithPublished(w: World, t: Target, p: Published): World
  {
    if t == Atlas then w.(atlas := p) else w.(mesh := p)
  }

  function ObjectsOf(w: World, t: Target): seq<PlanObject>
  {
    PublishedAs(w, t).objects
  }

  function WithObjects(w: World, t: Target, os: seq<PlanObject>): World
  {
    WithPublished(w, t, PublishedAs(w, t).(objects := os))
  }

  // ----- The policy controllers -----

  /** A JSON merge patch computed from `orig` and the wanted reference, applied to the stored one. */
  function MergeRef(stored: Ref, orig: Ref, wanted: Ref): Ref
  {
    Ref(if wanted.name != orig.name then wanted.name else stored.name,
        if wanted.version != orig.version then wanted.version else stored.version)
  }

  function PatchRef(t: Task, side: Side, orig: Task, wanted: Ref): Task
  {
    var r := MergeRef(RefOf(t, side), RefOf(orig, side), wanted);
    if r == RefOf(t, side) then t else WithRef(t, side, r).(version := t.version + 1)
  }

  /** One call of a policy controller: its own state and the stored task afterwards. */
  function WriterNext(key: string, side: Side, w: Writer, task: Option<Task>, fault: Fault): (Writer, Option<Task>)
  {
    var idle := w.(pc := WIdle);
    match w.pc
    case WIdle => if fault != NoFault || w.policy == 0 then (w, task) else (w.(pc := WGetTask(w.policy)), task)
    case WGetTask(v) =>
      if fault != NoFault then (idle, task)
      else (w.(pc := if task.None? then WCreate(v) else WPatch(v, task.value)), task)
    case WCreate(v) =>
      // an ILPTask created in the meantime makes the reconcile requeue
      if Refused(fault) || task.Some? then (idle, task)
      else (if fault == Lost then idle else w.(pc := WGetAgain(v)),
            Some(WithRef(Task(NO_REF, NO_REF, NEW_STATUS, 1), side, Ref(key, v))))
    case WPatch(v, orig) =>
      if fault == Rejected || task.None? then (idle, task)
      // a Conflict is swallowed
      else if fault == Conflicted then (w.(pc := WGetAgain(v)), task)
      else (if fault == Lost then idle else w.(pc := WGetAgain(v)),
            Some(PatchRef(task.value, side, orig, Ref(key, v))))
    case WGetAgain(v) =>
      if fault != NoFault || task.None? then (idle, task)
      else (w.(pc := WPatchAgain(v, task.value)), task)
    case WPatchAgain(v, orig) =>
      if fault == Rejected || task.None? then (idle, task)
      else if fault == Conflicted then (idle.(synced := v), task)
      else (if fault == Lost then idle else idle.(synced := v),
            Some(PatchRef(task.value, side, orig, Ref(key, v))))
  }

  function StepWriter(s: State, side: Side, fault: Fault): State
  {
    var (w, task) := WriterNext(s.key, side, WriterOf(s, side), s.world.task, fault);
    WithWriter(s, side, w).(world := s.world.(task := task))
  }

  // ----- The task controller: pods -----

  predicate Live(pods: map<string, Pod>, p: string)
  {
    p in pods && !pods[p].terminating
  }

  function Terminate(pods: map<string, Pod>, p: string): map<string, Pod>
  {
    if p in pods then pods[p := pods[p].(terminating := true)] else pods
  }

  function Return(s: World): World
  {
    s.(pc := Idle, outcome := Returned)
  }

  function StepListPods(s: World, t: Task, c: Choice): World
  {
    if c.fault != NoFault then Return(s)
    else if !c.listFails && exists p | p in s.pods :: Live(s.pods, p) then
      if Live(s.pods, c.pod) then s.(pc := GetForClaim(c.pod)) else s
    else s.(pc := CreatePod(t))
  }

  function StepCreatePod(s: World, c: Choice): World
  {
    // a generated name that is taken is refused
    if Refused(c.fault) || c.pod in s.pods || c.pod == "" then Return(s)
    else
      var s' := s.(pods := s.pods[c.pod := Pod(false, Pending)]);
      if c.fault == Lost then Return(s') else s'.(pc := GetForClaim(c.pod))
  }

  function StepGetForClaim(s: World, p: string, c: Choice): World
  {
    if c.fault != NoFault || s.task.None? then s.(pc := DropPod(p))
    else if s.task.value.status.podRef != "" then s.(pc := AlreadyClaimed(p))
    else s.(pc := PatchClaim(p, s.task.value))
  }

  function StepPatchClaim(s: World, p: string, orig: Task, c: Choice): World
  {
    if Refused(c.fault) || s.task.None? then s.(pc := DropPod(p))
    else
      var t := s.task.value;
      var ref := if p != orig.status.podRef then p else t.status.podRef;
      var s' := s.(task := Some(t.(status := t.status.(podRef := ref), version := t.version + 1)));
      if c.fault == Lost then s'.(pc := DropPod(p)) else Return(s')
  }

  function StepDropPod(s: World, p: string, c: Choice): World
  {
    Return(if Refused(c.fault) then s else s.(pods := Terminate(s.pods, p)))
  }

  function StepGetPod(s: World, t: Task, df: nat, dp: nat, c: Choice): World
  {
    if c.fault != NoFault || t.status.podRef !in s.pods then s.(pc := ClearGet)
    else if s.pods[t.status.podRef].phase == Succeeded then s.(pc := ReadPlan(t, df, dp))
    else Return(s)
  }

  function StepClearPut(s: World, latest: Task, c: Choice): World
  {
    if c.fault == Rejected || s.task.None? then Return(s)
    else if c.fault == Conflicted || s.task.value.version != latest.version then
      if c.giveUp then Return(s) else s.(pc := ClearGet)
    else
      Return(s.(task := Some(s.task.value.(status := latest.status.(podRef := ""), version := latest.version + 1))))
  }

  /** Deletes pods until a delete fails. */
  function StepPurgeDelete(s: World, todo: set<string>, c: Choice): World
  {
    if todo == {} || Refused(c.fault) then Return(s)
    else if c.pod !in todo then s
    else if c.pod !in s.pods then Return(s)
    else
      var s' := s.(pods := Terminate(s.pods, c.pod));
      if c.fault == Lost || todo == {c.pod} then Return(s') else s'.(pc := PurgeDelete(todo - {c.pod}))
  }

  // ----- The task controller: plans -----

  /** After one object is up to date: the other object, then the status, then return. */
  function Next(s: World, target: Target, job: Job): World
  {
    if target == Atlas then s.(pc := ListObjects(AtlasMesh, job))
    else if job.finish.Some? then s.(pc := StoreStatus(job.finish.value, true))
    else s.(pc := Idle, outcome := Ensured(job.plan))
  }

  /** The task with the plan of a finished pod; one that places nothing is no success. */
  function WithResult(t: Task, plan: Plan, df: nat, dp: nat): Task
  {
    t.(status := t.status.(plan := plan, result := if plan.components != [] then "Success" else t.status.result,
                           dfVersion := df, dpVersion := dp))
  }

  function StepReadPlan(s: World, t: Task, df: nat, dp: nat, c: Choice): World
  {
    if c.fault != NoFault then Return(s)
    else
      var found, t' := c.plan.components != [], WithResult(t, c.plan, df, dp);
      if found then s.(pc := ListObjects(Atlas, Job(c.plan, Some(t')))) else s.(pc := StoreStatus(t', false))
  }

  function StepListObjects(s: World, target: Target, job: Job, c: Choice): World
  {
    var os := ObjectsOf(s, target);
    if c.fault != NoFault || |os| > 1 then Return(s)
    else if os == [] then s.(pc := CreateObject(target, job))
    else if os[0].plan == job.plan then Next(s, target, job)
    else s.(pc := UpdateObject(target, job, os[0]))
  }

  function StepCreateObject(s: World, target: Target, job: Job, c: Choice): World
  {
    if Refused(c.fault) || ObjectsOf(s, target) != [] then Return(s)
    else
      var s' := WithObjects(s, target, [NewObject(job.plan)]);
      if c.fault == Lost then Return(s') else Next(s', target, job)
  }

  function StepUpdateObject(s: World, target: Target, job: Job, read: PlanObject, c: Choice): World
  {
    var os := ObjectsOf(s, target);
    if Refused(c.fault) || os == [] || os[0].version != read.version then Return(s)
    else
      var v := os[0].version + 1;
      var s' := WithObjects(s, target, os[0 := read.(plan := job.plan, approve := false, version := v)]);
      if c.fault == Lost then Return(s') else s'.(pc := UpdateObjectStatus(target, job, v))
  }

  function StepUpdateObjectStatus(s: World, target: Target, job: Job, v: nat, c: Choice): World
  {
    var os := ObjectsOf(s, target);
    if Refused(c.fault) || os == [] || os[0].version != v then Return(s)
    else
      var s' := WithObjects(s, target, os[0 := os[0].(version := v + 1)]);
      if c.fault == Lost then Return(s') else Next(s', target, job)
  }

  function StepStoreStatus(s: World, t: Task, ensured: bool, c: Choice): World
  {
    if Refused(c.fault) || s.task.None? || s.task.value.version != t.version then Return(s)
    else
      var s' := s.(task := Some(s.task.value.(status := t.status, version := t.version + 1)));
      if c.fault == Lost || !ensured then Return(s') else s'.(pc := Idle, outcome := Ensured(t.status.plan))
  }

  // ----- The task controller -----

  function StepIdle(s: World, c: Choice): World
  {
    var s := s.(outcome := Busy);
    // any error of the first read, not only "not found", deletes the task's pods
    if c.fault != NoFault || s.task.None? then s.(pc := PurgeList)
    else if s.task.value.df.name == "" || s.task.value.dp.name == "" then Return(s)
    else s.(pc := GetDataflow(s.task.value))
  }

  function StepGetDeployment(s: World, t: Task, df: nat, dp: nat, c: Choice): World
  {
    if c.fault != NoFault || !c.sameApp then Return(s)
    else if t.status.result != "" && t.status.dfVersion == df && t.status.dpVersion == dp then
      s.(pc := ListObjects(Atlas, Job(t.status.plan, None)))
    else if t.status.podRef == "" then s.(pc := ListPods(t))
    else s.(pc := GetPod(t, df, dp))
  }

  /** One call of the task controller; `dfPolicy` and `dpPolicy` are the policies' versions. */
  function TaskNext(s: World, dfPolicy: nat, dpPolicy: nat, c: Choice): World
  {
    match s.pc
    case Idle => StepIdle(s, c)
    case GetDataflow(t) => if c.fault != NoFault then Return(s) else s.(pc := GetDeployment(t, dfPolicy))
    case GetDeployment(t, df) => StepGetDeployment(s, t, df, dpPolicy, c)
    case ListPods(t) => StepListPods(s, t, c)
    case CreatePod(_) => StepCreatePod(s, c)
    case GetForClaim(p) => StepGetForClaim(s, p, c)
    case AlreadyClaimed(p) => StepDropPod(s, p, c)
    case PatchClaim(p, orig) => StepPatchClaim(s, p, orig, c)
    case DropPod(p) => StepDropPod(s, p, c)
    case GetPod(t, df, dp) => StepGetPod(s, t, df, dp, c)
    case ReadPlan(t, df, dp) => StepReadPlan(s, t, df, dp, c)
    case ListObjects(target, job) => StepListObjects(s, target, job, c)
    case CreateObject(target, job) => StepCreateObject(s, target, job, c)
    case UpdateObject(target, job, read) => StepUpdateObject(s, target, job, read, c)
    case UpdateObjectStatus(target, job, v) => StepUpdateObjectStatus(s, target, job, v, c)
    case StoreStatus(t, ensured) => StepStoreStatus(s, t, ensured, c)
    case ClearGet => if c.fault != NoFault || s.task.None? then Return(s) else s.(pc := ClearPut(s.task.value))
    case ClearPut(latest) => StepClearPut(s, latest, c)
    case PurgeList => if c.fault != NoFault || s.pods.Keys == {} then Return(s) else s.(pc := PurgeDelete(s.pods.Keys))
    case PurgeDelete(todo) => StepPurgeDelete(s, todo, c)
  }

  // ----- Users and the cluster -----

  function StepReview(s: World, target: Target): World
  {
    var p := PublishedAs(s, target);
    if p.objects == [] then s
    else WithPublished(s, target, p.(review := Some(Review(p.objects[0].plan, p.objects[0].version))))
  }

  function Approved(o: PlanObject, reviewed: Plan): PlanObject
  {
    o.(approve := true, reviewed := reviewed, approved := o.plan, version := o.version + 1)
  }

  /** An approval of what the user has read: by an update it carries the resourceVersion, by a patch it does not. */
  function StepApprove(s: World, target: Target, versioned: bool): World
  {
    var os, review := ObjectsOf(s, target), PublishedAs(s, target).review;
    if os == [] || review.None? || (versioned && review.value.version != os[0].version) then s
    else WithObjects(s, target, os[0 := Approved(os[0], review.value.plan)])
  }

  function StepRevoke(s: World, target: Target): World
  {
    var os := ObjectsOf(s, target);
    if os == [] then s else WithObjects(s, target, os[0 := os[0].(approve := false, version := os[0].version + 1)])
  }

  function SetPodPhase(s: World, p: string, phase: Phase): World
  {
    if p in s.pods then s.(pods := s.pods[p := s.pods[p].(phase := phase)]) else s
  }

  function StepRemovePod(s: World, p: string): World
  {
    if p in s.pods && s.pods[p].terminating then s.(pods := s.pods - {p}) else s
  }

  /** Everything that is not a policy controller. */
  function WorldNext(s: World, dfPolicy: nat, dpPolicy: nat, e: Event): World
  {
    match e
    case TaskStep(c) => TaskNext(s, dfPolicy, dpPolicy, c)
    case TaskCrash => Return(s)
    case SetPhase(p, phase) => SetPodPhase(s, p, phase)
    case DeletePod(p) => s.(pods := Terminate(s.pods, p))
    case RemovePod(p) => StepRemovePod(s, p)
    case ReviewPlan(target) => StepReview(s, target)
    case ApprovePlan(target) => StepApprove(s, target, true)
    case PatchApproval(target) => StepApprove(s, target, false)
    case RevokePlan(target) => StepRevoke(s, target)
    case _ => s
  }

  function Step(s: State, e: Event): State
  {
    match e
    case EditPolicy(side) => WithWriter(s, side, WriterOf(s, side).(policy := WriterOf(s, side).policy + 1))
    case WriterStep(side, fault) => StepWriter(s, side, fault)
    case WriterCrash(side) => WithWriter(s, side, WriterOf(s, side).(pc := WIdle))
    case _ => s.(world := WorldNext(s.world, s.df.policy, s.dp.policy, e))
  }

  const EMPTY_WORLD := World(None, map[], Published([], None), Published([], None), Idle, Returned)

  /** Nothing exists yet but the name the policies and the task will share. */
  predicate Init(s: State)
  {
    s.key != "" && s.df == s.dp == Writer(0, WIdle, 0) && s.world == EMPTY_WORLD
  }

  function Run(s: State, es: seq<Event>): State
  {
    if es == [] then s else Step(Run(s, es[..|es| - 1]), es[|es| - 1])
  }

  /** A longer run is a step after a shorter one. */
  lemma More(s: State, es: seq<Event>, t: State, e: Event)
    requires t == Run(s, es)
    ensures Run(s, es + [e]) == Step(t, e)
  {
    assert (es + [e])[..|es|] == es;
  }

  lemma {:induction false} RunInParts(s: State, a: seq<Event>, b: seq<Event>)
    ensures Run(s, a + b) == Run(Run(s, a), b)
  {
    if b == [] {
      assert a + b == a;
    } else {
      RunInParts(s, a, b[..|b| - 1]);
      assert (a + b)[..|a + b| - 1] == a + b[..|b| - 1];
    }
  }
}
