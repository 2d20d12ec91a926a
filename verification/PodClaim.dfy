/**
 The optimization pod: over every run, at most one live pod per task, and a task that names a pod
 names the live one.
 */
module PodClaim {
  import opened Wrappers
  import opened Protocol
  import opened TwoWriters

  function PodRef(w: World): string
  {
    if w.task.None? then "" else w.task.value.status.podRef
  }

  /** No live pod but `p`. */
  predicate OnlyLive(pods: map<string, Pod>, p: string)
  {
    forall q | q in pods :: Live(pods, q) ==> q == p
  }

  predicate NoneLive(pods: map<string, Pod>)
  {
    forall q | q in pods :: !Live(pods, q)
  }

  predicate AtMostOneLive(pods: map<string, Pod>)
  {
    forall p, q | p in pods && q in pods && Live(pods, p) && Live(pods, q) :: p == q
  }

  /** The status a reconcile has read, or means to store, names the pod that the stored one names. */
  predicate SameRef(w: World, t: Task)
  {
    w.task.Some? && t.status.podRef == w.task.value.status.podRef
  }

  predicate JobOk(w: World, job: Job)
  {
    job.finish.Some? ==> SameRef(w, job.finish.value)
  }

  predicate ClaimOk(w: World)
  {
    match w.pc
    case GetDataflow(t) => SameRef(w, t)
    case GetDeployment(t, _) => SameRef(w, t)
    case ListPods(t) => SameRef(w, t) && PodRef(w) == ""
    case CreatePod(t) => PodRef(w) == "" && NoneLive(w.pods)
    case GetForClaim(p) => p != "" && PodRef(w) == "" && OnlyLive(w.pods, p)
    case AlreadyClaimed(_) => false
    case PatchClaim(p, orig) => p != "" && PodRef(w) == orig.status.podRef == "" && OnlyLive(w.pods, p)
    case GetPod(t, _, _) => SameRef(w, t)
    case ReadPlan(t, _, _) => SameRef(w, t)
    case ListObjects(_, job) => JobOk(w, job)
    case CreateObject(_, job) => JobOk(w, job)
    case UpdateObject(_, job, _) => JobOk(w, job)
    case UpdateObjectStatus(_, job, _) => JobOk(w, job)
    case StoreStatus(t, _) => SameRef(w, t)
    case _ => true
  }

  predicate PodInv(w: World)
  {
    && "" !in w.pods
    && AtMostOneLive(w.pods)
    && (PodRef(w) != "" ==> OnlyLive(w.pods, PodRef(w)))
    && ClaimOk(w)
  }

  /** The List before the creation of a pod fails, and there is a pod it should have found. */
  predicate MissesPod(w: World, e: Event)
  {
    e.TaskStep? && w.pc.ListPods? && e.choice.fault == NoFault && e.choice.listFails && !NoneLive(w.pods)
  }

  /** `to` has the pods of `from`, except that some may be terminating, gone or in another phase. */
  predicate Fewer(from: map<string, Pod>, to: map<string, Pod>)
  {
    forall p | p in to :: p in from && (Live(to, p) ==> Live(from, p))
  }

  lemma FewerKeeps(w: World, pods: map<string, Pod>)
    requires PodInv(w) && Fewer(w.pods, pods)
    ensures PodInv(w.(pods := pods))
  {
  }

  /** Steps that leave pods and status alone keep the invariant if the new program counter does. */
  lemma CalmKeeps(w: World, w': World)
    requires PodInv(w) && w'.pods == w.pods && PodRef(w') == PodRef(w) && ClaimOk(w')
    ensures PodInv(w')
  {
  }

  lemma CreatePodKeeps(w: World, c: Choice)
    requires PodInv(w) && w.pc.CreatePod?
    ensures PodInv(StepCreatePod(w, c))
  {
  }

  lemma ListPodsKeeps(w: World, t: Task, c: Choice)
    requires PodInv(w) && w.pc == ListPods(t) && !MissesPod(w, TaskStep(c))
    ensures PodInv(StepListPods(w, t, c))
  {
    if c.fault == NoFault && !c.listFails && exists p | p in w.pods :: Live(w.pods, p) {
    } else {
      assert c.fault == NoFault ==> NoneLive(w.pods);
    }
  }

  lemma PatchClaimKeeps(w: World, p: string, orig: Task, c: Choice)
    requires PodInv(w) && w.pc == PatchClaim(p, orig)
    ensures PodInv(StepPatchClaim(w, p, orig, c))
  {
  }

  /** The calls that have to do with plans, and not with pods. */
  predicate PushesPlans(pc: TaskPc)
  {
    || pc.Idle? || pc.GetDataflow? || pc.GetDeployment? || pc.ReadPlan? || pc.StoreStatus?
    || pc.ListObjects? || pc.CreateObject? || pc.UpdateObject? || pc.UpdateObjectStatus?
  }

  lemma PodStepKeeps(w: World, df: nat, dp: nat, c: Choice)
    requires PodInv(w) && !MissesPod(w, TaskStep(c))
    requires !PushesPlans(w.pc)
    ensures PodInv(TaskNext(w, df, dp, c))
  {
    match w.pc
    case ListPods(t) => ListPodsKeeps(w, t, c);
    case CreatePod(_) => CreatePodKeeps(w, c);
    case PatchClaim(p, orig) => PatchClaimKeeps(w, p, orig, c);
    case DropPod(p) => DropPodKeeps(w, p, c);
    case PurgeDelete(todo) => PurgeDeleteKeeps(w, todo, c);
    case ClearPut(latest) => ClearPutKeeps(w, latest, c);
    case _ => ReadStepKeeps(w, df, dp, c);
  }

  lemma DropPodKeeps(w: World, p: string, c: Choice)
    requires PodInv(w)
    ensures PodInv(StepDropPod(w, p, c))
  {
    FewerKeeps(w.(pc := Idle, outcome := Returned), Terminate(w.pods, p));
  }

  lemma PurgeDeleteKeeps(w: World, todo: set<string>, c: Choice)
    requires PodInv(w)
    ensures PodInv(StepPurgeDelete(w, todo, c)) || StepPurgeDelete(w, todo, c) == w
  {
    var w' := StepPurgeDelete(w, todo, c);
    if w'.pods != w.pods {
      FewerKeeps(w.(pc := w'.pc), Terminate(w.pods, c.pod));
    }
  }

  lemma ClearPutKeeps(w: World, latest: Task, c: Choice)
    requires PodInv(w)
    ensures PodInv(StepClearPut(w, latest, c))
  {
  }

  lemma ReadStepKeeps(w: World, df: nat, dp: nat, c: Choice)
    requires PodInv(w) && (w.pc.GetForClaim? || w.pc.GetPod? || w.pc.ClearGet? || w.pc.PurgeList?)
    ensures PodInv(TaskNext(w, df, dp, c))
  {
    CalmKeeps(w, TaskNext(w, df, dp, c));
  }

  lemma PlanStepKeeps(w: World, df: nat, dp: nat, c: Choice)
    requires PodInv(w) && PushesPlans(w.pc)
    ensures PodInv(TaskNext(w, df, dp, c))
  {
    if w.pc.ListObjects? || w.pc.CreateObject? || w.pc.UpdateObject? || w.pc.UpdateObjectStatus? {
      ObjectStepKeeps(w, df, dp, c);
    } else {
      TaskReadKeeps(w, df, dp, c);
    }
  }

  lemma ObjectStepKeeps(w: World, df: nat, dp: nat, c: Choice)
    requires PodInv(w) && (w.pc.ListObjects? || w.pc.CreateObject? || w.pc.UpdateObject? || w.pc.UpdateObjectStatus?)
    ensures PodInv(TaskNext(w, df, dp, c))
  {
    CalmKeeps(w, TaskNext(w, df, dp, c));
  }

  lemma TaskReadKeeps(w: World, df: nat, dp: nat, c: Choice)
    requires PodInv(w) && (w.pc.Idle? || w.pc.GetDataflow? || w.pc.GetDeployment? || w.pc.ReadPlan?
        || w.pc.StoreStatus?)
    ensures PodInv(TaskNext(w, df, dp, c))
  {
    CalmKeeps(w, TaskNext(w, df, dp, c));
  }

  lemma TaskStepKeepsPods(w: World, df: nat, dp: nat, c: Choice)
    requires PodInv(w) && !MissesPod(w, TaskStep(c))
    ensures PodInv(TaskNext(w, df, dp, c))
  {
    if PushesPlans(w.pc) {
      PlanStepKeeps(w, df, dp, c);
    } else {
      PodStepKeeps(w, df, dp, c);
    }
  }

  lemma ClusterKeepsPods(w: World, df: nat, dp: nat, e: Event)
    requires PodInv(w) && (e.SetPhase? || e.DeletePod? || e.RemovePod?)
    ensures PodInv(WorldNext(w, df, dp, e))
  {
    FewerKeeps(w, WorldNext(w, df, dp, e).pods);
  }

  lemma WorldStepKeeps(w: World, df: nat, dp: nat, e: Event)
    requires PodInv(w) && !MissesPod(w, e)
    ensures PodInv(WorldNext(w, df, dp, e))
  {
    if e.TaskStep? {
      TaskStepKeepsPods(w, df, dp, e.choice);
    } else if e.SetPhase? || e.DeletePod? || e.RemovePod? {
      ClusterKeepsPods(w, df, dp, e);
    } else {
      CalmKeeps(w, WorldNext(w, df, dp, e));
    }
  }

  // ----- No pod before both references are set -----

  predicate BothSet(task: Option<Task>)
  {
    task.Some? && task.value.df.name != "" && task.value.dp.name != ""
  }

  /** There is no pod, and no reconcile is on its way to one. */
  predicate NoPodsYet(w: World)
  {
    w.pods == map[] && !w.pc.GetDataflow? && !w.pc.GetDeployment? && !w.pc.ListPods? && !w.pc.CreatePod?
  }

  predicate PodsFollowRefs(w: World)
  {
    BothSet(w.task) || NoPodsYet(w)
  }

  lemma RefsStaySet(s: State, e: Event)
    requires WritersInv(s) && BothSet(s.world.task)
    ensures BothSet(Step(s, e).world.task)
  {
    if e.WriterStep? {
      var task := s.world.task;
      var (w', task') := WriterNext(s.key, e.side, WriterOf(s, e.side), task, e.fault);
      WriterKeepsOwn(s.key, e.side, WriterOf(s, e.side), task, e.fault);
      WriterKeepsOther(s.key, e.side, WriterOf(s, e.side), task, e.fault);
      var pc := WriterOf(s, e.side).pc;
      if pc.WPatch? || pc.WPatchAgain? {
        PatchInstalls(task.value, e.side, pc.orig, Ref(s.key, pc.version));
      }
      assert RefOf(task'.value, Dataflow).name != "" && RefOf(task'.value, Deployment).name != "";
    } else if !e.EditPolicy? && !e.WriterCrash? {
      WorldKeepsRefs(s.world, s.df.policy, s.dp.policy, e, Dataflow);
      WorldKeepsRefs(s.world, s.df.policy, s.dp.policy, e, Deployment);
    }
  }

  /** Only `CreatePod` adds pods, and only a complete task gets a reconcile that far. */
  lemma PodsNeedRefs(w: World, df: nat, dp: nat, e: Event)
    requires PodsFollowRefs(w) && !BothSet(w.task)
    ensures var w' := WorldNext(w, df, dp, e);
            BothSet(w'.task) || NoPodsYet(w')
  {
    if e.TaskStep? {
      TaskStepNeedsRefs(w, df, dp, e.choice);
    }
  }

  lemma TaskStepNeedsRefs(w: World, df: nat, dp: nat, c: Choice)
    requires PodsFollowRefs(w) && !BothSet(w.task)
    ensures var w' := TaskNext(w, df, dp, c);
            BothSet(w'.task) || NoPodsYet(w')
  {
    if !w.pc.Idle? && !w.pc.PurgeDelete? && !w.pc.DropPod? && !w.pc.AlreadyClaimed? {
      OtherStepsNeedRefs(w, df, dp, c);
    }
  }

  lemma OtherStepsNeedRefs(w: World, df: nat, dp: nat, c: Choice)
    requires NoPodsYet(w) && !w.pc.Idle? && !w.pc.PurgeDelete? && !w.pc.DropPod? && !w.pc.AlreadyClaimed?
    ensures var w' := TaskNext(w, df, dp, c);
            NoPodsYet(w')
  {
  }

  lemma StepKeepsPodsFollowRefs(s: State, e: Event)
    requires WritersInv(s) && PodsFollowRefs(s.world)
    ensures PodsFollowRefs(Step(s, e).world)
  {
    if BothSet(s.world.task) {
      RefsStaySet(s, e);
    } else if !e.EditPolicy? && !e.WriterCrash? && !e.WriterStep? {
      PodsNeedRefs(s.world, s.df.policy, s.dp.policy, e);
    }
  }

  // ----- Over runs -----

  /** The one assumption on reads: no List fails while a pod is live. */
  predicate PodsSeen(s: State, es: seq<Event>)
  {
    es == [] || (PodsSeen(s, es[..|es| - 1]) && !MissesPod(Run(s, es[..|es| - 1]).world, es[|es| - 1]))
  }

  /** A policy controller leaves the status alone, so it cannot disturb the claim. */
  lemma WriterKeepsPods(s: State, side: Side, fault: Fault)
    requires PodInv(s.world)
    ensures PodInv(StepWriter(s, side, fault).world)
  {
    WriterKeepsOther(s.key, side, WriterOf(s, side), s.world.task, fault);
    var w' := StepWriter(s, side, fault).world;
    assert PodRef(w') == PodRef(s.world) && w'.pc == s.world.pc;
    CalmKeeps(s.world, w');
  }

  lemma {:induction false} RunKeepsPods(s: State, es: seq<Event>)
    requires Init(s) && PodsSeen(s, es)
    ensures PodInv(Run(s, es).world) && PodsFollowRefs(Run(s, es).world)
  {
    if es != [] {
      var before, e := Run(s, es[..|es| - 1]), es[|es| - 1];
      assert es == es[..|es| - 1] + [e];
      RunKeepsPods(s, es[..|es| - 1]);
      RunKeepsWriters(s, es[..|es| - 1]);
      StepKeepsPodsFollowRefs(before, e);
      if e.WriterStep? {
        WriterKeepsPods(before, e.side, e.fault);
      } else if !e.EditPolicy? && !e.WriterCrash? {
        WorldStepKeeps(before.world, before.df.policy, before.dp.policy, e);
      }
    }
  }

  /**
   Over every run in which no List fails while a pod is live, whatever else fails or crashes: at most one
   live pod exists; if the task names a pod, no other pod is live; no pod exists before both policies are
   referenced; and the branch for a pod claimed by somebody else is never reached.
   */
  lemma OnePodPerTask(s: State, es: seq<Event>)
    requires Init(s) && PodsSeen(s, es)
    ensures var w := Run(s, es).world;
            && (forall p, q | p in w.pods && q in w.pods && Live(w.pods, p) && Live(w.pods, q) :: p == q)
            && (PodRef(w) != "" ==> forall p | p in w.pods && Live(w.pods, p) :: p == PodRef(w))
            && (w.pods != map[] ==> BothSet(w.task))
            && !w.pc.AlreadyClaimed?
  {
    RunKeepsPods(s, es);
  }

  // ----- Why the List must not fail -----

  /** Neither a step of the task controller nor the deletion of `p`. */
  predicate LeavesAlone(e: Event, p: string)
  {
    !e.TaskStep? && !e.TaskCrash? && e != DeletePod(p)
  }

  /** While nobody steps the task controller or deletes `p`, it stays before its creation and `p` stays live. */
  lemma {:induction false} WaitingKeeps(s: State, es: seq<Event>, p: string)
    requires s.world.pc.CreatePod? && Live(s.world.pods, p)
    requires forall e | e in es :: LeavesAlone(e, p)
    ensures Run(s, es).world.pc == s.world.pc && Live(Run(s, es).world.pods, p)
  {
    if es != [] {
      assert LeavesAlone(es[|es| - 1], p) by { assert es[|es| - 1] in es; }
      forall e | e in es[..|es| - 1] ensures LeavesAlone(e, p) { assert e in es; }
      WaitingKeeps(s, es[..|es| - 1], p);
    }
  }

  lemma MissStep(s: State, p: string, miss: Choice)
    requires Live(s.world.pods, p) && MissesPod(s.world, TaskStep(miss))
    ensures var s' := Step(s, TaskStep(miss)); s'.world.pc.CreatePod? && Live(s'.world.pods, p)
  {
  }

  lemma CreateStep(s: State, p: string, create: Choice)
    requires s.world.pc.CreatePod? && Live(s.world.pods, p)
    requires !Refused(create.fault) && create.pod != "" && create.pod !in s.world.pods
    ensures var pods := Step(s, TaskStep(create)).world.pods; Live(pods, p) && Live(pods, create.pod)
  {
  }

  /**
   The converse: the code treats a failed List like an empty one. In every run, a List that fails while
   a pod is live leaves two live pods if the creation takes effect and the first pod is not deleted in
   between.
   */
  lemma MissedPodDoubles(s: State, es: seq<Event>, p: string, miss: Choice, between: seq<Event>, create: Choice)
    requires Live(Run(s, es).world.pods, p) && MissesPod(Run(s, es).world, TaskStep(miss))
    requires forall e | e in between :: LeavesAlone(e, p)
    requires !Refused(create.fault) && create.pod != ""
    requires create.pod !in Run(s, es + [TaskStep(miss)] + between).world.pods
    ensures var pods := Run(s, es + [TaskStep(miss)] + between + [TaskStep(create)]).world.pods;
            create.pod != p && Live(pods, p) && Live(pods, create.pod)
  {
    var missed := es + [TaskStep(miss)];
    MissStep(Run(s, es), p, miss);
    More(s, es, Run(s, es), TaskStep(miss));
    WaitingKeeps(Run(s, missed), between, p);
    RunInParts(s, missed, between);
    CreateStep(Run(s, missed + between), p, create);
    More(s, missed + between, Run(s, missed + between), TaskStep(create));
  }

  /** Both policies are created and referenced. */
  lemma BothReferenced(s: State) returns (es: seq<Event>, t: State)
    requires Init(s)
    ensures Run(s, es) == t
    ensures t.world == EMPTY_WORLD.(task := Some(Task(Ref(s.key, 1), Ref(s.key, 1), NEW_STATUS, 2)))
  {
    var task;
    es, task := FirstReconcile(s);
    t := Run(s, es);
    var step := WriterStep(Deployment, NoFault);
    More(s, es, t, EditPolicy(Deployment));
    es := es + [EditPolicy(Deployment)];
    More(s, es, t.(dp := Writer(1, WIdle, 0)), step);
    es := es + [step];
    More(s, es, t.(dp := Writer(1, WGetTask(1), 0)), step);
    es := es + [step];
    More(s, es, t.(dp := Writer(1, WPatch(1, task), 0)), step);
    es := es + [step];
    t := Run(s, es);
  }

  /** A complete task without a result or a pod. */
  predicate ToBeSolved(w: World)
  {
    w.pc == Idle && BothSet(w.task) && w.task.value.status.podRef == "" && w.task.value.status.result == ""
  }

  /** Three undisturbed calls take the reconcile of such a task to the List. */
  lemma GoToList(s: State, es: seq<Event>, t: State) returns (es': seq<Event>)
    requires t == Run(s, es) && ToBeSolved(t.world)
    ensures es' == es + [TaskStep(NO_TROUBLE), TaskStep(NO_TROUBLE), TaskStep(NO_TROUBLE)]
    ensures Run(s, es') == t.(world := t.world.(pc := ListPods(t.world.task.value), outcome := Busy))
  {
    var w, task := t.world.(outcome := Busy), t.world.task.value;
    More(s, es, t, TaskStep(NO_TROUBLE));
    es' := es + [TaskStep(NO_TROUBLE)];
    More(s, es', t.(world := w.(pc := GetDataflow(task))), TaskStep(NO_TROUBLE));
    es' := es' + [TaskStep(NO_TROUBLE)];
    More(s, es', t.(world := w.(pc := GetDeployment(task, t.df.policy))), TaskStep(NO_TROUBLE));
    es' := es' + [TaskStep(NO_TROUBLE)];
  }

  /** A run of that kind: the reply to the creation of "a" is lost, and the next reconcile's List fails. */
  lemma FailedListDoublesPods(s: State) returns (es: seq<Event>)
    requires Init(s)
    ensures var pods := Run(s, es).world.pods; "a" in pods && "b" in pods && Live(pods, "a") && Live(pods, "b")
  {
    var t;
    es, t := BothReferenced(s);
    var lost, miss, create := NO_TROUBLE.(fault := Lost, pod := "a"), NO_TROUBLE.(listFails := true),
        NO_TROUBLE.(pod := "b");
    es := GoToList(s, es, t);
    var task := t.world.task.value;
    More(s, es, t.(world := t.world.(pc := ListPods(task), outcome := Busy)), TaskStep(NO_TROUBLE));
    es := es + [TaskStep(NO_TROUBLE)];
    More(s, es, t.(world := t.world.(pc := CreatePod(task), outcome := Busy)), TaskStep(lost));
    es := es + [TaskStep(lost)];
    t := t.(world := t.world.(pods := map["a" := Pod(false, Pending)]));
    es := GoToList(s, es, t);
    More(s, es, t.(world := t.world.(pc := ListPods(task), outcome := Busy)), TaskStep(miss));
    assert es + [TaskStep(miss)] + [] == es + [TaskStep(miss)];
    MissedPodDoubles(s, es, "a", miss, [], create);
    es := es + [TaskStep(miss)] + [] + [TaskStep(create)];
  }

  // ----- Claims that are not serialised -----

  /** A pod "a" has been created for a task, and its claim is about to be written. */
  lemma PodToClaim(s: State) returns (es: seq<Event>, t: State)
    requires Init(s)
    ensures Run(s, es) == t && ToBeSolved(t.world.(pc := Idle)) && t.world.pc == PatchClaim("a", t.world.task.value)
    ensures t.world.pods == map["a" := Pod(false, Pending)] && t.world.atlas == t.world.mesh == Published([], None)
  {
    es, t := BothReferenced(s);
    es := GoToList(s, es, t);
    var task := t.world.task.value;
    var create := NO_TROUBLE.(pod := "a");
    More(s, es, t.(world := t.world.(pc := ListPods(task), outcome := Busy)), TaskStep(NO_TROUBLE));
    es := es + [TaskStep(NO_TROUBLE)];
    More(s, es, t.(world := t.world.(pc := CreatePod(task), outcome := Busy)), TaskStep(create));
    es := es + [TaskStep(create)];
    t := t.(world := t.world.(pods := map["a" := Pod(false, Pending)], outcome := Busy));
    More(s, es, t.(world := t.world.(pc := GetForClaim("a"))), TaskStep(NO_TROUBLE));
    es := es + [TaskStep(NO_TROUBLE)];
    t := t.(world := t.world.(pc := PatchClaim("a", task)));
  }

  /** A task without a pod gets one, "a". */
  lemma ClaimedPod(s: State) returns (es: seq<Event>, t: State)
    requires Init(s)
    ensures Run(s, es) == t && t.world.pc == Idle && PodRef(t.world) == "a"
        && t.world.pods == map["a" := Pod(false, Pending)]
    ensures BothSet(t.world.task) && t.world.task.value.status.result == ""
    ensures t.world.atlas == t.world.mesh == Published([], None)
  {
    es, t := PodToClaim(s);
    More(s, es, t, TaskStep(NO_TROUBLE));
    es := es + [TaskStep(NO_TROUBLE)];
    t := Run(s, es);
  }

  /** Two reconciles of one task at once: `w.pc` and `other` make one call each. */
  function Round(w: World, other: TaskPc, df: nat, dp: nat, c1: Choice, c2: Choice): (World, TaskPc)
  {
    var w1 := TaskNext(w, df, dp, c1);
    var w2 := TaskNext(w1.(pc := other), df, dp, c2);
    (w2.(pc := w1.pc), w2.pc)
  }

  function Rounds(w: World, other: TaskPc, df: nat, dp: nat, c1: Choice, c2: Choice, n: nat): (World, TaskPc)
  {
    if n == 0 then (w, other)
    else var (w', other') := Rounds(w, other, df, dp, c1, c2, n - 1); Round(w', other', df, dp, c1, c2)
  }

  /**
   The claim itself detects nothing: two reconciles that were not serialised would both read an empty
   pod reference, and both of their patches would succeed. Both pods stay, and the task names one.
   */
  lemma UnserialisedClaimsBothSucceed(w: World, df: nat, dp: nat, p: string, q: string)
    requires ToBeSolved(w) && NoneLive(w.pods)
    requires p != "" && q != "" && p != q && p !in w.pods && q !in w.pods
    ensures var (w', other) := Rounds(w, Idle, df, dp, NO_TROUBLE.(pod := p), NO_TROUBLE.(pod := q), 7);
            && w'.pc == other == Idle
            && p in w'.pods && q in w'.pods && Live(w'.pods, p) && Live(w'.pods, q) && PodRef(w') == q
  {
    var c1, c2, task := NO_TROUBLE.(pod := p), NO_TROUBLE.(pod := q), w.task.value;
    var both := w.pods[p := Pod(false, Pending)][q := Pod(false, Pending)];
    var busy := w.(outcome := Busy, pods := both);
    BothCreate(w, df, dp, p, q);
    assert Rounds(w, Idle, df, dp, c1, c2, 6) == (busy.(pc := PatchClaim(p, task)), PatchClaim(q, task));
    BothPatch(busy, df, dp, p, q, task);
  }

  lemma BothCreate(w: World, df: nat, dp: nat, p: string, q: string)
    requires ToBeSolved(w) && NoneLive(w.pods)
    requires p != "" && q != "" && p != q && p !in w.pods && q !in w.pods
    ensures var both := w.pods[p := Pod(false, Pending)][q := Pod(false, Pending)];
            Rounds(w, Idle, df, dp, NO_TROUBLE.(pod := p), NO_TROUBLE.(pod := q), 5)
            == (w.(outcome := Busy, pods := both, pc := GetForClaim(p)), GetForClaim(q))
  {
    var c1, c2, task := NO_TROUBLE.(pod := p), NO_TROUBLE.(pod := q), w.task.value;
    var busy := w.(outcome := Busy);
    assert Rounds(w, Idle, df, dp, c1, c2, 1) == (busy.(pc := GetDataflow(task)), GetDataflow(task));
    assert Rounds(w, Idle, df, dp, c1, c2, 2) == (busy.(pc := GetDeployment(task, df)), GetDeployment(task, df));
    assert Rounds(w, Idle, df, dp, c1, c2, 3) == (busy.(pc := ListPods(task)), ListPods(task));
    assert Rounds(w, Idle, df, dp, c1, c2, 4) == (busy.(pc := CreatePod(task)), CreatePod(task));
  }

  lemma BothPatch(w: World, df: nat, dp: nat, p: string, q: string, task: Task)
    requires w.task == Some(task) && task.status.podRef == "" && p != "" && q != ""
    ensures var c1, c2 := NO_TROUBLE.(pod := p), NO_TROUBLE.(pod := q);
            var claimed := task.(status := task.status.(podRef := q), version := task.version + 2);
            Round(w.(pc := PatchClaim(p, task)), PatchClaim(q, task), df, dp, c1, c2)
            == (w.(outcome := Returned, pc := Idle, task := Some(claimed)), Idle)
  {
  }
}
