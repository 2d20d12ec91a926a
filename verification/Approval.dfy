/**
 Pushing plans to Atlas and AtlasMesh: an approval never outlives the plan it was given for, and a
 reconcile that returns cleanly leaves one plan in all three places.
 */
module Approval {
  import opened Wrappers
  import opened Protocol
  import opened TwoWriters
  import opened PodClaim

  /**
   There is at most one object, its approval is for its plan, and a pending review of its present version
   is of its plan.
   */
  predicate PublishedOk(p: Published)
  {
    && |p.objects| <= 1
    && (p.objects == [] ==> p.review.None?)
    && (p.objects != [] ==>
          var o := p.objects[0];
          && (o.approve ==> o.plan == o.approved)
          && (p.review.Some? ==>
                && p.review.value.version <= o.version
                && (p.review.value.version == o.version ==> p.review.value.plan == o.plan)))
  }

  /** The one object carries `plan`. */
  predicate Carries(p: Published, plan: Plan)
  {
    |p.objects| == 1 && p.objects[0].plan == plan
  }

  predicate StoredPlan(w: World, plan: Plan)
  {
    w.task.Some? && w.task.value.status.plan == plan
  }

  /** A job pushes the plan it will store, or the one that is stored. */
  predicate JobPlanOk(w: World, job: Job)
  {
    if job.finish.Some? then job.finish.value.status.plan == job.plan else StoredPlan(w, job.plan)
  }

  /** A job on the mesh has dealt with the atlas. */
  predicate Stage(w: World, target: Target, job: Job)
  {
    JobPlanOk(w, job) && (target == AtlasMesh ==> Carries(w.atlas, job.plan))
  }

  /** The status a reconcile has read is the stored one. */
  predicate FreshStatus(w: World, t: Task)
  {
    StoredPlan(w, t.status.plan)
  }

  predicate PlanPcOk(w: World)
  {
    match w.pc
    case GetDataflow(t) => FreshStatus(w, t)
    case GetDeployment(t, _) => FreshStatus(w, t)
    case ListObjects(target, job) => Stage(w, target, job)
    case CreateObject(target, job) => Stage(w, target, job) && ObjectsOf(w, target) == []
    case UpdateObject(target, job, read) => Stage(w, target, job) && |ObjectsOf(w, target)| == 1
    case UpdateObjectStatus(target, job, _) => Stage(w, target, job) && Carries(PublishedAs(w, target), job.plan)
    case StoreStatus(t, ensured) => ensured ==> Carries(w.atlas, t.status.plan) && Carries(w.mesh, t.status.plan)
    case _ => true
  }

  /** After a clean return, and until the next reconcile starts, the three plans are the same. */
  predicate Agreement(w: World)
  {
    w.outcome.Ensured? ==>
      w.pc == Idle && Carries(w.atlas, w.outcome.plan) && Carries(w.mesh, w.outcome.plan)
          && StoredPlan(w, w.outcome.plan)
  }

  predicate PlanInv(w: World)
  {
    PublishedOk(w.atlas) && PublishedOk(w.mesh) && PlanPcOk(w) && Agreement(w)
  }

  /** Steps that keep the objects and the stored plan need only look at the program counter. */
  lemma QuietKeeps(w: World, w': World)
    requires PlanInv(w) && PlanPcOk(w') && Agreement(w') && w'.atlas == w.atlas && w'.mesh == w.mesh
    ensures PlanInv(w')
  {
  }

  lemma NextKeeps(w: World, target: Target, job: Job)
    requires PublishedOk(w.atlas) && PublishedOk(w.mesh) && w.outcome == Busy
    requires Stage(w, target, job) && Carries(PublishedAs(w, target), job.plan)
    ensures PlanInv(Next(w, target, job))
  {
  }

  lemma ReturnKeeps(w: World)
    requires PublishedOk(w.atlas) && PublishedOk(w.mesh)
    ensures PlanInv(Return(w))
  {
  }

  /** While a reconcile runs, nothing is claimed about agreement. */
  predicate BusyOk(w: World)
  {
    w.pc != Idle ==> w.outcome == Busy
  }

  lemma CreateObjectKeeps(w: World, target: Target, job: Job, c: Choice)
    requires PlanInv(w) && BusyOk(w) && w.pc == CreateObject(target, job)
    ensures PlanInv(StepCreateObject(w, target, job, c))
  {
    if Refused(c.fault) {
      ReturnKeeps(w);
    } else {
      var w' := WithObjects(w, target, [NewObject(job.plan)]);
      if c.fault == Lost { ReturnKeeps(w'); } else { NextKeeps(w', target, job); }
    }
  }

  lemma ListObjectsKeeps(w: World, target: Target, job: Job, c: Choice)
    requires PlanInv(w) && BusyOk(w) && w.pc == ListObjects(target, job)
    ensures PlanInv(StepListObjects(w, target, job, c))
  {
    var os := ObjectsOf(w, target);
    if c.fault == NoFault && |os| == 1 && os[0].plan == job.plan {
      NextKeeps(w, target, job);
    }
  }

  lemma UpdateObjectKeeps(w: World, target: Target, job: Job, read: PlanObject, c: Choice)
    requires PlanInv(w) && BusyOk(w) && w.pc == UpdateObject(target, job, read)
    ensures PlanInv(StepUpdateObject(w, target, job, read, c))
  {
    var os := ObjectsOf(w, target);
    if !Refused(c.fault) && os[0].version == read.version {
      var v := os[0].version + 1;
      var w' := WithObjects(w, target, os[0 := read.(plan := job.plan, approve := false, version := v)]);
      assert PublishedOk(PublishedAs(w', target));
      if c.fault == Lost { ReturnKeeps(w'); }
    } else {
      ReturnKeeps(w);
    }
  }

  lemma UpdateObjectStatusKeeps(w: World, target: Target, job: Job, v: nat, c: Choice)
    requires PlanInv(w) && BusyOk(w) && w.pc == UpdateObjectStatus(target, job, v)
    ensures PlanInv(StepUpdateObjectStatus(w, target, job, v, c))
  {
    var os := ObjectsOf(w, target);
    if !Refused(c.fault) && os[0].version == v {
      var w' := WithObjects(w, target, os[0 := os[0].(version := v + 1)]);
      assert PublishedOk(PublishedAs(w', target));
      if c.fault == Lost { ReturnKeeps(w'); } else { NextKeeps(w', target, job); }
    } else {
      ReturnKeeps(w);
    }
  }

  lemma TaskStaysBusy(w: World, df: nat, dp: nat, c: Choice)
    requires BusyOk(w)
    ensures BusyOk(TaskNext(w, df, dp, c))
  {
  }

  predicate ReadsOrStores(pc: TaskPc)
  {
    pc.Idle? || pc.GetDataflow? || pc.GetDeployment? || pc.ReadPlan? || pc.StoreStatus?
  }

  lemma ReadOrStoreKeeps(w: World, df: nat, dp: nat, c: Choice)
    requires PlanInv(w) && BusyOk(w) && ReadsOrStores(w.pc)
    ensures PlanInv(TaskNext(w, df, dp, c))
  {
    QuietKeeps(w, TaskNext(w, df, dp, c));
  }

  predicate Claims(pc: TaskPc)
  {
    pc.ListPods? || pc.CreatePod? || pc.GetForClaim? || pc.AlreadyClaimed? || pc.PatchClaim? || pc.DropPod?
  }

  lemma ClaimKeepsPlans(w: World, df: nat, dp: nat, c: Choice)
    requires PlanInv(w) && BusyOk(w) && Claims(w.pc)
    ensures PlanInv(TaskNext(w, df, dp, c))
  {
    QuietKeeps(w, TaskNext(w, df, dp, c));
  }

  lemma PodStepKeepsPlans(w: World, df: nat, dp: nat, c: Choice)
    requires PlanInv(w) && BusyOk(w)
    requires w.pc.GetPod? || w.pc.ClearGet? || w.pc.ClearPut? || w.pc.PurgeList? || w.pc.PurgeDelete?
    ensures PlanInv(TaskNext(w, df, dp, c))
  {
    QuietKeeps(w, TaskNext(w, df, dp, c));
  }

  lemma TaskStepKeeps(w: World, df: nat, dp: nat, c: Choice)
    requires PlanInv(w) && BusyOk(w)
    ensures PlanInv(TaskNext(w, df, dp, c)) && BusyOk(TaskNext(w, df, dp, c))
  {
    TaskStaysBusy(w, df, dp, c);
    match w.pc
    case ListObjects(target, job) => ListObjectsKeeps(w, target, job, c);
    case CreateObject(target, job) => CreateObjectKeeps(w, target, job, c);
    case UpdateObject(target, job, read) => UpdateObjectKeeps(w, target, job, read, c);
    case UpdateObjectStatus(target, job, v) => UpdateObjectStatusKeeps(w, target, job, v, c);
    case _ =>
      if ReadsOrStores(w.pc) {
        ReadOrStoreKeeps(w, df, dp, c);
      } else if Claims(w.pc) {
        ClaimKeepsPlans(w, df, dp, c);
      } else {
        PodStepKeepsPlans(w, df, dp, c);
      }
  }

  // ----- Users -----

  predicate ByUser(e: Event, target: Target)
  {
    e == ReviewPlan(target) || e == ApprovePlan(target) || e == PatchApproval(target) || e == RevokePlan(target)
  }

  /** No user touches a plan, and an approval records the plan it finds. */
  lemma UserKeeps(w: World, target: Target, e: Event)
    requires PlanInv(w) && BusyOk(w) && ByUser(e, target)
    ensures PlanInv(WorldNext(w, 0, 0, e)) && BusyOk(WorldNext(w, 0, 0, e))
  {
    var w' := WorldNext(w, 0, 0, e);
    UserTouches(w, target, e);
    SamePlansKeep(w, w', target, PublishedAs(w', target));
  }

  /** The user changes one published object, and not its plan. */
  lemma UserTouches(w: World, target: Target, e: Event)
    requires PublishedOk(PublishedAs(w, target)) && ByUser(e, target)
    ensures var w' := WorldNext(w, 0, 0, e); var p, p' := PublishedAs(w, target), PublishedAs(w', target);
      && w' == WithPublished(w, target, p') && PublishedOk(p') && SamePlans(p, p')
  {
  }

  predicate SamePlans(p: Published, p': Published)
  {
    |p'.objects| == |p.objects| && (p.objects != [] ==> p'.objects[0].plan == p.objects[0].plan)
  }

  lemma SamePlansKeep(w: World, w': World, target: Target, p': Published)
    requires PlanInv(w) && BusyOk(w) && w' == WithPublished(w, target, p')
    requires PublishedOk(p') && SamePlans(PublishedAs(w, target), p')
    ensures PlanInv(w') && BusyOk(w')
  {
    assert forall plan :: Carries(w.atlas, plan) ==> Carries(w'.atlas, plan);
    assert forall plan :: Carries(w.mesh, plan) ==> Carries(w'.mesh, plan);
  }

  lemma WorldStepKeepsPlans(w: World, df: nat, dp: nat, e: Event)
    requires PlanInv(w) && BusyOk(w)
    ensures PlanInv(WorldNext(w, df, dp, e)) && BusyOk(WorldNext(w, df, dp, e))
  {
    match e
    case TaskStep(c) => TaskStepKeeps(w, df, dp, c);
    case ReviewPlan(target) => UserKeeps(w, target, e);
    case ApprovePlan(target) => UserKeeps(w, target, e);
    case PatchApproval(target) => UserKeeps(w, target, e);
    case RevokePlan(target) => UserKeeps(w, target, e);
    case _ => ClusterKeepsPlans(w, df, dp, e);
  }

  /** Everybody else touches pods only, or ends the reconcile. */
  lemma OtherWorldEvent(w: World, df: nat, dp: nat, e: Event)
    requires !e.TaskStep? && !ByUser(e, Atlas) && !ByUser(e, AtlasMesh)
    ensures var w' := WorldNext(w, df, dp, e); w' == w.(pods := w'.pods) || w' == Return(w)
  {
  }

  lemma ClusterKeepsPlans(w: World, df: nat, dp: nat, e: Event)
    requires PlanInv(w) && BusyOk(w) && !e.TaskStep? && !ByUser(e, Atlas) && !ByUser(e, AtlasMesh)
    ensures PlanInv(WorldNext(w, df, dp, e)) && BusyOk(WorldNext(w, df, dp, e))
  {
    var w' := WorldNext(w, df, dp, e);
    OtherWorldEvent(w, df, dp, e);
    if w' == Return(w) { ReturnKeeps(w); } else { PodsDoNotMatter(w, w'.pods); }
  }

  lemma PodsDoNotMatter(w: World, pods: map<string, Pod>)
    requires PlanInv(w) && BusyOk(w)
    ensures PlanInv(w.(pods := pods)) && BusyOk(w.(pods := pods))
  {
  }

  lemma WriterKeepsPlans(s: State, side: Side, fault: Fault)
    requires PlanInv(s.world) && BusyOk(s.world)
    ensures PlanInv(StepWriter(s, side, fault).world) && BusyOk(StepWriter(s, side, fault).world)
  {
    WriterKeepsOther(s.key, side, WriterOf(s, side), s.world.task, fault);
    var w' := StepWriter(s, side, fault).world;
    assert w' == s.world.(task := w'.task);
    assert forall plan :: StoredPlan(s.world, plan) ==> StoredPlan(w', plan);
    QuietKeeps(s.world, w');
  }

  lemma {:induction false} RunKeepsPlans(s: State, es: seq<Event>)
    requires Init(s)
    ensures PlanInv(Run(s, es).world) && BusyOk(Run(s, es).world)
  {
    if es != [] {
      var before, e := Run(s, es[..|es| - 1]), es[|es| - 1];
      RunKeepsPlans(s, es[..|es| - 1]);
      if e.WriterStep? {
        WriterKeepsPlans(before, e.side, e.fault);
      } else if !e.EditPolicy? && !e.WriterCrash? {
        WorldStepKeepsPlans(before.world, before.df.policy, before.dp.policy, e);
      }
    }
  }

  /**
   In every run: there is never a second Atlas or AtlasMesh, so the "multiple found" errors do not
   occur, and an approved one still carries the plan it had when it was approved.
   */
  lemma ApprovalIsForThePlan(s: State, es: seq<Event>, target: Target)
    requires Init(s)
    ensures var os := ObjectsOf(Run(s, es).world, target);
            |os| <= 1 && forall o | o in os && o.approve :: o.plan == o.approved
  {
    RunKeepsPlans(s, es);
  }

  // ----- Approved and reviewed plans -----

  /** An approved object carries the plan its approver had read. */
  predicate ReviewedOk(p: Published)
  {
    p.objects != [] && p.objects[0].approve ==> p.objects[0].plan == p.objects[0].reviewed
  }

  lemma StepKeepsReviewed(s: State, e: Event, target: Target)
    requires PlanInv(s.world) && ReviewedOk(PublishedAs(s.world, target)) && e != PatchApproval(target)
    ensures ReviewedOk(PublishedAs(Step(s, e).world, target))
  {
    if e.TaskStep? && (s.world.pc.CreateObject? || s.world.pc.UpdateObject? || s.world.pc.UpdateObjectStatus?) {
      PushKeepsReviewed(s.world, e.choice, target);
    } else if ByUser(e, Atlas) || ByUser(e, AtlasMesh) {
      UserKeepsReviewed(s.world, e, target);
    } else {
      OthersKeepObjects(s, e, target);
    }
  }

  lemma PushKeepsReviewed(w: World, c: Choice, target: Target)
    requires PlanInv(w) && ReviewedOk(PublishedAs(w, target))
        && (w.pc.CreateObject? || w.pc.UpdateObject? || w.pc.UpdateObjectStatus?)
    ensures ReviewedOk(PublishedAs(TaskNext(w, 0, 0, c), target))
  {
  }

  lemma UserKeepsReviewed(w: World, e: Event, target: Target)
    requires PlanInv(w) && ReviewedOk(PublishedAs(w, target)) && e != PatchApproval(target)
    requires ByUser(e, Atlas) || ByUser(e, AtlasMesh)
    ensures ReviewedOk(PublishedAs(WorldNext(w, 0, 0, e), target))
  {
  }

  lemma OthersKeepObjects(s: State, e: Event, target: Target)
    requires !(e.TaskStep? && (s.world.pc.CreateObject? || s.world.pc.UpdateObject? || s.world.pc.UpdateObjectStatus?))
    requires !ByUser(e, Atlas) && !ByUser(e, AtlasMesh)
    ensures PublishedAs(Step(s, e).world, target) == PublishedAs(s.world, target)
  {
  }

  /** In every run without patched approvals, an approved object carries the plan its approver had read. */
  lemma ApprovedPlanIsReviewedPlan(s: State, es: seq<Event>, target: Target)
    requires Init(s) && PatchApproval(target) !in es
    ensures forall o | o in ObjectsOf(Run(s, es).world, target) && o.approve :: o.plan == o.reviewed
  {
    RunKeepsPlans(s, es);
    RunKeepsReviewed(s, es, target);
  }

  lemma {:induction false} RunKeepsReviewed(s: State, es: seq<Event>, target: Target)
    requires Init(s) && PatchApproval(target) !in es
    ensures ReviewedOk(PublishedAs(Run(s, es).world, target))
  {
    if es != [] {
      var before, e := es[..|es| - 1], es[|es| - 1];
      assert e in es && forall x | x in before :: x in es;
      RunKeepsReviewed(s, before, target);
      RunKeepsPlans(s, before);
      StepKeepsReviewed(Run(s, before), e, target);
    }
  }

  /** The step installs another plan. */
  predicate UpdatesPlan(w: World, e: Event, target: Target)
  {
    && e.TaskStep? && w.pc.UpdateObject? && w.pc.target == target && !Refused(e.choice.fault)
    && ObjectsOf(w, target) != [] && ObjectsOf(w, target)[0].version == w.pc.read.version
  }

  /** The plan that the last update of the run has installed, or `read` if there was none. */
  function LastPlan(s: State, es: seq<Event>, target: Target, read: Plan): Plan
  {
    if es == [] then read
    else
      var w := Run(s, es[..|es| - 1]).world;
      if UpdatesPlan(w, es[|es| - 1], target) then w.pc.job.plan else LastPlan(s, es[..|es| - 1], target, read)
  }

  /** The plan of the object after a step. */
  function PlanAfter(w: World, e: Event, target: Target): Plan
    requires ObjectsOf(w, target) != []
  {
    if UpdatesPlan(w, e, target) then w.pc.job.plan else ObjectsOf(w, target)[0].plan
  }

  /** The review and the object stay, and only an update touches the plan. */
  predicate ReviewKept(w: World, e: Event, target: Target, w': World)
    requires ObjectsOf(w, target) != []
  {
    var p, p' := PublishedAs(w, target), PublishedAs(w', target);
    p'.objects != [] && p'.review == p.review && p'.objects[0].plan == PlanAfter(w, e, target)
  }

  /** Between a review and the next, every step keeps it. */
  lemma StepKeepsReview(s: State, e: Event, target: Target)
    requires PlanInv(s.world) && ObjectsOf(s.world, target) != [] && e != ReviewPlan(target)
    ensures ReviewKept(s.world, e, target, Step(s, e).world)
  {
    if e.TaskStep? && (s.world.pc.CreateObject? || s.world.pc.UpdateObject? || s.world.pc.UpdateObjectStatus?) {
      PushKeepsReview(s.world, e, target);
    } else if ByUser(e, Atlas) || ByUser(e, AtlasMesh) {
      UserKeepsReview(s.world, e, target);
    } else {
      OthersKeepObjects(s, e, target);
    }
  }

  lemma UserKeepsReview(w: World, e: Event, target: Target)
    requires ObjectsOf(w, target) != [] && e != ReviewPlan(target) && (ByUser(e, Atlas) || ByUser(e, AtlasMesh))
    ensures ReviewKept(w, e, target, WorldNext(w, 0, 0, e))
  {
  }

  lemma PushKeepsReview(w: World, e: Event, target: Target)
    requires PlanInv(w) && ObjectsOf(w, target) != [] && e.TaskStep?
    requires w.pc.CreateObject? || w.pc.UpdateObject? || w.pc.UpdateObjectStatus?
    ensures ReviewKept(w, e, target, TaskNext(w, 0, 0, e.choice))
  {
  }

  lemma {:induction false} ReviewStays(s: State, a: seq<Event>, b: seq<Event>, target: Target)
    requires Init(s) && ObjectsOf(Run(s, a).world, target) != [] && ReviewPlan(target) !in b
    ensures var p, p' := PublishedAs(Run(s, a).world, target), PublishedAs(Run(s, a + b).world, target);
            && p'.objects != [] && p'.review == p.review
            && p'.objects[0].plan == LastPlan(Run(s, a), b, target, p.objects[0].plan)
  {
    if b == [] {
      assert a + b == a;
    } else {
      var before, e := b[..|b| - 1], b[|b| - 1];
      assert e in b && forall x | x in before :: x in b;
      ReviewStays(s, a, before, target);
      RunKeepsPlans(s, a + before);
      assert a + b == (a + before) + [e];
      More(s, a + before, Run(s, a + before), e);
      RunInParts(s, a, before);
      StepKeepsReview(Run(s, a + before), e, target);
    }
  }

  /**
   Exactly when a patched approval is for the plan that was read: after the events `a` a user reads the
   plan, does not read it again, and after `b` sends an approval without a version. The object is then
   approved with the plan that the last update among `b` installed; so the approval is for the plan that
   was read if and only if there was no update or the last one brought that plan back.
   */
  lemma PatchedApprovalExact(s: State, a: seq<Event>, b: seq<Event>, target: Target)
    requires Init(s) && ObjectsOf(Run(s, a).world, target) != [] && ReviewPlan(target) !in b
    ensures var read := ObjectsOf(Run(s, a).world, target)[0].plan;
            var last := LastPlan(Run(s, a + [ReviewPlan(target)]), b, target, read);
            var os := ObjectsOf(Run(s, a + [ReviewPlan(target)] + b + [PatchApproval(target)]).world, target);
            && os != [] && os[0].approve && os[0].plan == os[0].approved == last && os[0].reviewed == read
            && (os[0].plan == os[0].reviewed <==> last == read)
  {
    var reviewed := a + [ReviewPlan(target)];
    More(s, a, Run(s, a), ReviewPlan(target));
    ReviewStays(s, reviewed, b, target);
    More(s, reviewed + b, Run(s, reviewed + b), PatchApproval(target));
  }

  /** A complete task without a result whose pod has finished. */
  predicate PodFinished(w: World)
  {
    && w.pc == Idle && BothSet(w.task) && w.task.value.status.result == ""
    && PodRef(w) != "" && PodRef(w) in w.pods && w.pods[PodRef(w)].phase == Succeeded
  }

  /** Three undisturbed calls take a reconcile of such a task to its pod. */
  lemma GoToPod(s: State, es: seq<Event>, t: State) returns (es': seq<Event>)
    requires t == Run(s, es) && PodFinished(t.world)
    ensures Run(s, es') == t.(world := t.world.(pc := GetPod(t.world.task.value, t.df.policy, t.dp.policy),
        outcome := Busy))
  {
    var w, task := t.world.(outcome := Busy), t.world.task.value;
    More(s, es, t, TaskStep(NO_TROUBLE));
    es' := es + [TaskStep(NO_TROUBLE)];
    More(s, es', t.(world := w.(pc := GetDataflow(task))), TaskStep(NO_TROUBLE));
    es' := es' + [TaskStep(NO_TROUBLE)];
    More(s, es', t.(world := w.(pc := GetDeployment(task, t.df.policy))), TaskStep(NO_TROUBLE));
    es' := es' + [TaskStep(NO_TROUBLE)];
  }

  lemma PodIsRead(w: World, t: Task, df: nat, dp: nat)
    requires w.pc == GetPod(t, df, dp) && t.status.podRef in w.pods && w.pods[t.status.podRef].phase == Succeeded
    ensures TaskNext(w, df, dp, NO_TROUBLE) == w.(pc := ReadPlan(t, df, dp))
  {
  }

  /** Two more take it to the Atlas, with the plan in the pod's log. */
  lemma GoToAtlas(s: State, es: seq<Event>, t: State, plan: Plan) returns (es': seq<Event>, job: Job)
    requires t == Run(s, es) && PodFinished(t.world) && plan.components != []
    ensures Run(s, es') == t.(world := t.world.(pc := ListObjects(Atlas, job), outcome := Busy)) && job.plan == plan
  {
    var w, task, df, dp := t.world.(outcome := Busy), t.world.task.value, t.df.policy, t.dp.policy;
    es' := GoToPod(s, es, t);
    PodIsRead(w.(pc := GetPod(task, df, dp)), task, df, dp);
    More(s, es', t.(world := w.(pc := GetPod(task, df, dp))), TaskStep(NO_TROUBLE));
    es' := es' + [TaskStep(NO_TROUBLE)];
    job := Job(plan, Some(WithResult(task, plan, df, dp)));
    More(s, es', t.(world := w.(pc := ReadPlan(task, df, dp))), TaskStep(NO_TROUBLE.(plan := plan)));
    es' := es' + [TaskStep(NO_TROUBLE.(plan := plan))];
  }

  /** A pod of the task has finished, and a reconcile has created an Atlas with the plan it left, and crashed. */
  lemma FirstAtlas(s: State, plan: Plan) returns (es: seq<Event>, t: State)
    requires Init(s) && plan.components != []
    ensures Run(s, es) == t && PodFinished(t.world) && t.world.atlas.objects == [NewObject(plan)]
    ensures t.world.mesh.objects == []
  {
    es, t := ClaimedPod(s);
    More(s, es, t, SetPhase("a", Succeeded));
    es := es + [SetPhase("a", Succeeded)];
    t := Run(s, es);
    var job;
    es, job := GoToAtlas(s, es, t, plan);
    var w := t.world.(pc := ListObjects(Atlas, job), outcome := Busy);
    CreatesAtlas(w, t.df.policy, t.dp.policy, job);
    es := TwoCallsAndCrash(s, es, t.(world := w));
    t := Run(s, es);
  }

  function TwoMore(w: World, df: nat, dp: nat): World
  {
    TaskNext(TaskNext(w, df, dp, NO_TROUBLE), df, dp, NO_TROUBLE)
  }

  /** Two undisturbed calls, and a crash. */
  lemma TwoCallsAndCrash(s: State, es: seq<Event>, t: State) returns (es': seq<Event>)
    requires t == Run(s, es)
    ensures Run(s, es') == t.(world := Return(TwoMore(t.world, t.df.policy, t.dp.policy)))
  {
    es' := TwoCalls(s, es, t);
    More(s, es', Run(s, es'), TaskCrash);
    es' := es' + [TaskCrash];
  }

  lemma TwoCalls(s: State, es: seq<Event>, t: State) returns (es': seq<Event>)
    requires t == Run(s, es)
    ensures Run(s, es') == t.(world := TwoMore(t.world, t.df.policy, t.dp.policy))
  {
    es' := es + [TaskStep(NO_TROUBLE)];
    More(s, es, t, TaskStep(NO_TROUBLE));
    More(s, es', Run(s, es'), TaskStep(NO_TROUBLE));
    es' := es' + [TaskStep(NO_TROUBLE)];
  }

  lemma CreatesAtlas(w: World, df: nat, dp: nat, job: Job)
    requires w.pc == ListObjects(Atlas, job) && w.atlas.objects == []
    ensures var w' := TwoMore(w, df, dp);
            w' == w.(atlas := w.atlas.(objects := [NewObject(job.plan)]), pc := ListObjects(AtlasMesh, job))
  {
    assert TaskNext(w, df, dp, NO_TROUBLE) == w.(pc := CreateObject(Atlas, job));
  }

  lemma OverwritesAtlas(w: World, df: nat, dp: nat, job: Job, o: PlanObject)
    requires w.pc == ListObjects(Atlas, job) && w.atlas.objects == [o] && o.plan != job.plan
    ensures TwoMore(w, df, dp).atlas
         == w.atlas.(objects := [o.(plan := job.plan, approve := false, version := o.version + 1)])
  {
    assert TaskNext(w, df, dp, NO_TROUBLE) == w.(pc := UpdateObject(Atlas, job, o));
  }

  /** Then a user has read that plan. */
  lemma ReviewedAtlas(s: State, plan: Plan) returns (es: seq<Event>, t: State)
    requires Init(s) && plan.components != []
    ensures Run(s, es) == t && PodFinished(t.world)
    ensures t.world.atlas == Published([NewObject(plan)], Some(Review(plan, 1)))
  {
    es, t := FirstAtlas(s, plan);
    More(s, es, t, ReviewPlan(Atlas));
    es := es + [ReviewPlan(Atlas)];
    t := Run(s, es);
  }

  lemma PatchApproves(w: World, o: PlanObject, read: Plan)
    requires w.atlas.objects == [o] && w.atlas.review.Some? && w.atlas.review.value.plan == read
    ensures ObjectsOf(WorldNext(w, 0, 0, PatchApproval(Atlas)), Atlas) == [Approved(o, read)]
  {
  }

  /** A run in which a user reads `plan`, the controller installs `later`, and the user's patch approves `later`. */
  lemma PatchApprovesUnreadPlan(s: State, plan: Plan, later: Plan) returns (es: seq<Event>)
    requires Init(s) && plan.components != [] && later.components != [] && plan != later
    ensures var os := ObjectsOf(Run(s, es).world, Atlas);
            |os| == 1 && os[0].approve && os[0].plan == later && os[0].reviewed == plan
  {
    var t, job;
    es, t := ReviewedAtlas(s, plan);
    es, job := GoToAtlas(s, es, t, later);
    var w, o := t.world.(pc := ListObjects(Atlas, job), outcome := Busy), NewObject(plan);
    OverwritesAtlas(w, t.df.policy, t.dp.policy, job, o);
    es := TwoCalls(s, es, t.(world := w));
    PatchApproves(Run(s, es).world, o.(plan := later, approve := false, version := 2), plan);
    More(s, es, Run(s, es), PatchApproval(Atlas));
    es := es + [PatchApproval(Atlas)];
  }

  /** In every run: after a clean return, Atlas, AtlasMesh and the task status carry one plan. */
  lemma CleanReturnAgrees(s: State, es: seq<Event>)
    requires Init(s) && Run(s, es).world.outcome.Ensured?
    ensures var w := Run(s, es).world;
            && Carries(w.atlas, w.outcome.plan) && Carries(w.mesh, w.outcome.plan) && StoredPlan(w, w.outcome.plan)
  {
    RunKeepsPlans(s, es);
  }
}
