/**
 How the task controller recovers: wherever earlier attempts stopped, one undisturbed reconcile of a task
 whose result is stored, or whose pod has finished, brings one plan to all three places. A pod that has
 failed is waited for.
 */
module Recovery {
  import opened Wrappers
  import opened Protocol
  import opened TwoWriters
  import opened PodClaim
  import opened Approval

  /** Nothing goes wrong, and the log of a finished pod holds `log`. */
  function Untroubled(log: Plan): Choice
  {
    NO_TROUBLE.(plan := log)
  }

  /** `n` calls of the task controller, none of which fails and none of which is disturbed. */
  function Undisturbed(w: World, df: nat, dp: nat, log: Plan, n: nat): World
    decreases n
  {
    if n == 0 then w else Undisturbed(TaskNext(w, df, dp, Untroubled(log)), df, dp, log, n - 1)
  }

  lemma {:induction false} UndisturbedAdds(w: World, df: nat, dp: nat, log: Plan, m: nat, n: nat)
    ensures Undisturbed(w, df, dp, log, m + n) == Undisturbed(Undisturbed(w, df, dp, log, m), df, dp, log, n)
    decreases m
  {
    if m > 0 {
      UndisturbedAdds(TaskNext(w, df, dp, Untroubled(log)), df, dp, log, m - 1, n);
    }
  }

  lemma OneCall(w: World, df: nat, dp: nat, log: Plan)
    ensures Undisturbed(w, df, dp, log, 1) == TaskNext(w, df, dp, Untroubled(log))
  {
    assert Undisturbed(TaskNext(w, df, dp, Untroubled(log)), df, dp, log, 0) == TaskNext(w, df, dp, Untroubled(log));
  }

  // ----- Pushing a plan -----

  function OtherTarget(target: Target): Target
  {
    if target == Atlas then AtlasMesh else Atlas
  }

  /** What is left once one object has been dealt with. */
  predicate Pushed(w: World, w': World, target: Target, job: Job)
  {
    && Carries(PublishedAs(w', target), job.plan)
    && PublishedAs(w', OtherTarget(target)) == PublishedAs(w, OtherTarget(target))
    && w'.task == w.task && w'.pods == w.pods
    && w'.pc == Next(w', target, job).pc && w'.outcome == Next(w, target, job).outcome
  }

  lemma PushCreates(w: World, df: nat, dp: nat, log: Plan, target: Target, job: Job)
    requires w.pc == ListObjects(target, job) && ObjectsOf(w, target) == []
    ensures Pushed(w, Undisturbed(w, df, dp, log, 2), target, job)
  {
    var w1 := TaskNext(w, df, dp, Untroubled(log));
    assert w1 == w.(pc := CreateObject(target, job));
    OneCall(w1, df, dp, log);
    assert TaskNext(w1, df, dp, Untroubled(log)) == Next(WithObjects(w1, target, [NewObject(job.plan)]), target, job);
  }

  lemma PushUpdates(w: World, df: nat, dp: nat, log: Plan, target: Target, job: Job)
    requires w.pc == ListObjects(target, job) && |ObjectsOf(w, target)| == 1 && ObjectsOf(w, target)[0].plan != job.plan
    ensures Pushed(w, Undisturbed(w, df, dp, log, 3), target, job)
  {
    var o, w1 := ObjectsOf(w, target)[0], TaskNext(w, df, dp, Untroubled(log));
    assert w1 == w.(pc := UpdateObject(target, job, o));
    var w2, o2 := TaskNext(w1, df, dp, Untroubled(log)),
        o.(plan := job.plan, approve := false, version := o.version + 1);
    assert w2 == WithObjects(w, target, [o2]).(pc := UpdateObjectStatus(target, job, o2.version)) by {
      assert [o][0 := o2] == [o2] && ObjectsOf(w, target) == [o];
    }
    OneCall(w2, df, dp, log);
    PushConfirms(w2, df, dp, log, target, job);
    assert Undisturbed(w, df, dp, log, 3) == Undisturbed(w1, df, dp, log, 2) == Undisturbed(w2, df, dp, log, 1);
  }

  /** The status update that follows the update of the object. */
  lemma PushConfirms(w: World, df: nat, dp: nat, log: Plan, target: Target, job: Job)
    requires Carries(PublishedAs(w, target), job.plan)
    requires w.pc == UpdateObjectStatus(target, job, ObjectsOf(w, target)[0].version)
    ensures Pushed(w, TaskNext(w, df, dp, Untroubled(log)), target, job)
  {
    var os := ObjectsOf(w, target);
    var os' := os[0 := os[0].(version := os[0].version + 1)];
    assert TaskNext(w, df, dp, Untroubled(log)) == Next(WithObjects(w, target, os'), target, job);
  }

  /** Whatever an earlier attempt left behind, pushing a plan to one object takes at most three calls. */
  lemma PushTakes(w: World, df: nat, dp: nat, log: Plan, target: Target, job: Job) returns (n: nat)
    requires w.pc == ListObjects(target, job) && |ObjectsOf(w, target)| <= 1
    ensures 1 <= n <= 3 && Pushed(w, Undisturbed(w, df, dp, log, n), target, job)
  {
    if ObjectsOf(w, target) == [] {
      PushCreates(w, df, dp, log, target, job);
      n := 2;
    } else if ObjectsOf(w, target)[0].plan == job.plan {
      OneCall(w, df, dp, log);
      n := 1;
    } else {
      PushUpdates(w, df, dp, log, target, job);
      n := 3;
    }
  }

  lemma PushBoth(w: World, df: nat, dp: nat, log: Plan, job: Job) returns (n: nat)
    requires w.pc == ListObjects(Atlas, job) && |w.atlas.objects| <= 1 && |w.mesh.objects| <= 1
    ensures n <= 6
    ensures var w' := Undisturbed(w, df, dp, log, n);
            && Carries(w'.atlas, job.plan) && Carries(w'.mesh, job.plan) && w'.task == w.task
            && w'.pc == Next(w, AtlasMesh, job).pc && w'.outcome == Next(w, AtlasMesh, job).outcome
  {
    var a := PushTakes(w, df, dp, log, Atlas, job);
    var b := PushTakes(Undisturbed(w, df, dp, log, a), df, dp, log, AtlasMesh, job);
    UndisturbedAdds(w, df, dp, log, a, b);
    n := a + b;
  }

  // ----- From idle to the push -----

  /** A result for the policies as they are has been stored. */
  predicate Solved(w: World, df: nat, dp: nat)
  {
    && w.task.Some? && w.task.value.status.result != ""
    && w.task.value.status.dfVersion == df && w.task.value.status.dpVersion == dp
  }

  /** The pod that the task names is there in the given phase. */
  predicate NamedPodIs(w: World, phase: Phase)
  {
    PodRef(w) != "" && PodRef(w) in w.pods && w.pods[PodRef(w)].phase == phase
  }

  lemma GoesToDeployment(w: World, df: nat, dp: nat, log: Plan)
    requires w.pc == Idle && BothSet(w.task)
    ensures Undisturbed(w, df, dp, log, 2) == w.(pc := GetDeployment(w.task.value, df), outcome := Busy)
  {
    var w1 := w.(pc := GetDataflow(w.task.value), outcome := Busy);
    assert TaskNext(w, df, dp, Untroubled(log)) == w1;
    OneCall(w1, df, dp, log);
  }

  /** The job of a reconcile that has a plan to push: the stored one, or the one that the pod has left. */
  function JobOf(w: World, df: nat, dp: nat, log: Plan): Job
    requires w.task.Some?
  {
    if Solved(w, df, dp) then Job(w.task.value.status.plan, None)
    else Job(log, Some(WithResult(w.task.value, log, df, dp)))
  }

  lemma SolvedGoesToAtlas(w: World, df: nat, dp: nat, log: Plan)
    requires w.pc == Idle && BothSet(w.task) && Solved(w, df, dp)
    ensures Undisturbed(w, df, dp, log, 3) == w.(pc := ListObjects(Atlas, JobOf(w, df, dp, log)), outcome := Busy)
  {
    var w2 := w.(pc := GetDeployment(w.task.value, df), outcome := Busy);
    GoesToDeployment(w, df, dp, log);
    UndisturbedAdds(w, df, dp, log, 2, 1);
    OneCall(w2, df, dp, log);
  }

  lemma GoesToPod(w: World, df: nat, dp: nat, log: Plan)
    requires w.pc == Idle && BothSet(w.task) && !Solved(w, df, dp) && PodRef(w) != ""
    ensures Undisturbed(w, df, dp, log, 3) == w.(pc := GetPod(w.task.value, df, dp), outcome := Busy)
  {
    var w2 := w.(pc := GetDeployment(w.task.value, df), outcome := Busy);
    GoesToDeployment(w, df, dp, log);
    UndisturbedAdds(w, df, dp, log, 2, 1);
    OneCall(w2, df, dp, log);
  }

  lemma FinishedPodGoesToAtlas(w: World, df: nat, dp: nat, log: Plan)
    requires w.pc == Idle && BothSet(w.task) && !Solved(w, df, dp) && NamedPodIs(w, Succeeded) && log.components != []
    ensures Undisturbed(w, df, dp, log, 5) == w.(pc := ListObjects(Atlas, JobOf(w, df, dp, log)), outcome := Busy)
  {
    var t := w.task.value;
    var w3, w4 := w.(pc := GetPod(t, df, dp), outcome := Busy), w.(pc := ReadPlan(t, df, dp), outcome := Busy);
    GoesToPod(w, df, dp, log);
    UndisturbedAdds(w, df, dp, log, 3, 2);
    assert TaskNext(w3, df, dp, Untroubled(log)) == w4;
    OneCall(w4, df, dp, log);
  }

  /** The result is recorded with each policy's own version, as read, and marked a success. */
  predicate Recorded(w: World, plan: Plan, df: nat, dp: nat)
  {
    && w.task.Some? && w.task.value.status.plan == plan && w.task.value.status.result == "Success"
    && w.task.value.status.dfVersion == df && w.task.value.status.dpVersion == dp
  }

  /** The status that is stored last carries the version that was read first. */
  lemma StoresResult(w: World, df: nat, dp: nat, log: Plan)
    requires w.task.Some? && log.components != []
    requires w.pc == StoreStatus(WithResult(w.task.value, log, df, dp), true)
    ensures var w' := TaskNext(w, df, dp, Untroubled(log));
            && w'.pc == Idle && w'.outcome == Ensured(log) && Recorded(w', log, df, dp)
            && w'.task.value.status.podRef == w.task.value.status.podRef
            && w'.task.value.df == w.task.value.df && w'.task.value.dp == w.task.value.dp
            && w'.atlas == w.atlas && w'.mesh == w.mesh && w'.pods == w.pods
  {
  }

  /** There is a plan to push: one that is stored, or one that a finished pod has left and that places something. */
  predicate HasPlan(w: World, df: nat, dp: nat, log: Plan)
  {
    Solved(w, df, dp) || (NamedPodIs(w, Succeeded) && log.components != [])
  }

  lemma {:induction false} PushedFromIdle(w: World, df: nat, dp: nat, log: Plan) returns (n: nat)
    requires w.pc == Idle && BothSet(w.task) && HasPlan(w, df, dp, log) && |w.atlas.objects| <= 1
        && |w.mesh.objects| <= 1
    ensures n <= 11
    ensures var job, w' := JobOf(w, df, dp, log), Undisturbed(w, df, dp, log, n);
            && Carries(w'.atlas, job.plan) && Carries(w'.mesh, job.plan) && w'.task == w.task
            && w'.pc == Next(w, AtlasMesh, job).pc
            && w'.outcome == Next(w.(outcome := Busy), AtlasMesh, job).outcome
  {
    var job := JobOf(w, df, dp, log);
    var m := if Solved(w, df, dp) then 3 else 5;
    if Solved(w, df, dp) {
      SolvedGoesToAtlas(w, df, dp, log);
    } else {
      FinishedPodGoesToAtlas(w, df, dp, log);
    }
    var k := PushBoth(w.(pc := ListObjects(Atlas, job), outcome := Busy), df, dp, log, job);
    UndisturbedAdds(w, df, dp, log, m, k);
    n := m + k;
  }

  /**
   In every run, wherever the attempts before it stopped, between the writes of the Atlas, the mesh and
   the status or anywhere else: if a result for the present policies is stored, or the pod that the task
   names has finished and left a plan that places something, then an undisturbed reconcile returns
   cleanly within twelve calls, with that plan in all three places, and the task is solved: the status
   carries the dataflow policy's version as the one and the deployment policy's as the other.
   */
  lemma UndisturbedReconcileRepairs(s: State, es: seq<Event>, log: Plan) returns (n: nat)
    requires Init(s)
    requires var t := Run(s, es);
             t.world.pc == Idle && BothSet(t.world.task) && HasPlan(t.world, t.df.policy, t.dp.policy, log)
    ensures n <= 12
    ensures var t := Run(s, es);
            var plan := if Solved(t.world, t.df.policy, t.dp.policy) then t.world.task.value.status.plan else log;
            var w' := Undisturbed(t.world, t.df.policy, t.dp.policy, log, n);
            && w'.pc == Idle && w'.outcome == Ensured(plan)
            && Carries(w'.atlas, plan) && Carries(w'.mesh, plan) && StoredPlan(w', plan)
            && BothSet(w'.task) && w'.task.value.status.result != ""
            && w'.task.value.status.dfVersion == t.df.policy && w'.task.value.status.dpVersion == t.dp.policy
  {
    var t := Run(s, es);
    var w, df, dp := t.world, t.df.policy, t.dp.policy;
    RunKeepsPlans(s, es);
    n := PushedFromIdle(w, df, dp, log);
    if !Solved(w, df, dp) {
      var w1 := Undisturbed(w, df, dp, log, n);
      StoresResult(w1, df, dp, log);
      UndisturbedAdds(w, df, dp, log, n, 1);
      OneCall(w1, df, dp, log);
      n := n + 1;
    }
  }

  predicate AsksPod(pc: TaskPc)
  {
    pc.GetPod? || pc.ReadPlan? || pc.ListPods? || pc.CreatePod?
  }

  /**
   A solved task is left alone: with both objects at the stored plan, an undisturbed reconcile only reads,
   returns cleanly after five calls with nothing changed, and never looks for a pod or at its log.
   */
  lemma SolvedIsLeftAlone(w: World, df: nat, dp: nat, log: Plan, k: nat)
    requires w.pc == Idle && BothSet(w.task) && w.task.value.status.result != ""
    requires w.task.value.status.dfVersion == df && w.task.value.status.dpVersion == dp
    requires Carries(w.atlas, w.task.value.status.plan) && Carries(w.mesh, w.task.value.status.plan) && k <= 5
    ensures !AsksPod(Undisturbed(w, df, dp, log, k).pc)
    ensures k == 5 ==> Undisturbed(w, df, dp, log, k) == w.(outcome := Ensured(w.task.value.status.plan))
  {
    var t, job := w.task.value, Job(w.task.value.status.plan, None);
    var w1 := w.(pc := GetDataflow(t), outcome := Busy);
    var w3, w4 := w1.(pc := ListObjects(Atlas, job)), w1.(pc := ListObjects(AtlasMesh, job));
    OneCall(w, df, dp, log);
    GoesToDeployment(w, df, dp, log);
    SolvedGoesToAtlas(w, df, dp, log);
    UndisturbedAdds(w, df, dp, log, 3, 1);
    OneCall(w3, df, dp, log);
    UndisturbedAdds(w, df, dp, log, 4, 1);
    OneCall(w4, df, dp, log);
  }

  /** So a finished pod is read once: after the reconcile that stores its plan, the next ones change nothing. */
  lemma ResultIsRecognised(s: State, es: seq<Event>, log: Plan, k: nat) returns (n: nat)
    requires Init(s) && k <= 5
    requires var t := Run(s, es);
             t.world.pc == Idle && BothSet(t.world.task) && HasPlan(t.world, t.df.policy, t.dp.policy, log)
    ensures n <= 12
    ensures var t := Run(s, es);
            var w' := Undisturbed(t.world, t.df.policy, t.dp.policy, log, n);
            && !AsksPod(Undisturbed(t.world, t.df.policy, t.dp.policy, log, n + k).pc)
            && (k == 5 ==> Undisturbed(t.world, t.df.policy, t.dp.policy, log, n + k) == w')
  {
    var t := Run(s, es);
    n := UndisturbedReconcileRepairs(s, es, log);
    var w' := Undisturbed(t.world, t.df.policy, t.dp.policy, log, n);
    SolvedIsLeftAlone(w', t.df.policy, t.dp.policy, log, k);
    UndisturbedAdds(t.world, t.df.policy, t.dp.policy, log, n, k);
  }

  // ----- What else a reconcile decides -----

  /** A plan that places nothing is recorded and pushed nowhere; it is no success by itself. */
  lemma EmptyPlanIsOnlyRecorded(w: World, df: nat, dp: nat, log: Plan)
    requires w.pc == Idle && BothSet(w.task) && !Solved(w, df, dp) && NamedPodIs(w, Succeeded) && log.components == []
    ensures var w' := Undisturbed(w, df, dp, log, 6);
            && w'.pc == Idle && w'.outcome == Returned && w'.atlas == w.atlas && w'.mesh == w.mesh && w'.pods == w.pods
            && StoredPlan(w', log) && w'.task.value.status.result == w.task.value.status.result
            && w'.task.value.status.dfVersion == df && w'.task.value.status.dpVersion == dp
  {
    var t := w.task.value;
    var w3, w4 := w.(pc := GetPod(t, df, dp), outcome := Busy), w.(pc := ReadPlan(t, df, dp), outcome := Busy);
    GoesToPod(w, df, dp, log);
    assert TaskNext(w3, df, dp, Untroubled(log)) == w4;
    OneCall(w3, df, dp, log);
    UndisturbedAdds(w, df, dp, log, 3, 1);
    EmptyPlanIsStored(w4, t, df, dp, log);
    UndisturbedAdds(w, df, dp, log, 4, 2);
  }

  lemma EmptyPlanIsStored(w: World, t: Task, df: nat, dp: nat, log: Plan)
    requires w.pc == ReadPlan(t, df, dp) && w.task == Some(t) && log.components == []
    ensures var w' := Undisturbed(w, df, dp, log, 2);
            && w'.pc == Idle && w'.outcome == Returned && w'.atlas == w.atlas && w'.mesh == w.mesh && w'.pods == w.pods
            && StoredPlan(w', log) && w'.task.value.status.result == t.status.result
            && w'.task.value.status.dfVersion == df && w'.task.value.status.dpVersion == dp
  {
    var w1 := w.(pc := StoreStatus(WithResult(t, log, df, dp), false));
    assert TaskNext(w, df, dp, Untroubled(log)) == w1;
    OneCall(w1, df, dp, log);
    assert Undisturbed(w, df, dp, log, 2) == Undisturbed(w1, df, dp, log, 1);
  }

  /** A pod that has vanished is forgotten: six undisturbed calls clear the reference and change nothing else. */
  lemma VanishedPodIsForgotten(w: World, df: nat, dp: nat, log: Plan)
    requires w.pc == Idle && BothSet(w.task) && !Solved(w, df, dp) && PodRef(w) != "" && PodRef(w) !in w.pods
    ensures var w' := Undisturbed(w, df, dp, log, 6);
            && w'.pc == Idle && PodRef(w') == "" && w'.pods == w.pods && w'.atlas == w.atlas && w'.mesh == w.mesh
            && BothSet(w'.task)
            && w'.task.value.status == w.task.value.status.(podRef := "")
  {
    var w3 := w.(pc := GetPod(w.task.value, df, dp), outcome := Busy);
    GoesToPod(w, df, dp, log);
    UndisturbedAdds(w, df, dp, log, 3, 3);
    ForgetsPod(w3, df, dp, log);
  }

  lemma ForgetsPod(w: World, df: nat, dp: nat, log: Plan)
    requires w.task.Some? && w.pc == GetPod(w.task.value, df, dp) && PodRef(w) !in w.pods
    ensures var w' := Undisturbed(w, df, dp, log, 3);
            && w'.pc == Idle && w'.pods == w.pods && w'.atlas == w.atlas && w'.mesh == w.mesh
            && w'.task.Some? && w'.task.value.df == w.task.value.df && w'.task.value.dp == w.task.value.dp
            && w'.task.value.status == w.task.value.status.(podRef := "")
  {
    var w1, w2 := w.(pc := ClearGet), w.(pc := ClearPut(w.task.value));
    assert TaskNext(w, df, dp, Untroubled(log)) == w1 && TaskNext(w1, df, dp, Untroubled(log)) == w2;
    OneCall(w2, df, dp, log);
    assert Undisturbed(w, df, dp, log, 3) == Undisturbed(w1, df, dp, log, 2) == Undisturbed(w2, df, dp, log, 1);
  }

  /** Policies of different applications stop the reconcile before anything is written, whatever is stored. */
  lemma DifferentAppsStop(w: World, df: nat, dp: nat, c: Choice)
    requires w.pc == Idle && BothSet(w.task) && !c.sameApp && c.fault == NoFault
    ensures TaskNext(TaskNext(TaskNext(w, df, dp, c), df, dp, c), df, dp, c) == w.(outcome := Returned)
  {
    var w1 := w.(pc := GetDataflow(w.task.value), outcome := Busy);
    var w2 := w1.(pc := GetDeployment(w.task.value, df));
    assert TaskNext(w, df, dp, c) == w1 && TaskNext(w1, df, dp, c) == w2;
  }

  /** A pod brought to a task that names one already is not claimed: it is terminated, and nothing else changes. */
  lemma SecondPodIsDropped(w: World, df: nat, dp: nat, log: Plan, pod: string)
    requires w.pc == GetForClaim(pod) && PodRef(w) != "" && pod in w.pods
    ensures Undisturbed(w, df, dp, log, 2)
         == w.(pods := w.pods[pod := w.pods[pod].(terminating := true)], pc := Idle, outcome := Returned)
  {
    var w1 := w.(pc := AlreadyClaimed(pod));
    assert TaskNext(w, df, dp, Untroubled(log)) == w1;
    OneCall(w1, df, dp, log);
  }

  /** Two objects of one kind stop the push: neither is touched, nor anything that would come after. */
  lemma TwoObjectsStop(w: World, df: nat, dp: nat, log: Plan, target: Target, job: Job)
    requires w.pc == ListObjects(target, job) && |ObjectsOf(w, target)| > 1
    ensures Undisturbed(w, df, dp, log, 1) == w.(pc := Idle, outcome := Returned)
  {
    OneCall(w, df, dp, log);
  }

  /** A run from nothing that crashes after the write of the Atlas and before that of the mesh, and what follows. */
  lemma CrashBetweenWrites(s: State, plan: Plan) returns (es: seq<Event>, n: nat)
    requires Init(s) && plan.components != []
    ensures var t := Run(s, es);
            && PodFinished(t.world) && Carries(t.world.atlas, plan) && t.world.mesh.objects == []
            && Undisturbed(t.world, t.df.policy, t.dp.policy, plan, n).outcome == Ensured(plan) && n <= 12
  {
    var t;
    es, t := FirstAtlas(s, plan);
    n := UndisturbedReconcileRepairs(s, es, plan);
  }

  // ----- A pod that fails -----

  lemma OneRoundOfPolling(w: World, df: nat, dp: nat, log: Plan, phase: Phase)
    requires w.pc == Idle && BothSet(w.task) && !Solved(w, df, dp) && NamedPodIs(w, phase) && phase != Succeeded
    ensures Undisturbed(w, df, dp, log, 4) == w.(outcome := Returned)
  {
    var w3 := w.(pc := GetPod(w.task.value, df, dp), outcome := Busy);
    GoesToPod(w, df, dp, log);
    UndisturbedAdds(w, df, dp, log, 3, 1);
    OneCall(w3, df, dp, log);
  }

  /**
   While the pod that the task names is there in any phase but Succeeded, Failed included, every
   reconcile that can read it returns after four calls and leaves everything as it was.
   */
  lemma {:induction false} PolledForEver(w: World, df: nat, dp: nat, log: Plan, phase: Phase, n: nat)
    requires w.pc == Idle && BothSet(w.task) && !Solved(w, df, dp) && NamedPodIs(w, phase) && phase != Succeeded
    ensures Undisturbed(w, df, dp, log, 4 * n) == if n == 0 then w else w.(outcome := Returned)
  {
    if n > 0 {
      PolledForEver(w, df, dp, log, phase, n - 1);
      UndisturbedAdds(w, df, dp, log, 4 * (n - 1), 4);
      OneRoundOfPolling(Undisturbed(w, df, dp, log, 4 * (n - 1)), df, dp, log, phase);
    }
  }

  /** A run from nothing to a failed pod: no number of reconciles changes anything. */
  lemma FailedPodIsPolled(s: State, log: Plan, n: nat) returns (es: seq<Event>)
    requires Init(s)
    ensures var t := Run(s, es);
            && NamedPodIs(t.world, Failed) && t.world.pc == Idle && t.world.task.value.status.result == ""
            && Undisturbed(t.world, t.df.policy, t.dp.policy, log, 4 * n).task == t.world.task
  {
    var t;
    es, t := ClaimedPod(s);
    More(s, es, t, SetPhase("a", Failed));
    es := es + [SetPhase("a", Failed)];
    t := Run(s, es);
    PolledForEver(t.world, t.df.policy, t.dp.policy, log, Failed, n);
  }

  predicate ResultOk(t: Task)
  {
    t.status.result == "" || t.status.result == "Success"
  }

  predicate CopyOk(pc: TaskPc)
  {
    match pc
    case GetDataflow(t) => ResultOk(t)
    case GetDeployment(t, _) => ResultOk(t)
    case GetPod(t, _, _) => ResultOk(t)
    case ReadPlan(t, _, _) => ResultOk(t)
    case StoreStatus(t, _) => ResultOk(t)
    case ClearPut(t) => ResultOk(t)
    case ListObjects(_, job) => job.finish.Some? ==> ResultOk(job.finish.value)
    case CreateObject(_, job) => job.finish.Some? ==> ResultOk(job.finish.value)
    case UpdateObject(_, job, _) => job.finish.Some? ==> ResultOk(job.finish.value)
    case UpdateObjectStatus(_, job, _) => job.finish.Some? ==> ResultOk(job.finish.value)
    case _ => true
  }

  predicate ResultsOk(w: World)
  {
    (w.task.Some? ==> ResultOk(w.task.value)) && CopyOk(w.pc)
  }

  lemma PushKeepsResults(w: World, df: nat, dp: nat, c: Choice)
    requires ResultsOk(w) && (w.pc.ListObjects? || w.pc.CreateObject? || w.pc.UpdateObject? || w.pc.UpdateObjectStatus?)
    ensures ResultsOk(TaskNext(w, df, dp, c))
  {
  }

  lemma TaskStepKeepsResults(w: World, df: nat, dp: nat, c: Choice)
    requires ResultsOk(w)
    ensures ResultsOk(TaskNext(w, df, dp, c))
  {
    if w.pc.ListObjects? || w.pc.CreateObject? || w.pc.UpdateObject? || w.pc.UpdateObjectStatus? {
      PushKeepsResults(w, df, dp, c);
    } else {
      OtherStepKeepsResults(w, df, dp, c);
    }
  }

  lemma OtherStepKeepsResults(w: World, df: nat, dp: nat, c: Choice)
    requires ResultsOk(w) && !w.pc.ListObjects? && !w.pc.CreateObject? && !w.pc.UpdateObject?
        && !w.pc.UpdateObjectStatus?
    ensures ResultsOk(TaskNext(w, df, dp, c))
  {
  }

  /** No run ever stores a result but "Success": the branch that would store "Infeasible" is never taken. */
  lemma {:induction false} OnlySuccessIsStored(s: State, es: seq<Event>)
    requires Init(s)
    ensures ResultsOk(Run(s, es).world)
  {
    if es != [] {
      var before, e := Run(s, es[..|es| - 1]), es[|es| - 1];
      OnlySuccessIsStored(s, es[..|es| - 1]);
      if e.WriterStep? {
        WriterKeepsOther(before.key, e.side, WriterOf(before, e.side), before.world.task, e.fault);
      } else if e.TaskStep? {
        TaskStepKeepsResults(before.world, before.df.policy, before.dp.policy, e.choice);
      }
    }
  }
}
