/**
 The policy and task controllers as they are written: calls to the API server in sequence, with
 early returns. Between any two calls the other controllers, the users and the cluster act, and each
 call may fail, or take effect and lose its answer. What happens is a run of the protocol's machine.
 */
module Controllers {
  import opened Wrappers
  import opened Protocol

  /** Whose calls are made. */
  datatype Actor = TaskController | PolicyController(side: Side)

  /** What the others do before a call, and how the call goes. */
  datatype Moment = Moment(others: seq<Event>, choice: Choice)

  /** What is left to the call: a name in a list or a name made up, and whether the retries are used up. */
  datatype Pick = Pick(pod: string, giveUp: bool)

  const NO_PICK := Pick("", false)

  predicate Acts(a: Actor, e: Event)
  {
    match a
    case TaskController => e.TaskStep? || e.TaskCrash?
    case PolicyController(side) => (e.WriterStep? || e.WriterCrash?) && e.side == side
  }

  function OthersOf(a: Actor, es: seq<Event>): seq<Event>
  {
    if es == [] then []
    else OthersOf(a, es[..|es| - 1]) + if Acts(a, es[|es| - 1]) then [] else [es[|es| - 1]]
  }

  /** The call as an event of the machine. */
  function Call(a: Actor, c: Choice, pick: Pick): Event
  {
    match a
    case TaskController => TaskStep(c.(pod := pick.pod, giveUp := pick.giveUp))
    case PolicyController(side) => WriterStep(side, c.fault)
  }

  /** Everything that has happened up to and including `|picks|` calls. */
  ghost function Script(a: Actor, fate: nat -> Moment, picks: seq<Pick>): seq<Event>
  {
    if picks == [] then []
    else
      var n := |picks| - 1;
      Script(a, fate, picks[..n]) + OthersOf(a, fate(n).others) + [Call(a, fate(n).choice, picks[n])]
  }

  /** The same, and what the others do before the next call. */
  ghost function Trace(a: Actor, fate: nat -> Moment, picks: seq<Pick>): seq<Event>
  {
    Script(a, fate, picks) + OthersOf(a, fate(|picks|).others)
  }

  /** `runs` is what the machine makes of a sequence of events. */
  ghost predicate RunsFrom(s: State, runs: seq<Event> -> State)
  {
    forall es {:trigger Run(s, es)} :: runs(es) == Run(s, es)
  }

  /** One call more. */
  lemma CallMade(s: State, runs: seq<Event> -> State, a: Actor, fate: nat -> Moment, picks: seq<Pick>, pick: Pick,
      before: State)
    requires RunsFrom(s, runs) && runs(Trace(a, fate, picks)) == before
    ensures runs(Script(a, fate, picks + [pick])) == Step(before, Call(a, fate(|picks|).choice, pick))
  {
    assert (picks + [pick])[..|picks|] == picks;
    var call := Call(a, fate(|picks|).choice, pick);
    More(s, Trace(a, fate, picks), Run(s, Trace(a, fate, picks)), call);
    assert Script(a, fate, picks + [pick]) == Trace(a, fate, picks) + [call];
  }

  /** Then the others act. */
  lemma OthersActed(s: State, runs: seq<Event> -> State, a: Actor, fate: nat -> Moment, picks: seq<Pick>, now: State)
    requires RunsFrom(s, runs) && runs(Script(a, fate, picks)) == now
    ensures var t := Run(now, OthersOf(a, fate(|picks|).others));
        runs(Trace(a, fate, picks)) == t && SameProgress(a, now, t)
  {
    assert now == Run(s, Script(a, fate, picks));
    RunInParts(s, Script(a, fate, picks), OthersOf(a, fate(|picks|).others));
    OthersKeepProgress(a, now, fate(|picks|).others);
  }

  /** What only the actor itself changes. */
  predicate SameProgress(a: Actor, s: State, s': State)
  {
    && s'.key == s.key
    && match a
       case TaskController => s'.world.pc == s.world.pc && s'.world.outcome == s.world.outcome
       case PolicyController(side) =>
         WriterOf(s', side).pc == WriterOf(s, side).pc && WriterOf(s', side).synced == WriterOf(s, side).synced
  }

  lemma OtherKeepsProgress(a: Actor, s: State, e: Event)
    requires !Acts(a, e)
    ensures SameProgress(a, s, Step(s, e))
  {
  }

  lemma {:induction false} OthersKeepProgress(a: Actor, s: State, es: seq<Event>)
    ensures SameProgress(a, s, Run(s, OthersOf(a, es)))
  {
    if es != [] {
      var before, e := es[..|es| - 1], es[|es| - 1];
      OthersKeepProgress(a, s, before);
      if Acts(a, e) {
        assert OthersOf(a, before) + [] == OthersOf(a, before);
      } else {
        More(s, OthersOf(a, before), Run(s, OthersOf(a, before)), e);
        OtherKeepsProgress(a, Run(s, OthersOf(a, before)), e);
      }
    }
  }

  /** The objects of one application on the API server, and one controller that calls it. */
  class ApiServer {
    const key: string
    const actor: Actor
    const fate: nat -> Moment
    ghost const start: State
    ghost const runs: seq<Event> -> State
    var df: Writer
    var dp: Writer
    var task: Option<Task>
    var pods: map<string, Pod>
    var atlas: Published
    var mesh: Published
    var pc: TaskPc
    var outcome: Outcome
    var clock: nat
    ghost var picks: seq<Pick>

    function Now(): State
      reads this
    {
      State(key, df, dp, World(task, pods, atlas, mesh, pc, outcome))
    }

    /** The machine has got to `s` by what has happened so far. */
    ghost predicate Reached(s: State)
      reads this
    {
      |picks| == clock && RunsFrom(start, runs) && runs(Trace(actor, fate, picks)) == s
    }

    ghost predicate Valid()
      reads this
    {
      Reached(Now())
    }

    /** A policy controller's own state. */
    function Own(): Writer
      requires actor.PolicyController?
      reads this
    {
      WriterOf(Now(), actor.side)
    }

    function Luck(): Choice
      reads this
    {
      fate(clock).choice
    }

    constructor (s: State, a: Actor, f: nat -> Moment)
      ensures Valid() && actor == a && fate == f && start == s && clock == 0
    {
      var t := Run(s, OthersOf(a, f(0).others));
      key, actor, fate, start, runs := t.key, a, f, s, es => Run(s, es);
      df, dp, task, pods, atlas, mesh := t.df, t.dp, t.world.task, t.world.pods, t.world.atlas, t.world.mesh;
      pc, outcome, clock, picks := t.world.pc, t.world.outcome, 0, [];
      assert Script(a, f, []) + OthersOf(a, f(0).others) == OthersOf(a, f(0).others);
    }

    method Install(t: State)
      modifies this`df, this`dp, this`task, this`pods, this`atlas, this`mesh, this`pc, this`outcome
      ensures Now() == t.(key := key)
    {
      df, dp, task, pods, atlas, mesh := t.df, t.dp, t.world.task, t.world.pods, t.world.atlas, t.world.mesh;
      pc, outcome := t.world.pc, t.world.outcome;
    }

    /** The answer to a call arrives, and the others act. */
    method Pass(ghost pick: Pick)
      requires |picks| == clock && RunsFrom(start, runs) && runs(Script(actor, fate, picks + [pick])) == Now()
      modifies this
      ensures Valid() && clock == old(clock) + 1 && SameProgress(actor, old(Now()), Now())
    {
      ghost var now := Now();
      clock, picks := clock + 1, picks + [pick];
      OthersActed(start, runs, actor, fate, picks, now);
      Install(Run(Now(), OthersOf(actor, fate(clock).others)));
    }

    /** The task controller goes on to its next call. */
    method Continue(ghost before: State, ghost pick: Pick, next: TaskPc)
      requires actor.TaskController? && Reached(before)
      requires Step(before, Call(actor, Luck(), pick)) == Now().(world := World(task, pods, atlas, mesh, next, Busy))
      modifies this
      ensures Valid() && clock == old(clock) + 1 && pc == next && outcome == Busy
    {
      CallMade(start, runs, actor, fate, picks, pick, before);
      pc, outcome := next, Busy;
      Pass(pick);
    }

    /** The task controller's reconcile ends. */
    method End(ghost before: State, ghost pick: Pick, how: Outcome)
      requires actor.TaskController? && Reached(before)
      requires Step(before, Call(actor, Luck(), pick)) == Now().(world := World(task, pods, atlas, mesh, Idle, how))
      modifies this
      ensures Valid() && clock == old(clock) + 1 && pc == Idle && outcome == how
    {
      CallMade(start, runs, actor, fate, picks, pick, before);
      pc, outcome := Idle, how;
      Pass(pick);
    }

    /** A policy controller goes on. */
    method Proceed(ghost before: State, next: WriterPc, synced: nat)
      requires actor.PolicyController? && Reached(before)
      requires Step(before, Call(actor, Luck(), NO_PICK))
          == WithWriter(Now(), actor.side, Own().(pc := next, synced := synced))
      modifies this
      ensures Valid() && clock == old(clock) + 1 && Own().pc == next && Own().synced == synced
    {
      CallMade(start, runs, actor, fate, picks, NO_PICK, before);
      if actor.side == Dataflow {
        df := df.(pc := next, synced := synced);
      } else {
        dp := dp.(pc := next, synced := synced);
      }
      Pass(NO_PICK);
    }

    // ----- Calls -----

    /** `None` if there is no task or the read fails. */
    method GetTask() returns (t: Option<Task>, err: bool)
      ensures err <==> Luck().fault != NoFault
      ensures t == if err then None else task
    {
      err := Luck().fault != NoFault;
      t := if err then None else task;
    }

    method CreateTask(t: Task) returns (err: bool)
      modifies this`task
      ensures task == if Refused(Luck().fault) || old(task).Some? then old(task) else Some(t)
      ensures err <==> Luck().fault != NoFault || old(task).Some?
    {
      if Refused(Luck().fault) || task.Some? {
        return true;
      }
      task := Some(t);
      err := Luck().fault == Lost;
    }

    /** A merge patch of one reference: the fields that differ from the copy are sent. */
    method PatchTask(side: Side, orig: Task, wanted: Ref) returns (err: bool, conflict: bool)
      modifies this`task
      ensures task == if Refused(Luck().fault) || old(task).None? then old(task)
                      else Some(PatchRef(old(task).value, side, orig, wanted))
      ensures err <==> Luck().fault != NoFault || old(task).None?
      ensures conflict <==> Luck().fault == Conflicted && old(task).Some?
    {
      if Refused(Luck().fault) || task.None? {
        return true, Luck().fault == Conflicted && task.Some?;
      }
      task := Some(PatchRef(task.value, side, orig, wanted));
      err, conflict := Luck().fault == Lost, false;
    }

    /** `updateILPTaskRef`, which takes a Conflict for a success. */
    method UpdateRef(orig: Task, policy: nat) returns (err: bool)
      requires actor.PolicyController?
      modifies this`task
      ensures task == if Refused(Luck().fault) || old(task).None? then old(task)
                      else Some(PatchRef(old(task).value, actor.side, orig, Ref(key, policy)))
      ensures err <==> Luck().fault == Rejected || Luck().fault == Lost || old(task).None?
    {
      var conflict;
      err, conflict := PatchTask(actor.side, orig, Ref(key, policy));
      if conflict {
        err := false;
      }
    }

    // ----- The policy controllers -----

    /**
     A reconcile of the policy that the controller reads first; it syncs the version read exactly if it
     reports success.
     */
    method ReconcilePolicy() returns (ok: bool)
      requires Valid() && actor.PolicyController? && Own().pc == WIdle
      modifies this
      ensures Valid() && Own().pc == WIdle && old(clock) < clock
      ensures Own().synced == if ok then old(Own().policy) else old(Own().synced)
    {
      ghost var before := Now();
      var policy, synced := Own().policy, Own().synced;
      if Luck().fault != NoFault || policy == 0 {
        Proceed(before, WIdle, synced);
        return false;
      }
      Proceed(before, WGetTask(policy), synced);
      ok := SetRef(policy, synced);
    }

    method SetRef(policy: nat, synced: nat) returns (ok: bool)
      requires Valid() && actor.PolicyController? && Own().pc == WGetTask(policy) && Own().synced == synced
      modifies this
      ensures Valid() && Own().pc == WIdle && old(clock) < clock
      ensures Own().synced == if ok then policy else synced
    {
      ghost var before := Now();
      var ilp, err := GetTask();
      if err {
        Proceed(before, WIdle, synced);
        return false;
      }
      if ilp.None? {
        Proceed(before, WCreate(policy), synced);
        ok := CreateWithRef(policy, synced);
      } else {
        Proceed(before, WPatch(policy, ilp.value), synced);
        ok := SetRefOf(ilp.value, policy, synced);
      }
    }

    /** A task created concurrently makes the reconcile requeue. */
    method CreateWithRef(policy: nat, synced: nat) returns (ok: bool)
      requires Valid() && actor.PolicyController? && Own().pc == WCreate(policy) && Own().synced == synced
      modifies this
      ensures Valid() && Own().pc == WIdle && old(clock) < clock
      ensures Own().synced == if ok then policy else synced
    {
      ghost var before := Now();
      var err := CreateTask(WithRef(Task(NO_REF, NO_REF, NEW_STATUS, 1), actor.side, Ref(key, policy)));
      if err {
        Proceed(before, WIdle, synced);
        return false;
      }
      Proceed(before, WGetAgain(policy), synced);
      ok := SetRefAgain(policy, synced);
    }

    method SetRefOf(ilp: Task, policy: nat, synced: nat) returns (ok: bool)
      requires Valid() && actor.PolicyController? && Own().pc == WPatch(policy, ilp) && Own().synced == synced
      modifies this
      ensures Valid() && Own().pc == WIdle && old(clock) < clock
      ensures Own().synced == if ok then policy else synced
    {
      ghost var before := Now();
      var err := UpdateRef(ilp, policy);
      if err {
        Proceed(before, WIdle, synced);
        return false;
      }
      Proceed(before, WGetAgain(policy), synced);
      ok := SetRefAgain(policy, synced);
    }

    /** The second half, which the code runs after a creation as well as after a patch. */
    method SetRefAgain(policy: nat, synced: nat) returns (ok: bool)
      requires Valid() && actor.PolicyController? && Own().pc == WGetAgain(policy) && Own().synced == synced
      modifies this
      ensures Valid() && Own().pc == WIdle && old(clock) < clock
      ensures Own().synced == if ok then policy else synced
    {
      ghost var before := Now();
      var ilp, err := GetTask();
      if err || ilp.None? {
        Proceed(before, WIdle, synced);
        return false;
      }
      Proceed(before, WPatchAgain(policy, ilp.value), synced);
      before := Now();
      err := UpdateRef(ilp.value, policy);
      Proceed(before, WIdle, if err then synced else policy);
      ok := !err;
    }

    // ----- The optimization pod -----

    method CreatePod(name: string) returns (err: bool)
      modifies this`pods
      ensures var done := !Refused(Luck().fault) && name != "" && name !in old(pods);
        pods == (if done then old(pods)[name := Pod(false, Pending)] else old(pods))
            && (err <==> !done || Luck().fault == Lost)
    {
      if Refused(Luck().fault) || name == "" || name in pods {
        return true;
      }
      pods := pods[name := Pod(false, Pending)];
      err := Luck().fault == Lost;
    }

    method DeletePod(name: string) returns (err: bool)
      modifies this`pods
      ensures pods == if Refused(Luck().fault) then old(pods) else Terminate(old(pods), name)
      ensures err <==> Luck().fault != NoFault || name !in old(pods)
    {
      if Refused(Luck().fault) || name !in pods {
        return true;
      }
      pods := Terminate(pods, name);
      err := Luck().fault == Lost;
    }

    /** The merge patch of the pod reference. It carries no resource version. */
    method PatchPodRef(orig: Task, name: string) returns (err: bool)
      modifies this`task
      ensures task == if Refused(Luck().fault) || old(task).None? then old(task)
                      else var t := old(task).value;
                           Some(t.(status := t.status.(podRef := if name != orig.status.podRef then name
                               else t.status.podRef),
                                   version := t.version + 1))
      ensures err <==> Luck().fault != NoFault || old(task).None?
    {
      if Refused(Luck().fault) || task.None? {
        return true;
      }
      var t := task.value;
      var ref := if name != orig.status.podRef then name else t.status.podRef;
      task := Some(t.(status := t.status.(podRef := ref), version := t.version + 1));
      err := Luck().fault == Lost;
    }

    /** Looks for a pod that is not terminating; an error of the List counts as none found. */
    method FindPod() returns (found: bool, name: string)
      ensures found ==> !Luck().listFails && Live(pods, name)
      ensures !found ==> Luck().listFails || forall p | p in pods :: !Live(pods, p)
    {
      found, name := false, "";
      if !Luck().listFails {
        var todo := pods.Keys;
        while todo != {} && !found
          invariant todo <= pods.Keys
          invariant forall p | p in pods && p !in todo :: !Live(pods, p) || (found && p == name)
          invariant found ==> Live(pods, name)
          decreases todo
        {
          var p :| p in todo;
          todo := todo - {p};
          if !pods[p].terminating {
            found, name := true, p;
          }
        }
      }
    }

    /**
     `prepareAndBuildOptimizationPod`: unless reading its inputs fails, find or create the pod, then
     claim it.
     */
    method ClaimPod(t: Task) returns (claimed: Option<string>)
      requires Valid() && actor.TaskController? && pc == ListPods(t) && outcome == Busy
      modifies this
      ensures Valid() && pc == Idle && outcome == Returned && old(clock) < clock
    {
      ghost var before := Now();
      if Luck().fault != NoFault {
        End(before, NO_PICK, Returned);
        return None;
      }
      var found, pod := FindPod();
      if found {
        Continue(before, Pick(pod, false), GetForClaim(pod));
        claimed := Claim(pod);
      } else {
        Continue(before, NO_PICK, TaskPc.CreatePod(t));
        claimed := CreateAndClaim(t);
      }
    }

    method CreateAndClaim(t: Task) returns (claimed: Option<string>)
      requires Valid() && actor.TaskController? && pc == TaskPc.CreatePod(t) && outcome == Busy
      modifies this
      ensures Valid() && pc == Idle && outcome == Returned && old(clock) < clock
    {
      ghost var before := Now();
      var pod := Luck().pod;
      var err := CreatePod(pod);
      if err {
        End(before, Pick(pod, false), Returned);
        return None;
      }
      Continue(before, Pick(pod, false), GetForClaim(pod));
      claimed := Claim(pod);
    }

    method Claim(pod: string) returns (claimed: Option<string>)
      requires Valid() && actor.TaskController? && pc == GetForClaim(pod) && outcome == Busy
      modifies this
      ensures Valid() && pc == Idle && outcome == Returned && old(clock) < clock
    {
      ghost var before := Now();
      var orig, err := GetTask();
      if err || orig.None? {
        Continue(before, NO_PICK, TaskPc.DropPod(pod));
        DropPod(pod);
        return None;
      }
      if orig.value.status.podRef != "" {
        Continue(before, NO_PICK, AlreadyClaimed(pod));
        DropPod(pod);
        return Some(orig.value.status.podRef);
      }
      Continue(before, NO_PICK, PatchClaim(pod, orig.value));
      claimed := WriteClaim(pod, orig.value);
    }

    method WriteClaim(pod: string, orig: Task) returns (claimed: Option<string>)
      requires Valid() && actor.TaskController? && pc == PatchClaim(pod, orig) && outcome == Busy
      modifies this
      ensures Valid() && pc == Idle && outcome == Returned && old(clock) < clock
    {
      ghost var before := Now();
      var err := PatchPodRef(orig, pod);
      if err {
        Continue(before, NO_PICK, TaskPc.DropPod(pod));
        DropPod(pod);
        return None;
      }
      End(before, NO_PICK, Returned);
      return Some(pod);
    }

    /** Best effort: the error of the delete is ignored. */
    method DropPod(pod: string)
      requires Valid() && actor.TaskController? && (pc == TaskPc.DropPod(pod) || pc == AlreadyClaimed(pod))
          && outcome == Busy
      modifies this
      ensures Valid() && pc == Idle && outcome == Returned && old(clock) < clock
    {
      ghost var before := Now();
      var err := DeletePod(pod);
      End(before, NO_PICK, Returned);
    }

    /** `removeOptimizationPod`: lists the pods of the task and deletes them until a delete fails. */
    method RemovePods()
      requires Valid() && actor.TaskController? && pc == PurgeList && outcome == Busy
      modifies this
      ensures Valid() && pc == Idle && outcome == Returned && old(clock) < clock
    {
      ghost var before := Now();
      var todo := pods.Keys;
      if Luck().fault != NoFault || todo == {} {
        End(before, NO_PICK, Returned);
        return;
      }
      Continue(before, NO_PICK, PurgeDelete(todo));
      RemoveListed(todo);
    }

    method RemoveListed(listed: set<string>)
      requires Valid() && actor.TaskController? && pc == PurgeDelete(listed) && outcome == Busy && listed != {}
      modifies this
      ensures Valid() && pc == Idle && outcome == Returned && old(clock) < clock
    {
      var todo := listed;
      while todo != {}
        invariant Valid() && old(clock) <= clock && (todo == {} ==> old(clock) < clock)
        invariant if todo == {} then pc == Idle && outcome == Returned else pc == PurgeDelete(todo) && outcome == Busy
        decreases todo
      {
        var p :| p in todo;
        var err := RemovePod(todo, p);
        if err {
          return;
        }
        todo := todo - {p};
      }
    }

    method RemovePod(todo: set<string>, p: string) returns (err: bool)
      requires Valid() && actor.TaskController? && pc == PurgeDelete(todo) && outcome == Busy && p in todo
      modifies this
      ensures Valid() && old(clock) < clock
      ensures if err || todo == {p} then pc == Idle && outcome == Returned
          else pc == PurgeDelete(todo - {p}) && outcome == Busy
    {
      ghost var before := Now();
      err := DeletePod(p);
      if err || |todo - {p}| == 0 {
        End(before, Pick(p, false), Returned);
      } else {
        Continue(before, Pick(p, false), PurgeDelete(todo - {p}));
      }
    }

    // ----- Atlas and AtlasMesh -----

    function Objects(target: Target): seq<PlanObject>
      reads this
    {
      if target == Atlas then atlas.objects else mesh.objects
    }

    method SetObjects(target: Target, objects: seq<PlanObject>)
      modifies this`atlas, this`mesh
      ensures Now().world == WithObjects(old(Now().world), target, objects)
    {
      if target == Atlas {
        atlas := atlas.(objects := objects);
      } else {
        mesh := mesh.(objects := objects);
      }
    }

    method CreateObject(target: Target, plan: Plan) returns (err: bool)
      modifies this`atlas, this`mesh
      ensures var done := !Refused(Luck().fault) && old(Objects(target)) == [];
        && Now().world == (if done then WithObjects(old(Now().world), target, [NewObject(plan)]) else old(Now().world))
        && (err <==> !done || Luck().fault == Lost)
    {
      if Refused(Luck().fault) || Objects(target) != [] {
        return true;
      }
      SetObjects(target, [NewObject(plan)]);
      err := Luck().fault == Lost;
    }

    /** `Update` of the one object; it carries the version that was read. */
    method UpdateObject(target: Target, version: nat, o: PlanObject) returns (err: bool)
      modifies this`atlas, this`mesh
      ensures var os := old(Objects(target));
        var done := !Refused(Luck().fault) && os != [] && os[0].version == version;
        && Now().world == (if done then WithObjects(old(Now().world), target, os[0 := o]) else old(Now().world))
        && (err <==> !done || Luck().fault == Lost)
    {
      var os := Objects(target);
      if Refused(Luck().fault) || os == [] || os[0].version != version {
        return true;
      }
      SetObjects(target, os[0 := o]);
      err := Luck().fault == Lost;
    }

    /** `Status().Update` leaves the spec as it is stored. */
    method UpdateObjectStatus(target: Target, version: nat) returns (err: bool)
      modifies this`atlas, this`mesh
      ensures var os := old(Objects(target));
        var done := !Refused(Luck().fault) && os != [] && os[0].version == version;
        var os' := if done then os[0 := os[0].(version := version + 1)] else os;
        && Now().world == WithObjects(old(Now().world), target, os')
        && (err <==> !done || Luck().fault == Lost)
    {
      var os := Objects(target);
      if Refused(Luck().fault) || os == [] || os[0].version != version {
        return true;
      }
      SetObjects(target, os[0 := os[0].(version := version + 1)]);
      err := Luck().fault == Lost;
    }

    /** Where a reconcile is once one object has been dealt with. */
    ghost predicate Ensured(target: Target, job: Job)
      reads this
    {
      if target == Atlas then pc == ListObjects(AtlasMesh, job) && outcome == Busy
      else if job.finish.Some? then pc == TaskPc.StoreStatus(job.finish.value, true) && outcome == Busy
      else pc == Idle && outcome == Outcome.Ensured(job.plan)
    }

    /** On to the next object, the status, or the end. */
    method Advance(ghost before: State, target: Target, job: Job)
      requires actor.TaskController? && Reached(before)
      requires Step(before, Call(actor, Luck(), NO_PICK))
            == Now().(world := Next(Now().world.(outcome := Busy), target, job))
      modifies this
      ensures Valid() && clock == old(clock) + 1 && Ensured(target, job)
    {
      if target == Atlas {
        Continue(before, NO_PICK, ListObjects(AtlasMesh, job));
      } else if job.finish.Some? {
        Continue(before, NO_PICK, TaskPc.StoreStatus(job.finish.value, true));
      } else {
        End(before, NO_PICK, Outcome.Ensured(job.plan));
      }
    }

    /** `ensureAtlas` and `ensureAtlasMesh`. */
    method EnsureObject(target: Target, job: Job) returns (err: bool)
      requires Valid() && actor.TaskController? && pc == ListObjects(target, job) && outcome == Busy
      modifies this
      ensures Valid() && old(clock) < clock
      ensures if err then pc == Idle && outcome == Returned else Ensured(target, job)
    {
      ghost var before := Now();
      var os := Objects(target);
      if Luck().fault != NoFault || |os| > 1 {
        End(before, NO_PICK, Returned);
        return true;
      }
      if |os| == 0 {
        Continue(before, NO_PICK, TaskPc.CreateObject(target, job));
        err := Publish(target, job);
      } else if os[0].plan != job.plan {
        Continue(before, NO_PICK, TaskPc.UpdateObject(target, job, os[0]));
        err := Overwrite(target, job, os[0]);
      } else {
        Advance(before, target, job);
        err := false;
      }
    }

    method Publish(target: Target, job: Job) returns (err: bool)
      requires Valid() && actor.TaskController? && pc == TaskPc.CreateObject(target, job) && outcome == Busy
      modifies this
      ensures Valid() && old(clock) < clock
      ensures if err then pc == Idle && outcome == Returned else Ensured(target, job)
    {
      ghost var before := Now();
      err := CreateObject(target, job.plan);
      if err {
        End(before, NO_PICK, Returned);
      } else {
        Advance(before, target, job);
      }
    }

    /** Installs the plan without approval, then sets the condition in the status. */
    method Overwrite(target: Target, job: Job, read: PlanObject) returns (err: bool)
      requires Valid() && actor.TaskController? && pc == TaskPc.UpdateObject(target, job, read) && outcome == Busy
      modifies this
      ensures Valid() && old(clock) < clock
      ensures if err then pc == Idle && outcome == Returned else Ensured(target, job)
    {
      ghost var before := Now();
      var version := read.version + 1;
      err := UpdateObject(target, read.version, read.(plan := job.plan, approve := false, version := version));
      if err {
        End(before, NO_PICK, Returned);
        return;
      }
      Continue(before, NO_PICK, TaskPc.UpdateObjectStatus(target, job, version));
      err := SetPending(target, job, version);
    }

    method SetPending(target: Target, job: Job, version: nat) returns (err: bool)
      requires Valid() && actor.TaskController? && pc == TaskPc.UpdateObjectStatus(target, job, version)
          && outcome == Busy
      modifies this
      ensures Valid() && old(clock) < clock
      ensures if err then pc == Idle && outcome == Returned else Ensured(target, job)
    {
      ghost var before := Now();
      err := UpdateObjectStatus(target, version);
      if err {
        End(before, NO_PICK, Returned);
      } else {
        Advance(before, target, job);
      }
    }

    /** Both objects, Atlas first. */
    method EnsureBoth(job: Job) returns (err: bool)
      requires Valid() && actor.TaskController? && pc == ListObjects(Atlas, job) && outcome == Busy
      modifies this
      ensures Valid() && old(clock) < clock
      ensures if err then pc == Idle && outcome == Returned else Ensured(AtlasMesh, job)
    {
      err := EnsureObject(Atlas, job);
      if !err {
        err := EnsureObject(AtlasMesh, job);
      }
    }

    // ----- The task controller -----

    /** `Status().Update`: it carries the resource version of the copy. */
    method UpdateTaskStatus(t: Task) returns (err: bool, conflict: bool)
      modifies this`task
      ensures var done := !Refused(Luck().fault) && old(task).Some? && old(task).value.version == t.version;
        && task == (if done then Some(old(task).value.(status := t.status, version := t.version + 1)) else old(task))
        && (err <==> !done || Luck().fault == Lost)
      ensures conflict <==> old(task).Some? && Luck().fault != Rejected
                            && (Luck().fault == Conflicted || old(task).value.version != t.version)
    {
      if Luck().fault == Rejected || task.None? {
        return true, false;
      }
      if Luck().fault == Conflicted || task.value.version != t.version {
        return true, true;
      }
      task := Some(task.value.(status := t.status, version := t.version + 1));
      err, conflict := Luck().fault == Lost, false;
    }

    /** Forgets the pod: `RetryOnConflict` reads and updates up to four times. */
    method ClearPodRef()
      requires Valid() && actor.TaskController? && pc == ClearGet && outcome == Busy
      modifies this
      ensures Valid() && pc == Idle && outcome == Returned && old(clock) < clock <= old(clock) + 8
    {
      var attempts, again := 0, true;
      while again
        invariant Valid() && attempts <= 4 && old(clock) + attempts <= clock <= old(clock) + 2 * attempts
        invariant again ==> attempts < 4 && pc == ClearGet && outcome == Busy
        invariant !again ==> 0 < attempts && pc == Idle && outcome == Returned
        decreases 4 - attempts
      {
        attempts := attempts + 1;
        again := ClearOnce(attempts == 4);
      }
    }

    method ClearOnce(lastAttempt: bool) returns (again: bool)
      requires Valid() && actor.TaskController? && pc == ClearGet && outcome == Busy
      modifies this
      ensures Valid() && old(clock) < clock <= old(clock) + 2 && (again ==> !lastAttempt)
      ensures if again then pc == ClearGet && outcome == Busy else pc == Idle && outcome == Returned
    {
      ghost var before := Now();
      var latest, err := GetTask();
      if err || latest.None? {
        End(before, NO_PICK, Returned);
        return false;
      }
      Continue(before, NO_PICK, ClearPut(latest.value));
      again := PutCleared(latest.value, lastAttempt);
    }

    method PutCleared(latest: Task, lastAttempt: bool) returns (again: bool)
      requires Valid() && actor.TaskController? && pc == ClearPut(latest) && outcome == Busy
      modifies this
      ensures Valid() && clock == old(clock) + 1 && (again ==> !lastAttempt)
      ensures if again then pc == ClearGet && outcome == Busy else pc == Idle && outcome == Returned
    {
      ghost var before := Now();
      var err, conflict := UpdateTaskStatus(latest.(status := latest.status.(podRef := "")));
      again := conflict && !lastAttempt;
      if again {
        Continue(before, NO_PICK, ClearGet);
      } else {
        End(before, Pick("", true), Returned);
      }
    }

    /** The branch for a task that names a pod. */
    method FollowPod(t: Task, dfVersion: nat, dpVersion: nat)
      requires Valid() && actor.TaskController? && pc == GetPod(t, dfVersion, dpVersion) && outcome == Busy
      modifies this
      ensures Valid() && pc == Idle && outcome != Busy && old(clock) < clock
    {
      ghost var before := Now();
      if Luck().fault != NoFault || t.status.podRef !in pods {
        Continue(before, NO_PICK, ClearGet);
        ClearPodRef();
      } else if pods[t.status.podRef].phase != Succeeded {
        End(before, NO_PICK, Returned);
      } else {
        Continue(before, NO_PICK, ReadPlan(t, dfVersion, dpVersion));
        TakeResult(t, dfVersion, dpVersion);
      }
    }

    /** Reads the plan, pushes it if it places anything, and stores it with the versions seen. */
    method TakeResult(t: Task, dfVersion: nat, dpVersion: nat)
      requires Valid() && actor.TaskController? && pc == ReadPlan(t, dfVersion, dpVersion) && outcome == Busy
      modifies this
      ensures Valid() && pc == Idle && outcome != Busy && old(clock) < clock
    {
      ghost var before := Now();
      if Luck().fault != NoFault {
        End(before, NO_PICK, Returned);
        return;
      }
      var plan := Luck().plan;
      var t' := RecordResult(t, dfVersion, dpVersion, plan);
      if |plan.components| > 0 {
        Continue(before, NO_PICK, ListObjects(Atlas, Job(plan, Some(t'))));
        var err := EnsureBoth(Job(plan, Some(t')));
        if !err {
          StoreResult(t', true);
        }
      } else {
        Continue(before, NO_PICK, TaskPc.StoreStatus(t', false));
        StoreResult(t', false);
      }
    }

    method RecordResult(t: Task, dfVersion: nat, dpVersion: nat, plan: Plan) returns (t': Task)
      ensures t' == WithResult(t, plan, dfVersion, dpVersion)
    {
      var status := t.status.(plan := plan);
      if |plan.components| > 0 {
        status := status.(result := "Success");
      }
      status := status.(dfVersion := dfVersion, dpVersion := dpVersion);
      t' := t.(status := status);
    }

    method StoreResult(t: Task, ensured: bool)
      requires Valid() && actor.TaskController? && pc == TaskPc.StoreStatus(t, ensured) && outcome == Busy
      modifies this
      ensures Valid() && pc == Idle && outcome != Busy && old(clock) < clock
    {
      ghost var before := Now();
      var err, _ := UpdateTaskStatus(t);
      End(before, NO_PICK, if err || !ensured then Returned else Outcome.Ensured(t.status.plan));
    }

    /** A whole reconcile of the task, from idle to idle, while everybody else goes on. */
    method Reconcile()
      requires Valid() && actor.TaskController? && pc == Idle
      modifies this
      ensures Valid() && pc == Idle && outcome != Busy && old(clock) < clock
    {
      ghost var before := Now();
      var read, err := GetTask();
      if err || read.None? {
        Continue(before, NO_PICK, PurgeList);
        RemovePods();
        return;
      }
      var t := read.value;
      if t.df.name == "" || t.dp.name == "" {
        End(before, NO_PICK, Returned);
        return;
      }
      Continue(before, NO_PICK, GetDataflow(t));
      ReadPolicies(t);
    }

    method ReadPolicies(t: Task)
      requires Valid() && actor.TaskController? && pc == GetDataflow(t) && outcome == Busy
      modifies this
      ensures Valid() && pc == Idle && outcome != Busy && old(clock) < clock
    {
      ghost var before := Now();
      if Luck().fault != NoFault {
        End(before, NO_PICK, Returned);
        return;
      }
      var dfVersion := df.policy;
      Continue(before, NO_PICK, GetDeployment(t, dfVersion));
      Decide(t, dfVersion);
    }

    /** Reads the second policy, compares the app-id labels, and goes on with what is left to do. */
    method Decide(t: Task, dfVersion: nat)
      requires Valid() && actor.TaskController? && pc == GetDeployment(t, dfVersion) && outcome == Busy
      modifies this
      ensures Valid() && pc == Idle && outcome != Busy && old(clock) < clock
    {
      ghost var before := Now();
      var dpVersion := dp.policy;
      if Luck().fault != NoFault || !Luck().sameApp {
        End(before, NO_PICK, Returned);
      } else if t.status.result != "" && t.status.dfVersion == dfVersion && t.status.dpVersion == dpVersion {
        Continue(before, NO_PICK, ListObjects(Atlas, Job(t.status.plan, None)));
        var err := EnsureBoth(Job(t.status.plan, None));
      } else if t.status.podRef == "" {
        Continue(before, NO_PICK, ListPods(t));
        var _ := ClaimPod(t);
      } else {
        Continue(before, NO_PICK, GetPod(t, dfVersion, dpVersion));
        FollowPod(t, dfVersion, dpVersion);
      }
    }
  }
}
