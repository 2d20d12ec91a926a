/**
 The two policy controllers: neither disturbs the other's half of the ILPTask, and each half is
 current once its controller has finished a reconcile after the policy's last edit, unless that
 reconcile swallowed a Conflict of its last patch.
 */
module TwoWriters {
  import opened Wrappers
  import opened Protocol

  /** The reference of one side in the stored task, if there is a task. */
  function Stored(task: Option<Task>, side: Side): Option<Ref>
  {
    if task.None? then None else Some(RefOf(task.value, side))
  }

  /** A stored reference is absent, or names the policy at a version it has had. */
  predicate RefValid(key: string, w: Writer, r: Option<Ref>)
  {
    r.Some? && r.value != NO_REF ==> r.value.name == key && 1 <= r.value.version <= w.policy
  }

  /** What a controller in the middle of a reconcile may rely on. */
  predicate PcOk(key: string, side: Side, w: Writer, r: Option<Ref>)
  {
    match w.pc
    case WIdle => true
    case WGetTask(v) => true
    case WCreate(v) => true
    case WPatch(v, orig) => r == Some(RefOf(orig, side))
    case WGetAgain(v) => r.Some?
    case WPatchAgain(v, orig) => r == Some(RefOf(orig, side))
  }

  /** A reconcile in progress works on a version between the last one synced and the current one. */
  predicate VersionOk(w: Writer)
  {
    w.synced <= w.policy && (!w.pc.WIdle? ==> 1 <= w.pc.version && w.synced <= w.pc.version <= w.policy)
  }

  /** No reconcile in progress works on an older version than the stored one. */
  predicate NotBehind(w: Writer, r: Option<Ref>)
  {
    r.Some? && !w.pc.WIdle? ==> r.value.version <= w.pc.version
  }

  predicate SideInv(key: string, side: Side, w: Writer, r: Option<Ref>)
  {
    RefValid(key, w, r) && VersionOk(w) && PcOk(key, side, w, r) && NotBehind(w, r) && (0 < w.synced ==> r.Some?)
  }

  predicate WritersInv(s: State)
  {
    && s.key != ""
    && SideInv(s.key, Dataflow, s.df, Stored(s.world.task, Dataflow))
    && SideInv(s.key, Deployment, s.dp, Stored(s.world.task, Deployment))
  }

  /** A policy controller never touches the other side's reference or the status. */
  lemma WriterKeepsOther(key: string, side: Side, w: Writer, task: Option<Task>, fault: Fault)
    ensures var (_, task') := WriterNext(key, side, w, task, fault);
            && (task.Some? ==> && Stored(task', Other(side)) == Stored(task, Other(side))
                               && task'.value.status == task.value.status)
            && (task.None? && task'.Some? ==> && Stored(task', Other(side)) == Some(NO_REF)
                                              && task'.value.status == NEW_STATUS)
  {
  }

  /** A patch computed from the reference that is stored installs exactly the wanted one. */
  lemma PatchInstalls(t: Task, side: Side, orig: Task, wanted: Ref)
    requires RefOf(t, side) == RefOf(orig, side)
    ensures RefOf(PatchRef(t, side, orig, wanted), side) == wanted
  {
  }

  lemma WriterKeepsOwn(key: string, side: Side, w: Writer, task: Option<Task>, fault: Fault)
    requires SideInv(key, side, w, Stored(task, side))
    ensures var (w', task') := WriterNext(key, side, w, task, fault);
            SideInv(key, side, w', Stored(task', side)) && w'.policy == w.policy
  {
    if w.pc.WPatch? || w.pc.WPatchAgain? {
      PatchInstalls(task.value, side, w.pc.orig, Ref(key, w.pc.version));
    }
  }

  /** The creation of the task by the other side is harmless: this side has stored nothing yet. */
  lemma CreationKeeps(key: string, side: Side, w: Writer)
    requires SideInv(key, side, w, None)
    ensures SideInv(key, side, w, Some(NO_REF))
  {
  }

  lemma StepWriterKeeps(s: State, side: Side, fault: Fault)
    requires WritersInv(s)
    ensures WritersInv(StepWriter(s, side, fault))
  {
    var task := s.world.task;
    WriterKeepsOwn(s.key, side, WriterOf(s, side), task, fault);
    WriterKeepsOther(s.key, side, WriterOf(s, side), task, fault);
    if task.None? {
      CreationKeeps(s.key, Other(side), WriterOf(s, Other(side)));
    }
  }

  lemma {:induction false} TaskKeepsRefs(w: World, df: nat, dp: nat, c: Choice, side: Side)
    ensures Stored(TaskNext(w, df, dp, c).task, side) == Stored(w.task, side)
  {
    if w.pc.PatchClaim? || w.pc.StoreStatus? || w.pc.ClearPut? {
      StatusStepKeepsRefs(w, df, dp, c, side);
    } else {
      OtherStepKeepsTask(w, df, dp, c);
    }
  }

  /** Three steps write the task, and they write its status only. */
  lemma StatusStepKeepsRefs(w: World, df: nat, dp: nat, c: Choice, side: Side)
    requires w.pc.PatchClaim? || w.pc.StoreStatus? || w.pc.ClearPut?
    ensures Stored(TaskNext(w, df, dp, c).task, side) == Stored(w.task, side)
  {
  }

  lemma OtherStepKeepsTask(w: World, df: nat, dp: nat, c: Choice)
    requires !w.pc.PatchClaim? && !w.pc.StoreStatus? && !w.pc.ClearPut?
    ensures TaskNext(w, df, dp, c).task == w.task
  {
  }

  lemma WorldKeepsRefs(w: World, df: nat, dp: nat, e: Event, side: Side)
    ensures Stored(WorldNext(w, df, dp, e).task, side) == Stored(w.task, side)
  {
    if e.TaskStep? {
      TaskKeepsRefs(w, df, dp, e.choice, side);
    }
  }

  lemma StepKeepsWriters(s: State, e: Event)
    requires WritersInv(s)
    ensures WritersInv(Step(s, e))
  {
    if e.WriterStep? {
      StepWriterKeeps(s, e.side, e.fault);
    } else if !e.EditPolicy? && !e.WriterCrash? {
      WorldKeepsRefs(s.world, s.df.policy, s.dp.policy, e, Dataflow);
      WorldKeepsRefs(s.world, s.df.policy, s.dp.policy, e, Deployment);
    }
  }

  lemma {:induction false} RunKeepsWriters(s: State, es: seq<Event>)
    requires Init(s)
    ensures WritersInv(Run(s, es))
  {
    if es != [] {
      RunKeepsWriters(s, es[..|es| - 1]);
      StepKeepsWriters(Run(s, es[..|es| - 1]), es[|es| - 1]);
    }
  }

  // ----- Convergence -----

  /** The stored reference of one side names the policy at its present version. */
  predicate Current(s: State, side: Side)
  {
    Stored(s.world.task, side) == Some(Ref(s.key, WriterOf(s, side).policy))
  }

  /** The policy has not been edited since the last successful reconcile read it. */
  predicate Synced(s: State, side: Side)
  {
    0 < WriterOf(s, side).synced == WriterOf(s, side).policy
  }

  /**
   The step ends a reconcile of the present policy version with success: its last patch took effect or
   met a Conflict.
   */
  predicate Succeeds(s: State, side: Side, e: Event)
  {
    && e.WriterStep? && e.side == side && (e.fault == NoFault || e.fault == Conflicted)
    && WriterOf(s, side).pc.WPatchAgain? && WriterOf(s, side).pc.version == WriterOf(s, side).policy
  }

  lemma StepKeepsKey(s: State, e: Event)
    ensures Step(s, e).key == s.key
    ensures forall side :: WriterOf(Step(s, e), side).policy
                        == WriterOf(s, side).policy + if e == EditPolicy(side) then 1 else 0
  {
    if e.WriterStep? {
      assert WriterNext(s.key, e.side, WriterOf(s, e.side), s.world.task, e.fault).0.policy
          == WriterOf(s, e.side).policy;
    }
  }

  /** Whoever is not this side's controller leaves its reference alone. */
  lemma OthersKeepStored(s: State, side: Side, e: Event)
    requires s.world.task.Some? && !(e.WriterStep? && e.side == side)
    ensures Stored(Step(s, e).world.task, side) == Stored(s.world.task, side)
  {
    if e.WriterStep? {
      WriterKeepsOther(s.key, e.side, WriterOf(s, e.side), s.world.task, e.fault);
    } else if !e.EditPolicy? && !e.WriterCrash? {
      WorldKeepsRefs(s.world, s.df.policy, s.dp.policy, e, side);
    }
  }

  /** A current reference stays current until the policy is edited. */
  lemma CurrentStays(s: State, side: Side, e: Event)
    requires WritersInv(s) && Current(s, side) && 0 < WriterOf(s, side).policy && e != EditPolicy(side)
    ensures Current(Step(s, e), side)
  {
    StepKeepsKey(s, e);
    if e.WriterStep? && e.side == side {
      var w := WriterOf(s, side);
      if w.pc.WPatch? || w.pc.WPatchAgain? {
        assert w.pc.version == w.policy;
        PatchInstalls(s.world.task.value, side, w.pc.orig, Ref(s.key, w.pc.version));
      }
    } else {
      OthersKeepStored(s, side, e);
    }
  }

  /** Exactly when a reconcile that reports success leaves its reference current. */
  lemma SuccessExact(s: State, side: Side, e: Event)
    requires WritersInv(s) && Succeeds(s, side, e)
    ensures Synced(Step(s, e), side)
    ensures Current(Step(s, e), side) <==> e.fault == NoFault || Current(s, side)
  {
    var w := WriterOf(s, side);
    PatchInstalls(s.world.task.value, side, w.pc.orig, Ref(s.key, w.policy));
  }

  /** Only a successful reconcile makes a side synced. */
  lemma SyncedBy(s: State, side: Side, e: Event)
    requires WritersInv(s) && Synced(Step(s, e), side) && !Succeeds(s, side, e)
    ensures Synced(s, side) && e != EditPolicy(side)
  {
    StepKeepsKey(s, e);
  }

  predicate NoStepOf(side: Side, es: seq<Event>)
  {
    forall e | e in es :: !(e.WriterStep? && e.side == side)
  }

  /**
   For every interleaving, with failures, lost answers, conflicts and crashes anywhere: if the last
   successful reconcile of a side has read its policy's present version, then step `k` ended it, and
   the stored reference is that version if the patch of step `k` was not a swallowed conflict or the
   reference was current before; and, unless the same controller has called since, only then.
   */
  lemma {:induction false} WritersConverge(s: State, es: seq<Event>, side: Side) returns (k: nat)
    requires Init(s) && Synced(Run(s, es), side)
    ensures k < |es| && Succeeds(Run(s, es[..k]), side, es[k]) && EditPolicy(side) !in es[k + 1..]
    ensures es[k].fault == NoFault || Current(Run(s, es[..k]), side) ==> Current(Run(s, es), side)
    ensures NoStepOf(side, es[k + 1..]) ==>
              (Current(Run(s, es), side) <==> es[k].fault == NoFault || Current(Run(s, es[..k]), side))
  {
    var n := |es| - 1;
    var before, e := Run(s, es[..n]), es[n];
    RunKeepsWriters(s, es[..n]);
    if Succeeds(before, side, e) {
      SuccessExact(before, side, e);
      k := n;
    } else {
      SyncedBy(before, side, e);
      k := WritersConverge(s, es[..n], side);
      assert es[..n][..k] == es[..k] && es[k + 1..] == es[..n][k + 1..] + [e];
      StepKeepsKey(before, e);
      if Current(before, side) {
        CurrentStays(before, side, e);
      }
      if NoStepOf(side, es[k + 1..]) {
        assert !(e.WriterStep? && e.side == side) by { assert e in es[k + 1..]; }
        OthersKeepStored(before, side, e);
      }
    }
  }

  /** In a run without swallowed conflicts, both references are current once both sides are synced. */
  lemma ConvergeWithoutConflicts(s: State, es: seq<Event>, side: Side)
    requires Init(s) && Synced(Run(s, es), side)
    requires forall e | e in es && e.WriterStep? && e.side == side :: e.fault != Conflicted
    ensures Current(Run(s, es), side)
  {
    var k := WritersConverge(s, es, side);
    assert es[k] in es;
  }

  /** A policy is created and its reconcile undisturbed. */
  lemma FirstReconcile(s: State) returns (es: seq<Event>, task: Task)
    requires Init(s)
    ensures Run(s, es) == s.(df := Writer(1, WIdle, 1), world := s.world.(task := Some(task)))
    ensures task == Task(Ref(s.key, 1), NO_REF, NEW_STATUS, 1)
  {
    task := Task(Ref(s.key, 1), NO_REF, NEW_STATUS, 1);
    var step := WriterStep(Dataflow, NoFault);
    var made := s.(world := s.world.(task := Some(task)));
    es := [EditPolicy(Dataflow)];
    More(s, [], s, EditPolicy(Dataflow));
    assert [] + es == es;
    More(s, es, s.(df := Writer(1, WIdle, 0)), step);
    es := es + [step];
    More(s, es, s.(df := Writer(1, WGetTask(1), 0)), step);
    es := es + [step];
    More(s, es, s.(df := Writer(1, WCreate(1), 0)), step);
    es := es + [step];
    More(s, es, made.(df := Writer(1, WGetAgain(1), 0)), step);
    es := es + [step];
    More(s, es, made.(df := Writer(1, WPatchAgain(1, task), 0)), step);
    es := es + [step];
  }

  /**
   Why the condition is needed: the policy is edited and both patches of its next reconcile meet a
   Conflict. The reconcile swallows both, reports success, and leaves the old version referenced.
   */
  lemma SwallowedConflictLeavesStale(s: State) returns (es: seq<Event>)
    requires Init(s)
    ensures Synced(Run(s, es), Dataflow) && Run(s, es).df.pc == WIdle && !Current(Run(s, es), Dataflow)
  {
    var task;
    es, task := FirstReconcile(s);
    var t := Run(s, es);
    var step, conflict := WriterStep(Dataflow, NoFault), WriterStep(Dataflow, Conflicted);
    More(s, es, t, EditPolicy(Dataflow));
    es := es + [EditPolicy(Dataflow)];
    More(s, es, t.(df := Writer(2, WIdle, 1)), step);
    es := es + [step];
    More(s, es, t.(df := Writer(2, WGetTask(2), 1)), step);
    es := es + [step];
    More(s, es, t.(df := Writer(2, WPatch(2, task), 1)), conflict);
    es := es + [conflict];
    More(s, es, t.(df := Writer(2, WGetAgain(2), 1)), step);
    es := es + [step];
    More(s, es, t.(df := Writer(2, WPatchAgain(2, task), 1)), conflict);
    es := es + [conflict];
  }

  // ----- Progress -----

  /** `n` calls of one controller, none of which fails and none of which is disturbed. */
  function Quiet(key: string, side: Side, w: Writer, task: Option<Task>, n: nat): (Writer, Option<Task>)
    decreases n
  {
    if n == 0 then (w, task)
    else var (w', task') := WriterNext(key, side, w, task, NoFault); Quiet(key, side, w', task', n - 1)
  }

  /** An undisturbed reconcile of an existing policy ends, in five calls, with its reference current. */
  lemma UndisturbedReconcileSyncs(key: string, side: Side, w: Writer, task: Option<Task>)
    requires SideInv(key, side, w, Stored(task, side)) && w.pc == WIdle && w.policy > 0
    ensures var (w', task') := Quiet(key, side, w, task, 5);
            && w' == w.(synced := w.policy)
            && Stored(task', side) == Some(Ref(key, w.policy))
  {
    var (w1, t1) := WriterNext(key, side, w, task, NoFault);
    var (w2, t2) := WriterNext(key, side, w1, t1, NoFault);
    var (w3, t3) := WriterNext(key, side, w2, t2, NoFault);
    var (w4, t4) := WriterNext(key, side, w3, t3, NoFault);
    var (w5, t5) := WriterNext(key, side, w4, t4, NoFault);
    WriterKeepsOwn(key, side, w, task, NoFault);
    WriterKeepsOwn(key, side, w1, t1, NoFault);
    WriterKeepsOwn(key, side, w2, t2, NoFault);
    WriterKeepsOwn(key, side, w3, t3, NoFault);
    WriterKeepsOwn(key, side, w4, t4, NoFault);
    assert Quiet(key, side, w, task, 5) == Quiet(key, side, w1, t1, 4) == Quiet(key, side, w2, t2, 3)
        == Quiet(key, side, w3, t3, 2) == Quiet(key, side, w4, t4, 1) == Quiet(key, side, w5, t5, 0);
  }
}
