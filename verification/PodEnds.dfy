/**
 Which calls of the task controller end the pod that the task names: exactly those of a reconcile whose
 first read failed or found no task, and the one that follows a claim whose answer was lost.
 */
module PodEnds {
  import opened Wrappers
  import opened Protocol
  import opened TwoWriters
  import opened PodClaim

  /** The reconcile that started last began with a first read that failed or found no task. */
  predicate ReadFailed(s: State, es: seq<Event>)
  {
    es != [] &&
    var w, e := Run(s, es[..|es| - 1]).world, es[|es| - 1];
    if e.TaskStep? && w.pc.Idle? then e.choice.fault != NoFault || w.task.None?
    else !e.TaskCrash? && ReadFailed(s, es[..|es| - 1])
  }

  /** The last call of the task controller was the claim of `p`; it took effect and its answer was lost. */
  predicate ClaimLost(s: State, es: seq<Event>, p: string)
  {
    es != [] &&
    var w, e := Run(s, es[..|es| - 1]).world, es[|es| - 1];
    if e.TaskStep? then w.pc.PatchClaim? && w.pc.pod == p && e.choice.fault == Lost && w.task.Some?
    else !e.TaskCrash? && ClaimLost(s, es[..|es| - 1], p)
  }

  /** Up to the claim, the task names no pod. */
  predicate NoPodNamed(w: World)
  {
    match w.pc
    case GetDataflow(t) => SameRef(w, t)
    case GetDeployment(t, _) => SameRef(w, t)
    case ListPods(_) => PodRef(w) == ""
    case CreatePod(_) => PodRef(w) == ""
    case GetForClaim(_) => PodRef(w) == ""
    case AlreadyClaimed(_) => false
    case PatchClaim(_, orig) => PodRef(w) == orig.status.podRef == ""
    case _ => true
  }

  predicate Purges(pc: TaskPc)
  {
    pc.PurgeList? || pc.PurgeDelete?
  }

  ghost predicate EndsOk(s: State, es: seq<Event>)
  {
    var w := Run(s, es).world;
    && NoPodNamed(w)
    && (w.pc.DropPod? ==> PodRef(w) == "" || ClaimLost(s, es, w.pc.pod))
    && (Purges(w.pc) ==> ReadFailed(s, es))
  }

  predicate Names(pc: TaskPc)
  {
    pc.Idle? || pc.GetDataflow? || pc.GetDeployment? || pc.ListPods? || pc.CreatePod? || pc.GetForClaim?
  }

  lemma EarlyStepNames(w: World, df: nat, dp: nat, c: Choice)
    requires NoPodNamed(w) && Names(w.pc)
    ensures NoPodNamed(TaskNext(w, df, dp, c))
  {
  }

  /** After the claim, nothing is said about names any more. */
  lemma LateStepNames(w: World, df: nat, dp: nat, c: Choice)
    requires NoPodNamed(w) && !Names(w.pc)
    ensures NoPodNamed(TaskNext(w, df, dp, c))
  {
  }

  lemma TaskStepNames(w: World, df: nat, dp: nat, c: Choice)
    requires NoPodNamed(w)
    ensures NoPodNamed(TaskNext(w, df, dp, c))
  {
    if Names(w.pc) { EarlyStepNames(w, df, dp, c); } else { LateStepNames(w, df, dp, c); }
  }

  lemma TaskStepDrops(w: World, df: nat, dp: nat, c: Choice)
    requires NoPodNamed(w) && TaskNext(w, df, dp, c).pc.DropPod?
    ensures var w' := TaskNext(w, df, dp, c);
            || PodRef(w') == ""
            || (w.pc.PatchClaim? && w.pc.pod == w'.pc.pod && c.fault == Lost && w.task.Some?)
  {
  }

  lemma TaskStepPurges(w: World, df: nat, dp: nat, c: Choice)
    requires Purges(TaskNext(w, df, dp, c).pc)
    ensures Purges(w.pc) || (w.pc.Idle? && (c.fault != NoFault || w.task.None?))
  {
  }

  /** Nobody else touches the pod reference or the task controller. */
  lemma OtherEvents(s: State, e: Event)
    requires !e.TaskStep? && !e.TaskCrash?
    ensures var w, w' := s.world, Step(s, e).world;
            && w'.pc == w.pc && PodRef(w') == PodRef(w)
            && (w.task.Some? ==> w'.task.Some?)
  {
    if e.WriterStep? {
      WriterKeepsOther(s.key, e.side, WriterOf(s, e.side), s.world.task, e.fault);
    }
  }

  lemma {:induction false} RunEndsOk(s: State, es: seq<Event>)
    requires Init(s)
    ensures EndsOk(s, es)
  {
    if es != [] {
      var init, e := es[..|es| - 1], es[|es| - 1];
      var t := Run(s, init);
      RunEndsOk(s, init);
      if e.TaskStep? {
        TaskStepNames(t.world, t.df.policy, t.dp.policy, e.choice);
        var w' := TaskNext(t.world, t.df.policy, t.dp.policy, e.choice);
        if w'.pc.DropPod? { TaskStepDrops(t.world, t.df.policy, t.dp.policy, e.choice); }
        if Purges(w'.pc) { TaskStepPurges(t.world, t.df.policy, t.dp.policy, e.choice); }
      } else if !e.TaskCrash? {
        OtherEvents(t, e);
      }
    }
  }

  lemma FailedReadStep(w: World, df: nat, dp: nat, c: Choice)
    requires if w.pc.Idle? then c.fault != NoFault || w.task.None? else Purges(w.pc)
    ensures var pc := TaskNext(w, df, dp, c).pc; pc.Idle? || Purges(pc)
  {
  }

  /** A reconcile whose first read failed does nothing but purge. */
  lemma {:induction false} ReadFailedPurges(s: State, es: seq<Event>)
    requires ReadFailed(s, es)
    ensures var pc := Run(s, es).world.pc; pc.Idle? || Purges(pc)
  {
    var init, e := es[..|es| - 1], es[|es| - 1];
    var t := Run(s, init);
    if e.TaskStep? {
      if !t.world.pc.Idle? { ReadFailedPurges(s, init); }
      FailedReadStep(t.world, t.df.policy, t.dp.policy, e.choice);
    } else {
      ReadFailedPurges(s, init);
      OtherEvents(t, e);
    }
  }

  lemma {:induction false} LostClaimDrops(s: State, es: seq<Event>, p: string)
    requires ClaimLost(s, es, p)
    ensures Run(s, es).world.pc == DropPod(p)
  {
    var init, e := es[..|es| - 1], es[|es| - 1];
    if !e.TaskStep? {
      LostClaimDrops(s, init, p);
      OtherEvents(Run(s, init), e);
    }
  }

  /** The calls that can end a live pod. */
  lemma EndsIffDeleted(w: World, df: nat, dp: nat, c: Choice, p: string)
    requires Live(w.pods, p)
    ensures !Live(TaskNext(w, df, dp, c).pods, p) <==>
              && !Refused(c.fault)
              && (w.pc == DropPod(p) || w.pc == AlreadyClaimed(p)
                  || (w.pc.PurgeDelete? && p in w.pc.pods && c.pod == p))
  {
  }

  /**
   In every run, exactly when a call of the task controller ends the live pod that the task names: a
   delete that takes effect, in a reconcile whose first read failed or found no task, or right after a
   claim of that pod that took effect and lost its answer.
   */
  lemma NamedPodEndsExact(s: State, es: seq<Event>, c: Choice, p: string)
    requires Init(s) && p != "" && PodRef(Run(s, es).world) == p && Live(Run(s, es).world.pods, p)
    ensures var pc := Run(s, es).world.pc;
            !Live(Run(s, es + [TaskStep(c)]).world.pods, p) <==>
              && !Refused(c.fault)
              && (ClaimLost(s, es, p) || (ReadFailed(s, es) && pc.PurgeDelete? && p in pc.pods && c.pod == p))
  {
    var t := Run(s, es);
    RunEndsOk(s, es);
    More(s, es, t, TaskStep(c));
    EndsIffDeleted(t.world, t.df.policy, t.dp.policy, c, p);
    if ClaimLost(s, es, p) {
      LostClaimDrops(s, es, p);
    }
  }

  /**
   From every state between two reconciles: if the first read of the task fails, for whatever reason,
   two more calls terminate any one pod of the task, and the task still names it.
   */
  lemma FailedReadTerminates(w: World, df: nat, dp: nat, p: string, fault: Fault)
    requires w.pc == Idle && Live(w.pods, p) && fault != NoFault
    ensures var failed := TaskNext(w, df, dp, NO_TROUBLE.(fault := fault));
            var w' := TaskNext(TaskNext(failed, df, dp, NO_TROUBLE), df, dp, NO_TROUBLE.(pod := p));
            p in w'.pods && !Live(w'.pods, p) && PodRef(w') == PodRef(w)
  {
  }

  /** A run from nothing in which a failed read terminates the pod that the task has claimed. */
  lemma FailedReadTerminatesClaimedPod(s: State) returns (es: seq<Event>)
    requires Init(s)
    ensures var w := Run(s, es).world; PodRef(w) == "a" && "a" in w.pods && w.pods["a"].terminating
  {
    var t;
    es, t := ClaimedPod(s);
    var w := t.world;
    FailedReadTerminates(w, t.df.policy, t.dp.policy, "a", Rejected);
    var fail, delete := NO_TROUBLE.(fault := Rejected), NO_TROUBLE.(pod := "a");
    var w1 := TaskNext(w, t.df.policy, t.dp.policy, fail);
    var w2 := TaskNext(w1, t.df.policy, t.dp.policy, NO_TROUBLE);
    More(s, es, t, TaskStep(fail));
    es := es + [TaskStep(fail)];
    More(s, es, t.(world := w1), TaskStep(NO_TROUBLE));
    es := es + [TaskStep(NO_TROUBLE)];
    More(s, es, t.(world := w2), TaskStep(delete));
    es := es + [TaskStep(delete)];
  }

  lemma NotFailedStays(s: State, es: seq<Event>, c: Choice)
    requires !ReadFailed(s, es) && !Run(s, es).world.pc.Idle?
    ensures !ReadFailed(s, es + [TaskStep(c)])
  {
    assert (es + [TaskStep(c)])[..|es|] == es;
  }

  /** A run from nothing in which every read succeeds: the answer to the claim is lost, and the claimed pod goes. */
  lemma LostAnswerTerminatesClaimedPod(s: State) returns (es: seq<Event>)
    requires Init(s)
    ensures !ReadFailed(s, es)
    ensures var w := Run(s, es).world; PodRef(w) == "a" && "a" in w.pods && w.pods["a"].terminating
  {
    var t;
    es, t := PodToClaim(s);
    assert !ReadFailed(s, es) by {
      if ReadFailed(s, es) { ReadFailedPurges(s, es); }
    }
    var lost := TaskStep(NO_TROUBLE.(fault := Lost));
    More(s, es, t, lost);
    NotFailedStays(s, es, lost.choice);
    es := es + [lost];
    More(s, es, Run(s, es), TaskStep(NO_TROUBLE));
    NotFailedStays(s, es, NO_TROUBLE);
    es := es + [TaskStep(NO_TROUBLE)];
  }
}
