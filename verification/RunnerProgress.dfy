/**
 What the runner machine achieves when nothing disturbs it: the exact fate of every state.

 A round is one undisturbed reconcile followed by progress of the runner pod. Outside the wedge and
 outside the settled states, every state reaches Ready with its generation observed in five rounds.
 */
module RunnerProgress {
  import opened Wrappers
  import opened Runner

  /** The cluster side of a run that will succeed: no Job, or one whose pod comes up and completes. */
  datatype Stage = NoJob | NoPod | PodPending | PodRunning | PodDone

  function Rank(g: Stage): nat
  {
    match g case NoJob => 0 case NoPod => 1 case PodPending => 2 case PodRunning => 3 case PodDone => 4
  }

  function PodsAt<P>(g: Stage, output: P): seq<RunnerPod<P>>
  {
    match g
    case NoJob => []
    case NoPod => []
    case PodPending => [RunnerPod(Pending, false, None)]
    case PodRunning => [RunnerPod(Running, false, None)]
    case PodDone => [RunnerPod(Succeeded, true, Some(output))]
  }

  /** An undisturbed reconcile at time `now`, all of whose calls succeed. */
  function Reconciled<P>(o: Object<P>, g: Stage, output: P, now: nat): (Object<P>, Stage)
  {
    match Decide(o, PodsAt(g, output), Findings(now, true, true))
    case Nothing => (o, g)
    case Write(o') => (o'.(version := o.version + 1), g)
    case Start => (Started(o).(version := o.version + 1), if g == NoJob then NoPod else g)
  }

  /** The pod of a Job gets further; without a Job nothing happens. */
  predicate Advances(g: Stage, g': Stage)
  {
    if g == NoJob || g == PodDone then g' == g else Rank(g) < Rank(g')
  }

  datatype Moment<P> = Moment(obj: Object<P>, stage: Stage, now: nat)

  ghost predicate Round<P>(m: Moment<P>, m': Moment<P>, output: P)
  {
    var (o, g) := Reconciled(m.obj, m.stage, output, m.now);
    m'.obj == o && Advances(g, m'.stage) && m.now <= m'.now
  }

  ghost predicate Goal<P>(o: Object<P>)
  {
    o.ready && !SpecChanged(o) && !o.jobRunning && !o.resync
  }

  /** Neither wedged nor, at its time, settled. */
  ghost predicate Active<P>(m: Moment<P>)
  {
    !Wedged(m.obj) && !Settled(m.obj, m.now)
  }

  /** How many rounds may be left: runs that are due or running, by how far the pod has come. */
  function Measure<P>(m: Moment<P>): nat
  {
    if m.obj.resync then
      match m.stage case NoJob => 4 case NoPod => 4 case PodPending => 3 case PodRunning => 2 case PodDone => 2
    else
      match m.stage case NoJob => 5 case NoPod => 4 case PodPending => 3 case PodRunning => 2 case PodDone => 1
  }

  lemma RoundProgress<P>(m: Moment<P>, m': Moment<P>, output: P)
    requires ConditionsOk(m.obj) && Active(m) && Round(m, m', output)
    ensures ConditionsOk(m'.obj)
    ensures Goal(m'.obj) || (Active(m') && Measure(m') < Measure(m))
  {
  }

  ghost predicate Rounds<P>(ms: seq<Moment<P>>, output: P)
  {
    forall i | 0 < i < |ms| :: Round(ms[i - 1], ms[i], output)
  }

  lemma {:induction false} ActiveReachesGoal<P>(ms: seq<Moment<P>>, output: P)
    requires ms != [] && Rounds(ms, output) && ConditionsOk(ms[0].obj) && Active(ms[0]) && |ms| > Measure(ms[0])
    ensures exists i | 0 < i < |ms| && i <= Measure(ms[0]) :: Goal(ms[i].obj)
  {
    assert Round(ms[0], ms[1], output);
    RoundProgress(ms[0], ms[1], output);
    if !Goal(ms[1].obj) {
      var rest := ms[1..];
      assert forall i | 0 < i < |rest| :: rest[i - 1] == ms[i] && rest[i] == ms[i + 1];
      ActiveReachesGoal(rest, output);
      var i :| 0 < i < |rest| && i <= Measure(rest[0]) && Goal(rest[i].obj);
      assert Goal(ms[i + 1].obj);
    }
  }

  lemma {:induction false} WedgeStays<P>(ms: seq<Moment<P>>, output: P, i: nat)
    requires i < |ms| && Rounds(ms, output) && Wedged(ms[0].obj)
    ensures Wedged(ms[i].obj)
  {
    if i > 0 {
      WedgeStays(ms, output, i - 1);
      assert Round(ms[i - 1], ms[i], output);
    }
  }

  lemma {:induction false} SettledStays<P>(ms: seq<Moment<P>>, output: P, i: nat)
    requires i < |ms| && Rounds(ms, output)
    requires forall j | 0 <= j < |ms| :: Settled(ms[0].obj, ms[j].now)
    ensures ms[i].obj == ms[0].obj
  {
    if i > 0 {
      SettledStays(ms, output, i - 1);
      assert Round(ms[i - 1], ms[i], output);
    }
  }

  /**
   The fate of every state under five or more undisturbed rounds of a run that succeeds, however
   fast its pod is, within the time that a settled state stays settled: the object becomes ready at
   its generation exactly when it is not wedged and, if it is settled, is ready already.
   */
  lemma ProgressExact<P>(ms: seq<Moment<P>>, output: P)
    requires |ms| > 5 && Rounds(ms, output) && ConditionsOk(ms[0].obj)
    requires Settled(ms[0].obj, ms[0].now) ==> forall j | 0 <= j < |ms| :: Settled(ms[0].obj, ms[j].now)
    ensures (exists i | 0 <= i < |ms| :: Goal(ms[i].obj))
       <==> !Wedged(ms[0].obj) && (Settled(ms[0].obj, ms[0].now) ==> ms[0].obj.ready)
  {
    if Wedged(ms[0].obj) {
      forall i | 0 <= i < |ms| ensures !Goal(ms[i].obj) {
        WedgeStays(ms, output, i);
      }
    } else if Settled(ms[0].obj, ms[0].now) {
      forall i | 0 <= i < |ms| ensures ms[i].obj == ms[0].obj {
        SettledStays(ms, output, i);
      }
    } else {
      ActiveReachesGoal(ms, output);
    }
  }

  // ----- The rounds are the machine's -----

  function Calls<P>(s: State<P>, f: Findings, n: nat): State<P>
    decreases n
  {
    if n == 0 then s else Calls(Next(s, f, NoFault), f, n - 1)
  }

  /** The reconcile of a round is what the step machine does when no step of it fails. */
  lemma ReconciledIsMachine<P>(s: State<P>, g: Stage, output: P, now: nat) returns (n: nat)
    requires s.pc == Idle && s.pods == PodsAt(g, output) && s.jobs == (if g == NoJob then 0 else 1)
    ensures n <= 4
    ensures var (o, g') := Reconciled(s.obj, g, output, now);
            var t := Calls(s, Findings(now, true, true), n);
            t.obj == o && t.jobs == (if g' == NoJob then 0 else 1) && t.pods == s.pods && t.pc == Idle
  {
    var f := Findings(now, true, true);
    var s1 := Next(s, f, NoFault);
    var s2 := Next(s1, f, NoFault);
    var s3 := Next(s2, f, NoFault);
    var s4 := Next(s3, f, NoFault);
    assert Calls(s, f, 2) == Calls(s1, f, 1) == Calls(s2, f, 0);
    assert Calls(s, f, 3) == Calls(s1, f, 2) == Calls(s2, f, 1) == Calls(s3, f, 0);
    assert Calls(s, f, 4) == Calls(s1, f, 3) == Calls(s2, f, 2) == Calls(s3, f, 1) == Calls(s4, f, 0);
    match Decide(s.obj, s.pods, f)
    case Nothing => n := 2;
    case Write(_) => n := 3;
    case Start => n := if s.jobs > 0 then 3 else 4;
  }
}
