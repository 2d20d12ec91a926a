/**
 The runner state machine that the Image and InstanceType controllers share: a Job fetches data for
 an object, the object's conditions say where that stands. `P` is what a run produces: image
 offerings for an Image, zone offerings for an InstanceType.
 */
module Runner {
  import opened Wrappers

  datatype Phase = Pending | Running | Succeeded | Failed | Unknown

  /** A runner pod; `completed`: its container ended with reason Completed; `output`: its decoded log. */
  datatype RunnerPod<P> = RunnerPod(phase: Phase, completed: bool, output: Option<P>)

  /** An Image or InstanceType; `version` is the resourceVersion, times are in seconds. */
  datatype Object<P> = Object(
    generation: nat,
    version: nat,
    observed: nat,
    jobRunning: bool,
    resync: bool,
    ready: bool,
    lastUpdate: Option<nat>,
    payload: P)

  const NORMAL_UPDATE_THRESHOLD: nat := 12 * 60 * 60

  /** What a reconcile of the object finds out: the time, and whether logs and ConfigMap can be had. */
  datatype Findings = Findings(now: nat, logs: bool, configMap: bool)

  /** What to do next: nothing, start a run, or write a status. */
  datatype Decision<P> = Nothing | Start | Write(obj: Object<P>)

  predicate SpecChanged<P>(o: Object<P>)
  {
    o.generation != o.observed
  }

  predicate WithinThreshold<P>(o: Object<P>, now: nat)
  {
    o.lastUpdate.Some? && now < o.lastUpdate.value + NORMAL_UPDATE_THRESHOLD
  }

  /** Nothing to do until the threshold passes. */
  predicate Settled<P>(o: Object<P>, now: nat)
  {
    !SpecChanged(o) && !o.jobRunning && !o.resync && WithinThreshold(o, now)
  }

  function Started<P>(o: Object<P>): Object<P>
  {
    o.(resync := false, jobRunning := true, observed := o.generation)
  }

  /** The finished-pod branch. */
  function Finish<P>(o: Object<P>, pod: RunnerPod<P>, f: Findings): Object<P>
  {
    var o := o.(jobRunning := false);
    if o.resync then o.(resync := false)   // "starting a new run as requested"
    else if !f.logs then o.(resync := true)
    else
      var success := pod.phase == Succeeded && pod.completed;
      if success && pod.output.None? then o.(ready := false)
      else
        var o := if success then o.(payload := pod.output.value) else o;
        if success && !f.configMap then o.(ready := false)
        else o.(lastUpdate := Some(f.now), observed := o.generation, ready := success)
  }

  /** The decision of a reconcile that has read `o` and, where it looks for them, `pods`. */
  function Decide<P>(o: Object<P>, pods: seq<RunnerPod<P>>, f: Findings): Decision<P>
  {
    if Settled(o, f.now) then Nothing
    else if SpecChanged(o) && o.jobRunning then
      // with a resync already pending, Ready is changed in memory only
      if o.resync then Nothing else Write(o.(ready := false, resync := true))
    else if o.resync then Start
    else if pods == [] then Write(o.(jobRunning := false, resync := true))
    else if |pods| > 1 || pods[0].phase == Pending || pods[0].phase == Running then Nothing
    else Write(Finish(o, pods[0], f))
  }

  // ----- The machine -----

  datatype Pc<P> =
    | Idle
    | Loaded(read: Object<P>)
    | CreateJob(read: Object<P>)
    | Store(read: Object<P>, status: Object<P>)

  /** `jobs` counts the Jobs that carry the object's labels. */
  datatype State<P> = State(obj: Object<P>, jobs: nat, pods: seq<RunnerPod<P>>, pc: Pc<P>)

  datatype Fault = NoFault | Rejected | Lost

  datatype Event<P> =
    | Edit
    | Reconcile(f: Findings, fault: Fault)
    | Crash
    | SetPods(pods: seq<RunnerPod<P>>)
    | DeleteJobs

  /** One API call of the controller. */
  function Next<P>(s: State<P>, f: Findings, fault: Fault): State<P>
  {
    match s.pc
    case Idle => if fault == NoFault then s.(pc := Loaded(s.obj)) else s
    case Loaded(o) =>
      if fault != NoFault then s.(pc := Idle)
      else
        (match Decide(o, s.pods, f)
         case Nothing => s.(pc := Idle)
         case Write(o') => s.(pc := Store(o, o'))
         // a Job that exists is taken over, whatever run it belongs to
         case Start => s.(pc := if s.jobs > 0 then Store(o, Started(o)) else CreateJob(o)))
    case CreateJob(o) =>
      if fault == Rejected then s.(pc := Idle)
      else s.(jobs := s.jobs + 1, pc := if fault == Lost then Idle else Store(o, Started(o)))
    case Store(o, o') =>
      // a status update carries the resourceVersion that was read
      if fault == Rejected || s.obj.version != o.version then s.(pc := Idle)
      else s.(obj := o'.(version := o.version + 1), pc := Idle)
  }

  function Step<P>(s: State<P>, e: Event<P>): State<P>
  {
    match e
    case Edit => s.(obj := s.obj.(generation := s.obj.generation + 1, version := s.obj.version + 1))
    case Reconcile(f, fault) => Next(s, f, fault)
    case Crash => s.(pc := Idle)
    case SetPods(pods) => s.(pods := pods)
    case DeleteJobs => s.(jobs := 0)
  }

  function Run<P>(s: State<P>, es: seq<Event<P>>): State<P>
  {
    if es == [] then s else Step(Run(s, es[..|es| - 1]), es[|es| - 1])
  }

  /** A freshly created object. */
  ghost predicate Init<P>(s: State<P>)
  {
    && s.obj.generation == 1 && s.obj.observed == 0
    && !s.obj.jobRunning && !s.obj.resync && !s.obj.ready && s.obj.lastUpdate.None?
    && s.jobs == 0 && s.pc == Idle
  }

  // ----- Safety -----

  /** The conditions of an object that a controller has read, stored or is about to store. */
  ghost predicate ConditionsOk<P>(o: Object<P>)
  {
    o.observed <= o.generation && (o.jobRunning && o.resync ==> SpecChanged(o))
  }

  /** An object as read: only its spec can have changed since. */
  ghost predicate ReadOk<P>(s: State<P>, o: Object<P>)
  {
    && ConditionsOk(o) && o.version <= s.obj.version
    && s.obj == o.(generation := s.obj.generation, version := s.obj.version)
    && o.generation <= s.obj.generation
    && (o.version == s.obj.version ==> o == s.obj)
  }

  ghost predicate Inv<P>(s: State<P>)
  {
    && ConditionsOk(s.obj) && s.jobs <= 1
    && match s.pc
       case Idle => true
       case Loaded(o) => ReadOk(s, o)
       case CreateJob(o) => ReadOk(s, o) && o.resync && !o.jobRunning && s.jobs == 0
       case Store(o, o') =>
         && ReadOk(s, o) && ConditionsOk(o') && o'.generation == o.generation
         && (Wedged(o) ==> Wedged(o')) && (o.resync ==> o' == Started(o))
  }

  /** The spec changed while a run was recorded as running. */
  ghost predicate Wedged<P>(o: Object<P>)
  {
    o.jobRunning && SpecChanged(o)
  }

  /** What every decision does to the conditions. */
  lemma DecideKeeps<P>(o: Object<P>, pods: seq<RunnerPod<P>>, f: Findings)
    requires ConditionsOk(o)
    ensures Decide(o, pods, f).Start? ==> o.resync && !o.jobRunning
    ensures Decide(o, pods, f).Write? ==>
              var o' := Decide(o, pods, f).obj;
              && !o.resync && ConditionsOk(o') && o'.generation == o.generation && (Wedged(o) ==> Wedged(o'))
              && (o'.jobRunning ==> o.jobRunning)
  {
  }

  lemma StepKeeps<P>(s: State<P>, e: Event<P>)
    requires Inv(s)
    ensures Inv(Step(s, e))
    ensures Wedged(s.obj) ==> Wedged(Step(s, e).obj)
  {
    if e.Reconcile? && s.pc.Loaded? {
      DecideKeeps(s.pc.read, s.pods, e.f);
    }
  }

  lemma {:induction false} RunKeeps<P>(s: State<P>, es: seq<Event<P>>)
    requires Inv(s)
    ensures Inv(Run(s, es))
    ensures Wedged(s.obj) ==> Wedged(Run(s, es).obj)
  {
    if es != [] {
      RunKeeps(s, es[..|es| - 1]);
      StepKeeps(Run(s, es[..|es| - 1]), es[|es| - 1]);
    }
  }

  /**
   In every run: the observed generation is one there has been; a pending resync beside a running
   Job means an unobserved change; there is never a second Job; and a Job is created only for an
   object whose stored JobRunning is false, even when an earlier attempt crashed after creating one.
   */
  lemma ReachableStates<P>(s: State<P>, es: seq<Event<P>>)
    requires Init(s)
    ensures var t := Run(s, es);
            && t.obj.observed <= t.obj.generation
            && (t.obj.jobRunning && t.obj.resync ==> SpecChanged(t.obj))
            && t.jobs <= 1
            && (t.pc.CreateJob? ==> t.jobs == 0 && !t.obj.jobRunning && t.obj.resync)
  {
    RunKeeps(s, es);
  }

  /**
   In every run, the only status that is ever stored over a pending resync is the one that records a
   started run: the finished-pod branch never finds one to drop, although it provides for it.
   */
  lemma NoResyncAtFinish<P>(s: State<P>, es: seq<Event<P>>, o: Object<P>, o': Object<P>)
    requires Init(s) && Run(s, es).pc == Store(o, o') && o.resync
    ensures o' == Started(o)
    ensures forall pod, f :: o' != Finish(o, pod, f)
  {
    RunKeeps(s, es);
  }

  // ----- The wedge -----

  /**
   An edit that finds a run recorded as running is never recovered from: whatever happens next,
   the object stays recorded as running an old generation.
   */
  lemma EditDuringRunWedges<P>(s: State<P>, before: seq<Event<P>>, after: seq<Event<P>>)
    requires Init(s) && Run(s, before).obj.jobRunning
    ensures var t := Run(Step(Run(s, before), Edit), after);
            t.obj.jobRunning && t.obj.observed != t.obj.generation
  {
    RunKeeps(s, before);
    StepKeeps(Run(s, before), Edit);
    RunKeeps(Step(Run(s, before), Edit), after);
  }

  /** No pod yet: the first reconcile asks for a run. */
  lemma FirstRound<P>(s: State<P>, e: Event<P>)
    requires Init(s) && s.pods == [] && e.Reconcile? && e.fault == NoFault
    ensures var s3 := Step(Step(Step(s, e), e), e);
      s3.pc == Idle && s3.obj.resync && !s3.obj.jobRunning && s3.jobs == 0 && s3.obj.lastUpdate.None?
  {
  }

  lemma SecondRound<P>(s: State<P>, e: Event<P>)
    requires s.pc == Idle && s.obj.resync && !s.obj.jobRunning && s.jobs == 0 && e.Reconcile? && e.fault == NoFault
    ensures Step(Step(Step(Step(s, e), e), e), e).obj.jobRunning
  {
  }

  function Times<P>(e: Event<P>, n: nat): seq<Event<P>>
  {
    if n == 0 then [] else Times(e, n - 1) + [e]
  }

  function StepTimes<P>(s: State<P>, e: Event<P>, n: nat): State<P>
  {
    if n == 0 then s else Step(StepTimes(s, e, n - 1), e)
  }

  lemma {:induction false} RunTimes<P>(s: State<P>, e: Event<P>, n: nat)
    ensures Run(s, Times(e, n)) == StepTimes(s, e, n)
  {
    if n > 0 {
      RunTimes(s, e, n - 1);
      assert Times(e, n)[..|Times(e, n - 1)|] == Times(e, n - 1);
    }
  }

  lemma {:induction false} StepTimesAdds<P>(s: State<P>, e: Event<P>, m: nat, n: nat)
    ensures StepTimes(s, e, m + n) == StepTimes(StepTimes(s, e, m), e, n)
  {
    if n > 0 {
      StepTimesAdds(s, e, m, n - 1);
    }
  }

  lemma FirstRoundTimes<P>(s: State<P>, e: Event<P>)
    requires Init(s) && s.pods == [] && e.Reconcile? && e.fault == NoFault
    ensures var s3 := StepTimes(s, e, 3); s3.pc == Idle && s3.obj.resync && !s3.obj.jobRunning && s3.jobs == 0
  {
    FirstRound(s, e);
    assert StepTimes(s, e, 1) == Step(StepTimes(s, e, 0), e) == Step(s, e);
    assert StepTimes(s, e, 3) == Step(StepTimes(s, e, 2), e);
  }

  lemma SecondRoundTimes<P>(s: State<P>, e: Event<P>)
    requires s.pc == Idle && s.obj.resync && !s.obj.jobRunning && s.jobs == 0 && e.Reconcile? && e.fault == NoFault
    ensures StepTimes(s, e, 4).obj.jobRunning
  {
    SecondRound(s, e);
    assert StepTimes(s, e, 1) == Step(StepTimes(s, e, 0), e) == Step(s, e);
    assert StepTimes(s, e, 3) == Step(StepTimes(s, e, 2), e);
    assert StepTimes(s, e, 4) == Step(StepTimes(s, e, 3), e);
  }

  /** The situation does arise: a new object's first reconciles, seven calls, start a Job. */
  lemma RunsDoStart<P>(s: State<P>, f: Findings)
    requires Init(s) && s.pods == []
    ensures Run(s, Times(Reconcile(f, NoFault), 7)).obj.jobRunning
  {
    var e := Event<P>.Reconcile(f, NoFault);
    FirstRoundTimes(s, e);
    SecondRoundTimes(StepTimes(s, e, 3), e);
    StepTimesAdds(s, e, 3, 4);
    RunTimes(s, e, 7);
  }

  // ----- What is stored -----

  /** The pod ran to its end and its log could be decoded. */
  predicate Gave<P(==)>(pod: RunnerPod<P>, x: P)
  {
    pod.phase == Succeeded && pod.completed && pod.output == Some(x)
  }

  /**
   A reconcile that finds the one pod of a run finished stores what the pod put out, and does so
   whether or not the ConfigMap could be written; the other fields follow from what went well.
   */
  lemma FinishedRunIsStored<P>(s: State<P>, pod: RunnerPod<P>, f: Findings)
    requires s.pc == Idle && s.pods == [pod] && pod.phase in {Succeeded, Failed, Unknown}
    requires !s.obj.resync && (s.obj.jobRunning ==> s.obj.observed == s.obj.generation)
    requires s.obj.jobRunning || s.obj.observed != s.obj.generation || s.obj.lastUpdate.None?
             || f.now >= s.obj.lastUpdate.value + 43200
    ensures var o, t := s.obj, Run(s, Times(Reconcile(f, NoFault), 3));
            var succeeded := pod.phase == Succeeded && pod.completed;
            var concluded := f.logs && (succeeded ==> pod.output.Some? && f.configMap);
            && t.pc == Idle && t.jobs == s.jobs && t.obj.version == o.version + 1 && t.obj.generation == o.generation
            && t.obj.payload == (if f.logs && succeeded && pod.output.Some? then pod.output.value else o.payload)
            && !t.obj.jobRunning
            && t.obj.resync == !f.logs
            && t.obj.ready == (if f.logs then concluded && succeeded else o.ready)
            && t.obj.observed == (if concluded then o.generation else o.observed)
            && t.obj.lastUpdate == if concluded then Some(f.now) else o.lastUpdate
  {
    ThreeCalls(s, Reconcile(f, NoFault));
  }

  lemma ThreeCalls<P>(s: State<P>, e: Event<P>)
    ensures Run(s, Times(e, 3)) == Step(Step(Step(s, e), e), e)
  {
    RunTimes(s, e, 3);
    assert StepTimes(s, e, 1) == Step(StepTimes(s, e, 0), e);
    assert StepTimes(s, e, 3) == Step(StepTimes(s, e, 2), e);
  }

  /**
   The other reconciles: an edit during a run and a missing pod ask for a run; a run asked for is
   recorded as running the present generation, with one Job; and nothing is stored while a pod is
   unfinished, or for twelve hours after a run of the present generation.
   */
  lemma OtherReconciles<P>(s: State<P>, f: Findings)
    requires s.pc == Idle
    ensures var o, e := s.obj, Event.Reconcile(f, NoFault);
            var edited := o.observed != o.generation;
            var s2 := Step(Step(s, e), e);
            var s3 := Step(s2, e);
            var s4 := Step(s3, e);
            && (edited && o.jobRunning && !o.resync ==>
      s3 == s.(obj := o.(ready := false, resync := true, version := o.version + 1)))
            && (edited && o.jobRunning && o.resync ==> s2 == s)
            && (o.resync && !(edited && o.jobRunning) ==>
      (if s.jobs == 0 then s4 else s3)
      == s.(jobs := if s.jobs == 0 then 1 else s.jobs,
            obj := o.(resync := false, jobRunning := true, observed := o.generation, version := o.version + 1)))
            && (!edited && !o.jobRunning && !o.resync && o.lastUpdate.Some? && f.now < o.lastUpdate.value + 43200 ==>
      s2 == s)
            && (!o.resync && !(edited && o.jobRunning)
                && (edited || o.jobRunning || o.lastUpdate.None? || f.now >= o.lastUpdate.value + 43200) ==>
      && (s.pods == [] ==> s3 == s.(obj := o.(jobRunning := false, resync := true, version := o.version + 1)))
      && (|s.pods| > 1 || (|s.pods| == 1 && s.pods[0].phase in {Pending, Running}) ==> s2 == s))
  {
  }

  /** Some pod of the run so far gave `x`. */
  ghost predicate PodGave<P>(s: State<P>, es: seq<Event<P>>, x: P)
  {
    exists k | 0 <= k <= |es| :: SomeGave(Run(s, es[..k]).pods, x)
  }

  ghost predicate SomeGave<P>(pods: seq<RunnerPod<P>>, x: P)
  {
    exists pod | pod in pods :: Gave(pod, x)
  }

  /** What an object may show of the pods of a run. */
  ghost predicate Shows<P>(s: State<P>, es: seq<Event<P>>, o: Object<P>)
  {
    && (o.payload == s.obj.payload || PodGave(s, es, o.payload))
    && (o.ready ==> PodGave(s, es, o.payload))
  }

  ghost predicate StateShows<P>(s: State<P>, es: seq<Event<P>>, t: State<P>)
  {
    && Shows(s, es, t.obj)
    && (t.pc.Loaded? || t.pc.CreateJob? || t.pc.Store? ==> Shows(s, es, t.pc.read))
    && (t.pc.Store? ==> Shows(s, es, t.pc.status))
  }

  lemma PodGaveStays<P>(s: State<P>, es: seq<Event<P>>, e: Event<P>, x: P)
    ensures PodGave(s, es, x) ==> PodGave(s, es + [e], x)
  {
    if k :| 0 <= k <= |es| && SomeGave(Run(s, es[..k]).pods, x) {
      assert (es + [e])[..k] == es[..k];
    }
  }

  lemma ShowsStays<P>(s: State<P>, es: seq<Event<P>>, e: Event<P>, o: Object<P>)
    requires Shows(s, es, o)
    ensures Shows(s, es + [e], o)
  {
    PodGaveStays(s, es, e, o.payload);
  }

  /** A decision shows no payload but the one read and the one of the single pod. */
  lemma DecideShows<P>(o: Object<P>, pods: seq<RunnerPod<P>>, f: Findings)
    requires Decide(o, pods, f).Write?
    ensures var o' := Decide(o, pods, f).obj;
            && (o'.payload == o.payload || SomeGave(pods, o'.payload))
            && (o'.ready ==> (o.ready && o'.payload == o.payload) || SomeGave(pods, o'.payload))
  {
    var o' := Decide(o, pods, f).obj;
    if o'.payload != o.payload || (o'.ready && !o.ready) {
      assert Gave(pods[0], o'.payload);
    }
  }

  lemma {:induction false} RunShows<P>(s: State<P>, es: seq<Event<P>>)
    requires Init(s)
    ensures StateShows(s, es, Run(s, es))
  {
    if es != [] {
      var before, e := es[..|es| - 1], es[|es| - 1];
      var t := Run(s, before);
      RunShows(s, before);
      assert es == before + [e];
      ShowsStays(s, before, e, t.obj);
      if !t.pc.Idle? { ShowsStays(s, before, e, t.pc.read); }
      if t.pc.Store? { ShowsStays(s, before, e, t.pc.status); }
      if e.Reconcile? && t.pc.Loaded? && Decide(t.pc.read, t.pods, e.f).Write? {
        DecideShows(t.pc.read, t.pods, e.f);
        var o' := Decide(t.pc.read, t.pods, e.f).obj;
        assert SomeGave(t.pods, o'.payload) ==> PodGave(s, es, o'.payload) by {
          assert es[..|before|] == before;
        }
      }
    }
  }

  /**
   In every run: an object shows the payload it was created with or one that a pod gave, and a
   ready object shows one that a pod gave.
   */
  lemma PayloadsAreOutputs<P>(s: State<P>, es: seq<Event<P>>)
    requires Init(s)
    ensures var o := Run(s, es).obj;
            && (o.payload == s.obj.payload || PodGave(s, es, o.payload))
            && (o.ready ==> PodGave(s, es, o.payload))
  {
    RunShows(s, es);
  }

  /**
   A status that turns Ready to True, or renews the time of the last update with Ready at True, has
   the output of the very pod that was found, for the generation that was read.
   */
  lemma ReadyStoresOutput<P>(o: Object<P>, pods: seq<RunnerPod<P>>, f: Findings)
    requires Decide(o, pods, f).Write?
    ensures var o' := Decide(o, pods, f).obj;
            o'.ready && (!o.ready || o'.lastUpdate != o.lastUpdate) ==>
              && |pods| == 1 && Gave(pods[0], o'.payload) && f.logs && f.configMap
              && o'.observed == o.generation && o'.lastUpdate == Some(f.now) && !o'.jobRunning && !o'.resync
  {
  }
}
