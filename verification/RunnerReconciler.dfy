/**
 The reconcile of an Image or InstanceType as the controllers write it: conditions and status fields
 are set one by one, with early returns. It makes exactly the decisions of the runner machine.
 */
module RunnerReconciler {
  import opened Wrappers
  import opened Runner

  datatype Outcome = Finished | Requeued | Errored

  /** The fetched object, the Jobs and pods that carry its labels, and the ProviderProfile's ConfigMap. */
  class Reconciler<P(==)> {
    var generation: nat
    var observed: nat
    var jobRunning: bool
    var resync: bool
    var ready: bool
    var lastUpdate: Option<nat>
    var payload: P
    var version: nat
    var jobs: nat
    var pods: seq<RunnerPod<P>>
    /** The status as the API server has it. */
    var stored: Object<P>

    function InMemory(): Object<P>
      reads this
    {
      Object(generation, version, observed, jobRunning, resync, ready, lastUpdate, payload)
    }

    constructor (o: Object<P>, jobs: nat, pods: seq<RunnerPod<P>>)
      ensures InMemory() == stored == o && this.jobs == jobs && this.pods == pods
    {
      generation, version, observed := o.generation, o.version, o.observed;
      jobRunning, resync, ready := o.jobRunning, o.resync, o.ready;
      lastUpdate, payload := o.lastUpdate, o.payload;
      stored := o;
      this.jobs, this.pods := jobs, pods;
    }

    /** `r.Status().Update`: stores the status fields unless the call fails. */
    method UpdateStatus(ok: bool)
      modifies this`stored, this`version
      ensures stored == (if ok then old(InMemory()).(version := old(version) + 1) else old(stored))
      ensures version == (if ok then old(version) + 1 else old(version))
    {
      if ok {
        version := version + 1;
        stored := InMemory();
      }
    }

    /** Creates the Job unless one carries the labels already. */
    method EnsureJobRunner(ok: bool) returns (err: bool)
      modifies this`jobs
      ensures err == (old(jobs) == 0 && !ok)
      ensures jobs == (if old(jobs) == 0 && ok then 1 else old(jobs))
    {
      if jobs > 0 {
        return false;
      }
      if !ok {
        return true;
      }
      jobs := 1;
      err := false;
    }

    /** The branch for a pod that has finished. */
    method FinishRun(pod: RunnerPod<P>, f: Findings, updated: bool) returns (outcome: Outcome)
      requires InMemory() == stored
      modifies this`jobRunning, this`resync, this`ready, this`lastUpdate, this`observed, this`payload, this`stored,
          this`version
      ensures outcome.Errored? <==> !updated
      ensures stored == if updated then Finish(old(stored), pod, f).(version := old(version) + 1) else old(stored)
      ensures stored.payload ==
              if updated && !old(resync) && f.logs && pod.phase == Succeeded && pod.completed && pod.output.Some?
              then pod.output.value else old(stored).payload
      ensures outcome.Finished? <==>
              && updated && !old(resync) && f.logs
              && (pod.phase == Succeeded && pod.completed ==> pod.output.Some? && f.configMap)
    {
      jobRunning := false;
      // never so when called from `Reconcile`, which serves a pending resync first
      if resync {
        resync := false;
        UpdateStatus(updated);
        return if updated then Requeued else Errored;
      }
      if !f.logs {
        resync := true;
        UpdateStatus(updated);
        return if updated then Requeued else Errored;
      }
      var success := pod.phase == Succeeded && pod.completed;
      if success {
        if pod.output.None? {
          ready := false;
          UpdateStatus(updated);
          return if updated then Requeued else Errored;
        }
        payload := pod.output.value;
        if !f.configMap {
          ready := false;
          UpdateStatus(updated);
          return if updated then Requeued else Errored;
        }
      }
      lastUpdate := Some(f.now);
      observed := generation;
      ready := success;
      UpdateStatus(updated);
      return if updated then Finished else Errored;
    }

    /** The branch for a pending resync. */
    method StartRun(created: bool, updated: bool) returns (outcome: Outcome)
      requires InMemory() == stored
      modifies this`jobRunning, this`resync, this`observed, this`stored, this`version, this`jobs
      ensures jobs == if old(jobs) == 0 && created then 1 else old(jobs)
      ensures outcome.Errored? <==> !(jobs > 0 && updated)
      ensures !outcome.Finished?
      ensures stored == if jobs > 0 && updated then Started(old(stored)).(version := old(version) + 1) else old(stored)
    {
      var err := EnsureJobRunner(created);
      if err {
        return Errored;
      }
      resync := false;
      jobRunning := true;
      observed := generation;
      UpdateStatus(updated);
      return if updated then Requeued else Errored;
    }

    /**
     `created` and `updated` say whether the creation of a Job and the status update succeed. What
     is stored afterwards is what the machine decides, or what was stored before.
     */
    method Reconcile(f: Findings, created: bool, updated: bool) returns (outcome: Outcome)
      requires InMemory() == stored
      modifies this`jobRunning, this`resync, this`ready, this`lastUpdate, this`observed, this`payload, this`stored,
          this`version, this`jobs
      ensures outcome.Errored? ==> stored == old(stored)
      ensures stored.payload == old(stored).payload || (|pods| == 1 && Gave(pods[0], stored.payload))
      ensures outcome.Finished? ==>
                && |pods| == 1 && f.logs && stored.lastUpdate == Some(f.now) && stored.observed == stored.generation
                && stored.ready == (pods[0].phase == Succeeded && pods[0].completed)
                && (stored.ready ==> Gave(pods[0], stored.payload))
      ensures match Decide(old(stored), pods, f)
              case Nothing => stored == old(stored) && jobs == old(jobs)
              case Write(o) => jobs == old(jobs) && stored == if updated then o.(version := old(version) + 1)
                  else old(stored)
              case Start =>
                && jobs == (if old(jobs) == 0 && created then 1 else old(jobs))
                && stored == if jobs > 0 && updated then Started(old(stored)).(version := old(version) + 1)
                    else old(stored)
    {
      var specChanged := generation != observed;
      var withinThreshold := lastUpdate.Some? && f.now < lastUpdate.value + NORMAL_UPDATE_THRESHOLD;
      if !specChanged && !jobRunning && !resync && withinThreshold {
        return Requeued;
      }

      // spec changed while a job runs: mark for a re-run
      if specChanged && jobRunning {
        ready := false;
        if !resync {
          resync := true;
          UpdateStatus(updated);
        }
        return Requeued;
      }

      if resync {
        outcome := StartRun(created, updated);
        return;
      }

      if |pods| == 0 {
        jobRunning := false;
        resync := true;
        UpdateStatus(updated);
        return if updated then Requeued else Errored;
      }
      if |pods| > 1 {
        return Errored;
      }
      if pods[0].phase == Pending || pods[0].phase == Running {
        return Requeued;
      }
      outcome := FinishRun(pods[0], f, updated);
    }
  }
}
