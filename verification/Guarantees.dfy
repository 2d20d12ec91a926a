/**
 What the protocol's machine guarantees, carried over to the controllers as they are written.
 */
module Guarantees {
  import opened Protocol
  import opened Controllers
  import PodClaim
  import Approval
  import TwoWriters

  predicate NoConflictOf(side: Side, es: seq<Event>)
  {
    forall e | e in es && e.WriterStep? && e.side == side :: e.fault != Conflicted
  }

  /**
   What is proved of the machine holds of the code: between any two calls of any controller, approvals
   are for the plan; a clean return has brought one plan to the Atlas, the mesh and the stored status; a
   side that has synced its policy's present version without swallowing a Conflict has it referenced; and
   at most one pod is live if no List has failed while one was.
   */
  lemma CodeIsSafe(a: ApiServer)
    requires a.Valid() && Init(a.start)
    ensures forall target, o | o in a.Objects(target) && o.approve :: o.plan == o.approved
    ensures a.outcome.Ensured? ==>
              && Approval.Carries(a.atlas, a.outcome.plan) && Approval.Carries(a.mesh, a.outcome.plan)
              && Approval.StoredPlan(a.Now().world, a.outcome.plan)
    ensures forall side | TwoWriters.Synced(a.Now(), side) && NoConflictOf(side, Trace(a.actor, a.fate, a.picks)) ::
              TwoWriters.Current(a.Now(), side)
    ensures PodClaim.PodsSeen(a.start, Trace(a.actor, a.fate, a.picks)) ==> PodClaim.AtMostOneLive(a.pods)
  {
    var es := Trace(a.actor, a.fate, a.picks);
    Approval.ApprovalIsForThePlan(a.start, es, Atlas);
    Approval.ApprovalIsForThePlan(a.start, es, AtlasMesh);
    if a.outcome.Ensured? {
      Approval.CleanReturnAgrees(a.start, es);
    }
    forall side | TwoWriters.Synced(a.Now(), side) && NoConflictOf(side, es) ensures TwoWriters.Current(a.Now(), side) {
      TwoWriters.ConvergeWithoutConflicts(a.start, es, side);
    }
    if PodClaim.PodsSeen(a.start, es) {
      PodClaim.OnePodPerTask(a.start, es);
    }
  }
}
