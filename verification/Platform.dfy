/**
  The machine the Agent runs on: the durable journal file, the OS resources and
  a record of everything that happened to them. Every call may fail; a crash may
  stop the Agent at any recorded moment.
*/
module Platforms {
  import opened Wrappers
  import opened Journals

  /** What survives a crash. */
  datatype Moment = Moment(disk: Journal, os: set<Resource>)

  datatype SaveOutcome = Saved | Overflow | Rejected(error: JournalError) | Unwritten

  /** Recovery's visible actions, in order. `Notify` is the guarded recoveries'
      own egress hook, which runs before the recovery pass. */
  datatype Act = Restore(kind: Kind, ok: bool) | Revoke(attached: bool) | Notify(attached: bool)

  datatype Inspection = Reattachable | NeedsRecovery

  /** A question to the backend and its answer; no answer is `None`. */
  datatype Question = AboutTunnel(inspection: Option<Inspection>) | AboutAdapter(receipt: Receipt, present: Option<bool>)

  datatype ApplyOutcome =
    | AppliedAs(receipt: Receipt, handles: bool)
    | PartiallyApplied(receipt: Receipt)
    | ApplyFailed

  class Platform {
    var disk: Journal
    var os: set<Resource>
    var moments: seq<Moment>
    ghost var saves: seq<SaveOutcome>
    ghost var acts: seq<Act>
    ghost var asked: seq<Question>

    /** A fresh installation. */
    constructor ()
      ensures disk == CleanJournal(0) && os == {} && moments == [Moment(disk, os)]
      ensures saves == [] && acts == [] && asked == []
    {
      disk := CleanJournal(0);
      os, saves, acts, asked := {}, [], [], [];
      moments := [Moment(CleanJournal(0), {})];
    }

    /** Bumps the generation, validates, then replaces the file or leaves it alone. */
    method Save(policy: Policy, j: Journal) returns (saved: Journal, outcome: SaveOutcome)
      modifies this`disk, this`moments, this`saves
      ensures saved == if j.generation >= U64_MAX then j else j.(generation := j.generation + 1)
      ensures outcome == Overflow <==> j.generation >= U64_MAX
      ensures outcome.Rejected? <==> j.generation < U64_MAX && !Accepted(policy, saved)
      ensures outcome == Saved ==> Accepted(policy, saved)
      ensures disk == if outcome == Saved then saved else old(disk)
      ensures moments == old(moments) + [Moment(disk, os)]
      ensures saves == old(saves) + [outcome]
    {
      saved := j;
      ValidateMeansAccepted(policy, j.(generation := j.generation + 1));
      if j.generation >= U64_MAX {
        outcome := Overflow;
      } else {
        saved := j.(generation := j.generation + 1);
        var verdict := Validate(policy, saved);
        if verdict.Some? {
          outcome := Rejected(verdict.value);
        } else {
          var written: bool := *;
          outcome := if written then Saved else Unwritten;
          if written {
            disk := saved;
          }
        }
      }
      moments, saves := moments + [Moment(disk, os)], saves + [outcome];
    }

    /** Read-only discovery; the receipt is arbitrary. */
    method PlanStep(kind: Kind, plan: Option<Plan>) returns (receipt: Option<Receipt>)
    {
      receipt := *;
    }

    /** Applies at most the named resource and keeps its identity in the receipt. */
    method Apply(receipt: Receipt) returns (outcome: ApplyOutcome)
      modifies this`os, this`moments
      ensures old(os) <= os <= old(os) + {Names(receipt)}
      ensures outcome.AppliedAs? ==> Names(receipt) in os
      ensures !outcome.ApplyFailed? && outcome.receipt.Kind() == receipt.Kind() ==>
                Names(outcome.receipt) == Names(receipt)
      ensures moments == old(moments) + [Moment(disk, os)]
    {
      var reached: bool, complete: bool, partial: bool, handles: bool := *, *, *, *;
      var enriched: Receipt := *;
      if enriched.Kind() == receipt.Kind() && Names(enriched) != Names(receipt) {
        enriched := receipt;
      }
      outcome :=
        if complete then AppliedAs(enriched, handles)
        else if partial then PartiallyApplied(enriched)
        else ApplyFailed;
      if reached || outcome.AppliedAs? {
        os := os + {Names(receipt)};
      }
      moments := moments + [Moment(disk, os)];
    }

    /** Removes the named resource, or fails having removed any part of it. */
    method Restore(receipt: Receipt) returns (ok: bool)
      modifies this`os, this`moments, this`acts
      ensures old(os) - Destroyed(receipt) <= os <= old(os)
      ensures ok ==> os == old(os) - Destroyed(receipt)
      ensures moments == old(moments) + [Moment(disk, os)]
      ensures acts == old(acts) + [Act.Restore(receipt.Kind(), ok)]
    {
      ok := *;
      if ok {
        os := os - Destroyed(receipt);
      } else {
        var kept: set<Resource> := *;
        os := os - (Destroyed(receipt) - kept);
      }
      moments, acts := moments + [Moment(disk, os)], acts + [Act.Restore(receipt.Kind(), ok)];
    }

    /** Recreates only the volatile session named by an applied receipt. */
    method Resume(session: Receipt) returns (ok: bool)
      modifies this`os, this`moments
      ensures old(os) <= os <= old(os) + {Names(session)}
      ensures ok ==> Names(session) in os
      ensures moments == old(moments) + [Moment(disk, os)]
    {
      ok := *;
      var reached: bool := *;
      if ok || reached {
        os := os + {Names(session)};
      }
      moments := moments + [Moment(disk, os)];
    }

    method RevokeEgress(attached: bool)
      modifies this`acts
      ensures acts == old(acts) + [Revoke(attached)]
    {
      acts := acts + [Revoke(attached)];
    }

    method NotifyRecovery(attached: bool)
      modifies this`acts
      ensures acts == old(acts) + [Notify(attached)]
    {
      acts := acts + [Notify(attached)];
    }

    method InspectTunnel() returns (inspection: Option<Inspection>)
      modifies this`asked
      ensures asked == old(asked) + [AboutTunnel(inspection)]
    {
      inspection := *;
      asked := asked + [AboutTunnel(inspection)];
    }

    /** `Some(false)` proves the exact adapter absent, with everything on it: its
        delayed removal has completed. */
    method InspectAdapter(receipt: Receipt) returns (present: Option<bool>)
      modifies this`os, this`moments, this`asked
      ensures os <= old(os)
      ensures present == Some(false) ==> Destroyed(receipt) !! os
      ensures asked == old(asked) + [AboutAdapter(receipt, present)]
      ensures moments == old(moments) + [Moment(disk, os)]
    {
      present := *;
      if present == Some(false) {
        os := os - Destroyed(receipt);
      }
      moments, asked := moments + [Moment(disk, os)], asked + [AboutAdapter(receipt, present)];
    }

    /** The process died at an earlier moment, so nothing after it happened, and
        took with it any resources that were local to it. */
    method Crash(at: nat)
      requires at < |moments|
      modifies this
      ensures disk == old(moments)[at].disk && os <= old(moments)[at].os
      ensures moments == old(moments)[..at + 1] + [Moment(disk, os)]
      ensures saves == old(saves) && acts == old(acts) && asked == old(asked)
    {
      var lost: set<Resource> := *;
      disk, os := moments[at].disk, moments[at].os - lost;
      moments := moments[..at + 1] + [Moment(disk, os)];
    }
  }
}
