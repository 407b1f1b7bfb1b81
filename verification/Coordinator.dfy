/**
  The Agent's transaction coordinator. One object is one Agent process; it works
  on a `Platform` that outlives it. Every public method holds the journal lock
  for its whole body, so methods are serialized, but each save or backend call
  inside one may fail and may be the last thing the process does.
*/
module Coordinators {
  import opened Wrappers
  import opened Journals
  import opened Safety
  import opened Platforms
  import opened Recovery
  import opened Leases
  import opened Runs

  datatype Error =
    | JournalFailure(outcome: SaveOutcome) | BackendFailure
    | InvalidPlan | InvalidCaller | NotClean(phase: Phase) | RecoveryConflict | RecoveryBusy
    | OperationMismatch | WrongOperation | OwnerMismatch | InvalidPhase(phase: Phase)
    | InvalidRingCapacity | DuplicatePacketSession | SessionAlreadyAttached | SessionNotAttached
    | LeaseAlreadyAttached | SessionRequired | MissingHandles | MissingPlan
    | MissingAppliedStep(kind: Kind) | ProfileMismatch | DuplicateStep(kind: Kind)
    | ReceiptKindMismatch(kind: Kind)
    | ApplyAndRecovery(apply: Error, recovery: Error)
    | RecoveryFailures(failures: seq<Failure>)

  datatype Caller = Caller(process: nat, sid: string, absolutePath: bool)

  predicate ValidCaller(caller: Caller) {
    caller.process != 0 && ValidSid(caller.sid) && caller.absolutePath
  }

  /** A watchdog token: the transaction and lease event that armed it. */
  datatype Token = Token(operation: Uuid, transaction: nat, at: nat)

  function EnsureOwner(j: Journal, operation: Uuid, caller: Caller): Option<Error> {
    if !ValidCaller(caller) then Some(InvalidCaller)
    else if j.operation != Some(operation) then Some(OperationMismatch)
    else if j.ownerSid != Some(caller.sid) || j.ownerProcess != Some(caller.process) then Some(OwnerMismatch)
    else None
  }

  /** Ownership, then the operation kind every tunnel call requires. */
  function EnsureTunnelOwner(j: Journal, operation: Uuid, caller: Caller): Option<Error> {
    if EnsureOwner(j, operation, caller).Some? then EnsureOwner(j, operation, caller)
    else if j.operationKind != Some(Tunnel) then Some(WrongOperation)
    else None
  }

  /** What keeps a tunnel from becoming a chain: another owner, phase or no plan. */
  function Unchainable(j: Journal, operation: Uuid, caller: Caller): (error: Option<Error>)
    ensures error.None? ==>
              && j.operationKind == Some(Tunnel) && j.operation == Some(operation) && j.plan.Some?
              && j.ownerProcess == Some(caller.process) && (j.phase == Active || j.phase == Prepared)
  {
    var owner := EnsureTunnelOwner(j, operation, caller);
    if owner.Some? then owner
    else if j.phase != Active && j.phase != Prepared then Some(InvalidPhase(j.phase))
    else if j.plan.None? then Some(MissingPlan)
    else None
  }

  /** The steps applied before a tunnel counts as prepared, in order. */
  function PrepareKinds(plan: Plan): seq<Kind> {
    var kinds :=
      if plan.deferred then [WintunAdapter, EndpointBypass, KillSwitch]
      else if plan.vpnChain then [WintunAdapter, EndpointBypass, KillSwitch, InterfaceConfiguration, Dns]
      else [WintunAdapter, EndpointBypass, InterfaceConfiguration, Dns];
    if plan.automaticPolicy.Some? || plan.presetPolicy.Some? then kinds[..1] + [WfpMetadata] + kinds[1..] else kinds
  }

  class Coordinator {
    const platform: Platform
    const policy: Policy
    var journal: Journal
    var sessionAttached: bool
    var leaseAttached: bool
    var leaseEpoch: nat
    ghost var leaseLog: seq<LeaseEvent>
    ghost var armed: set<Token>
    ghost var spent: set<(Uuid, nat)>
    ghost var transactions: nat
    ghost var recoveries: nat

    ghost predicate MachineInv()
      reads this`journal, platform`disk, platform`os, platform`moments
    {
      && Safe(journal, platform.os)
      && Safe(platform.disk, platform.os) && Accepted(policy, platform.disk)
      && platform.disk.generation <= journal.generation
      && (journal.phase == Clean ==> platform.disk.phase == Clean)
      && Chronicled(platform.moments, platform.disk, journal)
      && (forall i :: 0 <= i < |platform.moments| ==>
            && Safe(platform.moments[i].disk, platform.moments[i].os)
            && Accepted(policy, platform.moments[i].disk))
    }

    ghost predicate LeaseInv()
      reads this
    {
      && Legal(leaseLog) && leaseAttached == Attached(leaseLog) && leaseEpoch == Epoch(leaseLog)
      && recoveries == Recoveries(leaseLog)
      && (forall t :: t in armed ==>
            && 0 < t.at <= |leaseLog| && leaseLog[t.at - 1].Arms()
            && (t.at == |leaseLog| ==>
                  && t.transaction == transactions && Unrestored(journal.steps, EndpointBypass)))
    }

    ghost predicate Inv()
      reads this, platform`disk, platform`os, platform`moments
    {
      && MachineInv()
      && LeaseInv()
      && (sessionAttached ==> IsApplied(journal.steps, PacketSession))
      && (forall t :: t in spent ==> t.1 < journal.generation || t.1 >= U64_MAX)
    }

    /** A new Agent process: it trusts the durable journal and nothing volatile. */
    constructor Open(platform: Platform, policy: Policy)
      requires Safe(platform.disk, platform.os) && Accepted(policy, platform.disk)
      requires forall i :: 0 <= i < |platform.moments| ==>
                 && Safe(platform.moments[i].disk, platform.moments[i].os)
                 && Accepted(policy, platform.moments[i].disk)
      requires Chronicled(platform.moments, platform.disk, platform.disk)
      ensures this.platform == platform && this.policy == policy
      ensures Inv() && journal == platform.disk && !sessionAttached && !leaseAttached
      ensures leaseLog == [] && armed == {} && spent == {} && transactions == 0 && recoveries == 0
    {
      this.platform, this.policy := platform, policy;
      LoadMeans(policy, platform.disk);
      journal := Load(policy, Some(platform.disk)).value;
      sessionAttached, leaseAttached, leaseEpoch := false, false, 0;
      leaseLog, armed, spent, transactions, recoveries := [], {}, {}, 0, 0;
    }

    /** Saves the in-memory journal; the generation advances even on failure. */
    method Persist() returns (outcome: SaveOutcome)
      requires Inv()
      modifies this`journal, platform`disk, platform`moments, platform`saves
      ensures old(platform.moments) <= platform.moments == old(platform.moments) + [Moment(platform.disk, platform.os)]
      ensures Inv()
      ensures journal == Bumped(old(journal))
      ensures platform.disk == if outcome == Saved then journal else old(platform.disk)
      ensures platform.saves == old(platform.saves) + [outcome]
      ensures outcome == Saved ==> Accepted(policy, journal) && journal.generation > old(journal.generation)
      ensures outcome.Rejected? ==> !Accepted(policy, journal)
      ensures !Accepted(policy, journal) ==> outcome.Rejected? || outcome == Overflow
    {
      hide Chronicled, Safe, Accepted, Unrestored, IsApplied;
      SafeAnyGeneration(journal, platform.os, Bumped(journal).generation);
      ghost var moments, disk, before := platform.moments, platform.disk, journal;
      journal, outcome := platform.Save(policy, journal);
      ChronicledStore(moments, disk, before, journal, outcome, platform.os);
    }

    ghost function Now(): Scene
      reads this, platform
    {
      Scene(journal, platform.disk, platform.acts, platform.saves, sessionAttached)
    }

    /** In recovery, with every watchdog of this transaction already out of date. */
    ghost predicate Quiescing()
      reads this
    {
      journal.phase == Recovering && forall t :: t in armed ==> t.at < |leaseLog|
    }

    /** Records a step whose resources are gone as Restored and saves. */
    method RecordRestored(index: nat) returns (outcome: SaveOutcome)
      requires Inv() && Quiescing() && index < |journal.steps|
      requires Destroyed(journal.steps[index].receipt) !! platform.os
      requires sessionAttached ==> journal.steps[index].kind != PacketSession
      modifies this`journal, platform`disk, platform`moments, platform`saves
      ensures old(platform.moments) <= platform.moments
      ensures Inv() && Quiescing() && Marked(policy, index, old(Now()), Now(), outcome)
    {
      MarkAccepted(policy, journal, index);
      hide Chronicled, Safe, Accepted, Unrestored, IsApplied;
      MarkKeeps(journal, platform.os, index);
      var marked := journal.(steps := MarkRestored(journal.steps, index));
      SessionStaysApplied(journal.steps, index);
      Carried(journal, marked);
      ChronicledMemory(platform.moments, platform.disk, journal, marked);
      journal := marked;
      outcome := Persist();
      GenerationIgnored(policy, marked, journal.generation);
    }

    /** Acts on one step of the recovery order. */
    method Act(index: nat) returns (called: bool, restored: bool, outcome: SaveOutcome)
      requires Inv() && Quiescing() && index < |journal.steps|
      requires journal.steps[index].state != Restored
      modifies this`journal, this`sessionAttached
      modifies platform`disk, platform`os, platform`moments, platform`saves, platform`acts
      ensures old(platform.moments) <= platform.moments
      ensures Inv() && Quiescing() && Acted(policy, index, old(Now()), Now(), called, restored, outcome)
    {
      hide Inv, Safe, DependencySatisfied, Accepted;
      var kind := journal.steps[index].kind;
      outcome := Saved;
      called := !DependencySatisfied(journal.steps, index);
      if !called {
        GoneWithAdapter(index);
        restored := true;
        outcome := RecordRestored(index);
        return;
      }
      restored := Dismantle(index);
      if restored {
        if kind == PacketSession {
          Detach();
        }
        outcome := RecordRestored(index);
      }
    }

    lemma GoneWithAdapter(index: nat)
      requires Inv() && index < |journal.steps| && DependencySatisfied(journal.steps, index)
      ensures Destroyed(journal.steps[index].receipt) !! platform.os
      ensures journal.steps[index].kind == InterfaceConfiguration || journal.steps[index].kind == Dns
    {
      DependencyIsGone(journal, platform.os, index);
    }

    /** Has the backend remove what a step created. */
    method Dismantle(index: nat) returns (ok: bool)
      requires Inv() && index < |journal.steps|
      modifies platform`os, platform`moments, platform`acts
      ensures Inv() && old(platform.moments) <= platform.moments
      ensures platform.acts == old(platform.acts) + [Restore(journal.steps[index].kind, ok)]
      ensures ok ==> Destroyed(journal.steps[index].receipt) !! platform.os
    {
      StepsDistinct();
      hide Chronicled, Safe, Accepted, Unrestored, IsApplied;
      ghost var before, moments := platform.os, platform.moments;
      ok := platform.Restore(journal.steps[index].receipt);
      ChronicledMoment(moments, platform.disk, journal, platform.os);
      SafeShrinks(journal, before, platform.os);
      SafeShrinks(platform.disk, before, platform.os);
    }

    /** Visits the next step of the order, revoking egress first if that is due. */
    method Visit(ghost p: Scene, ghost order: seq<nat>, ghost n: nat, index: nat, revoked: bool, failures: seq<Failure>)
      returns (failures': seq<Failure>, revoked': bool, stop: bool)
      requires Inv() && Quiescing() && Visiting(policy, p, Now(), order, n, failures)
      requires n < |order| && index == order[n] && revoked == (n > SessionSteps(p))
      modifies this`journal, this`sessionAttached
      modifies platform`disk, platform`os, platform`moments, platform`saves, platform`acts
      ensures old(platform.moments) <= platform.moments
      ensures Inv() && Quiescing() && revoked' == (n + 1 > SessionSteps(p))
      ensures !stop ==> Visiting(policy, p, Now(), order, n + 1, failures')
      ensures stop ==> failures' != [] && Conducted(policy, p, Now(), failures')
    {
      hide Inv, Visiting, Conducted, Acted, SessionSteps;
      ghost var s := Now();
      VisitFacts(policy, p, s, order, n, failures);
      var kind := journal.steps[index].kind;
      stop, failures', revoked' := false, failures, revoked || kind != PacketSession;
      if kind != PacketSession && !revoked {
        if sessionAttached {
          return [RestoreFailed(PacketSession)], revoked', true;
        }
        platform.RevokeEgress(sessionAttached);
      }
      var called, restored, outcome := Act(index);
      VisitActs(policy, p, s, Now(), order, n, failures, called, restored, outcome);
      if restored {
        failures' := Noted(failures, kind, outcome);
      } else {
        failures' := failures + [RestoreFailed(kind)];
        stop := kind == PacketSession;
      }
    }

    /** Settles a step whose adapter turned out to be gone, dropping its own failure. */
    method Reconcile(ghost p: Scene, index: nat, failures: seq<Failure>) returns (failures': seq<Failure>)
      requires Inv() && Quiescing() && Visited(policy, p, Now(), failures)
      requires index < |journal.steps| && DependencySatisfied(journal.steps, index)
      modifies this`journal, platform`disk, platform`moments, platform`saves
      ensures old(platform.moments) <= platform.moments
      ensures Inv() && Quiescing() && Visited(policy, p, Now(), failures') && |journal.steps| == |old(journal.steps)|
    {
      DependencyIsGone(journal, platform.os, index);
      hide Inv, Visited, DependencySatisfied, Accepted;
      var kind := journal.steps[index].kind;
      var outcome := RecordRestored(index);
      failures' := Noted(Retained(failures, kind), kind, outcome);
      VisitedReconciles(policy, p, old(Now()), Now(), failures, index, outcome);
    }

    lemma PassStarts()
      requires Inv()
      ensures Visiting(policy, Now(), Now(), RestoreOrder(journal.steps), 0, [])
    {
      assert sessionAttached ==> Unrestored(journal.steps, PacketSession);
      VisitsStart(policy, Now(), RestoreOrder(journal.steps));
    }

    /** One recovery pass over the steps. */
    method RestoreSteps() returns (failures: seq<Failure>)
      requires Inv() && Quiescing()
      modifies this`journal, this`sessionAttached
      modifies platform`disk, platform`os, platform`moments, platform`saves, platform`acts
      ensures old(platform.moments) <= platform.moments
      ensures Inv() && Quiescing() && Conducted(policy, old(Now()), Now(), failures)
    {
      hide Inv, Quiescing, Visiting, Visited, Conducted, SessionSteps, RestoreOrder;
      ghost var p := Now();
      var order := RestoreOrder(journal.steps);
      PassStarts();
      failures := [];
      var revoked, n := false, 0;
      while n < |order|
        invariant 0 <= n <= |order| && revoked == (n > SessionSteps(p))
        invariant Inv() && Quiescing() && Visiting(policy, p, Now(), order, n, failures)
        invariant old(platform.moments) <= platform.moments
      {
        var stop;
        failures, revoked, stop := Visit(p, order, n, order[n], revoked, failures);
        if stop {
          return;
        }
        n := n + 1;
      }
      VisitsEnd(policy, p, Now(), order, failures);
      if !revoked {
        if sessionAttached {
          return [RestoreFailed(PacketSession)];
        }
        platform.RevokeEgress(sessionAttached);
      }
      var count := |journal.steps|;
      for index := 0 to count
        invariant Inv() && Quiescing() && Visited(policy, p, Now(), failures) && |journal.steps| == count
        invariant old(platform.moments) <= platform.moments
      {
        if DependencySatisfied(journal.steps, index) {
          failures := Reconcile(p, index, failures);
        }
      }
      VisitedConducts(policy, p, Now(), failures);
    }

    /** Drops the lease, outdates every watchdog and enters the Recovering phase. */
    method EnterRecovery() returns (first: SaveOutcome)
      requires Inv() && journal.phase != Clean
      modifies this, platform`disk, platform`moments, platform`saves
      ensures old(platform.moments) <= platform.moments
      ensures Inv() && Quiescing() && Entered(old(Now()), Now(), first)
      ensures leaseLog == old(leaseLog) + [RecoveryBegan] && recoveries == old(recoveries) + 1
      ensures armed == old(armed) && spent == old(spent) && transactions == old(transactions)
    {
      hide MachineInv, LeaseInv, Unrestored, IsApplied;
      Outdate();
      Retire();
      first := Persist();
    }

    /** Drops the lease and advances the epoch past every armed watchdog. */
    method Outdate()
      requires Inv()
      modifies this`leaseAttached, this`leaseEpoch, this`leaseLog, this`recoveries
      ensures Inv() && leaseLog == old(leaseLog) + [RecoveryBegan] && recoveries == old(recoveries) + 1
      ensures forall t :: t in armed ==> t.at < |leaseLog|
    {
      hide MachineInv, Unrestored, IsApplied, Legal, Attached, Epoch, Recoveries;
      BumpsAppend(leaseLog, RecoveryBegan);
      leaseAttached := false;
      leaseEpoch := (leaseEpoch + 1) % EPOCHS;
      leaseLog := leaseLog + [RecoveryBegan];
      recoveries := recoveries + 1;
    }

    /** Enters the Recovering phase in memory. */
    method Retire()
      requires Inv() && journal.phase != Clean && forall t :: t in armed ==> t.at < |leaseLog|
      modifies this`journal
      ensures Inv() && Quiescing() && journal == AsRecovering(old(journal))
    {
      hide Chronicled, Safe, Accepted, Unrestored, IsApplied, Legal, Attached, Epoch, Recoveries;
      SafeRetired(journal, platform.os, Recovering, None);
      Carried(journal, AsRecovering(journal));
      ChronicledMemory(platform.moments, platform.disk, journal, AsRecovering(journal));
      journal := AsRecovering(journal);
    }

    /** Leaves the transaction waiting for another recovery. */
    method RequireRecovery(generation: nat) returns (last: SaveOutcome)
      requires Inv() && Quiescing() && generation >= journal.generation
      modifies this`journal, platform`disk, platform`moments, platform`saves
      ensures old(platform.moments) <= platform.moments
      ensures Inv() && journal == Bumped(old(journal).(phase := RecoveryRequired, generation := generation))
      ensures platform.disk == if last == Saved then journal else old(platform.disk)
      ensures platform.saves == old(platform.saves) + [last]
      ensures last == Saved ==> journal.generation > generation
    {
      hide Chronicled, Safe, Accepted, Unrestored, IsApplied;
      SafeRetired(journal, platform.os, RecoveryRequired, journal.pauseDeadline);
      SafeAnyGeneration(journal.(phase := RecoveryRequired), platform.os, generation);
      ghost var waiting := journal.(phase := RecoveryRequired, generation := generation);
      Carried(journal, waiting);
      ChronicledMemory(platform.moments, platform.disk, journal, waiting);
      journal := journal.(phase := RecoveryRequired, generation := generation);
      last := Persist();
    }

    /** Makes Clean durable and only then adopts it in memory. */
    method PublishClean() returns (outcome: SaveOutcome, last: SaveOutcome)
      requires Inv() && Quiescing() && AllRestored(journal.steps) && !sessionAttached
      modifies this`journal, platform`disk, platform`moments, platform`saves
      ensures old(platform.moments) <= platform.moments
      ensures Inv()
      ensures outcome == Saved ==>
                && journal == CleanJournal(old(journal.generation) + 1) && platform.disk == journal
                && platform.saves == old(platform.saves) + [Saved] && platform.os == {}
      ensures outcome != Saved ==>
                && (outcome == Unwritten || outcome == Overflow)
                && journal.(generation := 0) == old(journal).(phase := RecoveryRequired, generation := 0)
                && journal.generation >= old(journal.generation)
                && platform.disk == (if last == Saved then journal else old(platform.disk))
                && platform.saves == old(platform.saves) + [outcome] + [last]
                && (last == Saved ==> journal.generation > old(journal.generation))
    {
      hide Chronicled, Safe, Accepted, Unrestored, IsApplied, AllRestored;
      CleanMeansEmpty(journal, platform.os);
      CleanIsSafe(policy, journal.generation + 1);
      last := Saved;
      var clean;
      ghost var moments, disk := platform.moments, platform.disk;
      clean, outcome := platform.Save(policy, Disconnected(journal));
      if outcome == Saved {
        ChronicledSave(moments, disk, journal, clean, platform.os);
        journal := clean;
      } else {
        ChronicledMoment(moments, disk, journal, platform.os);
        last := RequireRecovery(clean.generation);
      }
    }

    /** Recovers the whole transaction; Clean is published only once it is durable. */
    method Recover() returns (error: Option<Error>)
      requires Inv() && journal.phase != Clean
      modifies this
      modifies platform`disk, platform`os, platform`moments, platform`saves, platform`acts
      ensures old(platform.moments) <= platform.moments
      ensures Inv() && Verdict(policy, old(Now()), Now(), error.None?)
      ensures error.Some? ==> error.value.RecoveryFailures? && Explained(old(Now()), Now(), error.value.failures)
      ensures error.None? ==> platform.os == {}
      ensures leaseLog == old(leaseLog) + [RecoveryBegan] && recoveries == old(recoveries) + 1
      ensures armed == old(armed) && spent == old(spent) && transactions == old(transactions)
    {
      hide Inv, Entered, Conducted, Verdict, AllRestored, Explained;
      ghost var a := Now();
      var first := EnterRecovery();
      ghost var p := Now();
      var failures := RestoreSteps();
      ghost var s := Now();
      if failures != [] {
        var last := RequireRecovery(journal.generation);
        RecoveryFails(policy, a, p, s, Now(), first, last, failures);
        FailureExplained(policy, a, p, s, Now(), first, last, failures);
        return Some(RecoveryFailures(failures + Unsaved(first) + Unsaved(last)));
      }
      assert AllRestored(journal.steps) && !sessionAttached by { NothingUnrestored(policy, p, s); }
      var outcome, last := PublishClean();
      if outcome == Saved {
        RecoverySucceeds(policy, a, p, s, Now(), first);
        return None;
      }
      RecoveryUnpublished(policy, a, p, s, Now(), first, outcome, last);
      assert platform.saves == s.saves + ([outcome] + [last]);
      UnpublishedExplained(policy, a, p, s, Now(), first, outcome, last);
      return Some(RecoveryFailures([PersistFailed(None, outcome)] + Unsaved(last)));
    }

    // ------------------------------------------------------------ applying steps

    /** Writes the intent ahead of the mutation. */
    method RecordIntent(receipt: Receipt) returns (outcome: SaveOutcome)
      requires Inv() && Working(journal.phase) && !Has(journal.steps, receipt.Kind())
      requires MayRoute(journal, receipt.Kind())
      modifies this`journal, platform`disk, platform`moments, platform`saves
      ensures old(platform.moments) <= platform.moments
      ensures Inv()
      ensures journal == Bumped(old(journal).(steps := old(journal.steps) + [Record(receipt.Kind(), Intended, receipt)]))
      ensures platform.disk == if outcome == Saved then journal else old(platform.disk)
      ensures outcome == Saved ==> journal.generation > old(journal.generation)
      ensures Safe(journal, platform.os + {Names(receipt)})
    {
      var record := Record(receipt.Kind(), Intended, receipt);
      var pushed := journal.(steps := journal.steps + [record]);
      PushKeeps(journal, platform.os, record);
      KindsAfterPush(journal.steps, record);
      hide Chronicled, Safe, Accepted, Unrestored, IsApplied, Has, MayRoute;
      Carried(journal, pushed);
      ChronicledMemory(platform.moments, platform.disk, journal, pushed);
      journal := pushed;
      outcome := Persist();
      SafeAnyGeneration(pushed, platform.os + {Names(receipt)}, journal.generation);
    }

    /** Asks the backend for the mutation whose intent is durable. */
    method Mutate(receipt: Receipt) returns (outcome: ApplyOutcome)
      requires Inv() && platform.disk == journal && Safe(journal, platform.os + {Names(receipt)})
      modifies platform`os, platform`moments
      ensures old(platform.moments) <= platform.moments
      ensures Inv()
      ensures !outcome.ApplyFailed? && outcome.receipt.Kind() == receipt.Kind() ==>
                Names(outcome.receipt) == Names(receipt)
      ensures old(platform.os) <= platform.os && (outcome.AppliedAs? ==> Names(receipt) in platform.os)
    {
      hide Chronicled, Safe, Accepted, Unrestored, IsApplied;
      ghost var most := platform.os + {Names(receipt)};
      ghost var moments := platform.moments;
      outcome := platform.Apply(receipt);
      ChronicledMoment(moments, platform.disk, journal, platform.os);
      SafeShrinks(journal, most, platform.os);
    }

    /** Replaces the newest step by an enriched one for the same resource and saves. */
    method RecordLearned(record: Record) returns (outcome: SaveOutcome)
      requires Inv() && journal.steps != []
      requires
        var last := journal.steps[|journal.steps| - 1];
        && last.state == Intended && record.kind == last.kind == record.receipt.Kind()
        && Names(record.receipt) == Names(last.receipt) && record.state != Restored
      modifies this`journal, platform`disk, platform`moments, platform`saves
      ensures old(platform.moments) <= platform.moments
      ensures Inv()
      ensures journal == Bumped(old(journal).(steps := old(journal.steps)[|old(journal.steps)| - 1 := record]))
      ensures platform.disk == if outcome == Saved then journal else old(platform.disk)
      ensures outcome == Saved ==> journal.generation > old(journal.generation)
    {
      var index := |journal.steps| - 1;
      EnrichKeeps(journal, platform.os, index, record);
      hide Chronicled, Safe, Accepted, Unrestored, IsApplied, Has;
      ghost var learned := journal.(steps := journal.steps[index := record]);
      Carried(journal, learned);
      ChronicledMemory(platform.moments, platform.disk, journal, learned);
      journal := journal.(steps := journal.steps[index := record]);
      outcome := Persist();
    }

    /** Plans, journals, applies and confirms one new step. */
    method ApplyNewStep(kind: Kind, plan: Plan) returns (r: Result<bool, Error>)
      requires Inv() && Working(journal.phase) && MayRoute(journal, kind)
      modifies this`journal, platform`disk, platform`os, platform`moments, platform`saves
      ensures old(platform.moments) <= platform.moments
      ensures Inv() && Grew(old(journal), journal, kind)
      ensures platform.disk == old(platform.disk) || platform.disk.generation > old(journal.generation)
      ensures r.Ok? ==> IsApplied(journal.steps, kind) && platform.disk == journal
      ensures r.Ok? ==> Present(journal.steps, kind, platform.os)
      ensures old(platform.os) <= platform.os
      ensures Has(old(journal.steps), kind) ==> r == Err(DuplicateStep(kind)) && journal == old(journal)
    {
      hide Inv, MayRoute, Safe;
      if Has(journal.steps, kind) {
        return Err(DuplicateStep(kind));
      }
      var planned := platform.PlanStep(kind, Some(plan));
      if planned.None? {
        return Err(BackendFailure);
      }
      var receipt := planned.value;
      if receipt.Kind() != kind {
        return Err(ReceiptKindMismatch(receipt.Kind()));
      }
      var saved := RecordIntent(receipt);
      if saved != Saved {
        return Err(JournalFailure(saved));
      }
      r := Confirm(receipt);
      assert r.Ok? ==> IsApplied(journal.steps, kind) by { LastApplied(journal.steps); }
      assert r.Ok? ==> Present(journal.steps, kind, platform.os) by { LastPresent(journal.steps, platform.os); }
    }

    /** Carries out the newest intent and records what the backend reports. */
    method Confirm(receipt: Receipt) returns (r: Result<bool, Error>)
      requires Inv() && platform.disk == journal && Safe(journal, platform.os + {Names(receipt)}) && journal.steps != []
      requires journal.steps[|journal.steps| - 1] == Record(receipt.Kind(), Intended, receipt)
      modifies this`journal, platform`disk, platform`os, platform`moments, platform`saves
      ensures old(platform.moments) <= platform.moments
      ensures Inv() && |journal.steps| == |old(journal.steps)|
      ensures journal == old(journal).(
                steps := old(journal.steps)[|old(journal.steps)| - 1 := journal.steps[|journal.steps| - 1]],
                generation := journal.generation)
      ensures journal.generation >= old(journal.generation)
      ensures platform.disk == old(platform.disk) || platform.disk.generation > old(journal.generation)
      ensures journal.steps[|journal.steps| - 1].kind == receipt.Kind() && journal.steps[|journal.steps| - 1].state != Restored
      ensures r.Ok? ==> journal.steps[|journal.steps| - 1].state == Applied && platform.disk == journal
      ensures r.Ok? ==> Names(journal.steps[|journal.steps| - 1].receipt) in platform.os
      ensures old(platform.os) <= platform.os
    {
      hide Inv, Safe;
      var outcome := Mutate(receipt);
      match outcome
      case AppliedAs(enriched, handles) =>
        if enriched.Kind() != receipt.Kind() {
          return Err(ReceiptKindMismatch(enriched.Kind()));
        }
        var saved := RecordLearned(Record(receipt.Kind(), Applied, enriched));
        return if saved == Saved then Ok(handles) else Err(JournalFailure(saved));
      case PartiallyApplied(enriched) =>
        if enriched.Kind() == receipt.Kind() {
          var saved := RecordLearned(Record(receipt.Kind(), Intended, enriched));
          if saved != Saved {
            return Err(JournalFailure(saved));
          }
        }
        return Err(BackendFailure);
      case ApplyFailed =>
        return Err(BackendFailure);
    }

    ghost function Viewed(): View
      reads this, platform
    {
      View(journal, platform.disk, platform.moments, sessionAttached, transactions, recoveries)
    }

    lemma DiskBehind()
      requires Inv()
      ensures platform.disk.generation <= journal.generation
      ensures journal.phase == Clean ==> platform.disk.phase == Clean && platform.os == {} && !sessionAttached
      ensures journal.phase == Clean ==> journal.operation.None? && forall t :: t in armed ==> t.at < |leaseLog|
      ensures journal.phase != Clean ==> journal.operation.Some?
    {
    }

    /** A failure inside a transaction that must not survive it: recover, and
        report both errors if recovery fails too. */
    method FailAndRecover(error: Error) returns (reported: Error)
      requires Inv() && journal.phase != Clean
      modifies this
      modifies platform`disk, platform`os, platform`moments, platform`saves, platform`acts
      ensures Inv() && Steady(old(Viewed()), Viewed())
      ensures journal.phase == Clean || journal.phase == RecoveryRequired
      ensures journal.phase == Clean ==> platform.os == {}
      ensures reported == error || reported.ApplyAndRecovery?
      ensures journal.phase == RecoveryRequired ==> reported.ApplyAndRecovery?
      ensures recoveries == old(recoveries) + 1 && transactions == old(transactions)
      ensures leaseLog == old(leaseLog) + [RecoveryBegan] && spent == old(spent) && armed == old(armed)
    {
      hide Inv, Verdict, Steady;
      DiskBehind();
      var recovery := Recover();
      VerdictSteady(policy, old(Now()), Now(), recovery.None?, old(Viewed()), Viewed());
      reported := if recovery.None? then error else ApplyAndRecovery(error, recovery.value);
    }

    /** Begins a transaction from a clean journal and makes it durable. */
    method Begin(kind: Operation, operation: Uuid, plan: Option<Plan>, caller: Caller) returns (outcome: SaveOutcome)
      requires Inv() && journal.phase == Clean
      modifies this`journal, this`transactions, platform`disk, platform`moments, platform`saves
      ensures old(platform.moments) <= platform.moments
      ensures Inv() && transactions == old(transactions) + 1 && journal.steps == [] && journal.phase == Preparing
      ensures journal.operationKind == Some(kind) && journal.operation == Some(operation) && journal.plan == plan
      ensures journal.ownerSid == Some(caller.sid) && journal.ownerProcess == Some(caller.process)
      ensures journal.pauseDeadline == None && journal.schema == SCHEMA_VERSION
      ensures journal.generation >= old(journal.generation)
      ensures platform.disk == if outcome == Saved then journal else old(platform.disk)
      ensures outcome == Saved ==> journal.generation > old(journal.generation)
    {
      DiskBehind();
      hide Chronicled, Safe, Accepted, Unrestored, IsApplied;
      transactions := transactions + 1;
      ghost var before := journal;
      journal := Journal(SCHEMA_VERSION, journal.generation, Preparing, Some(kind), Some(operation),
                         Some(caller.sid), Some(caller.process), plan, None, []);
      SafeBeginning(journal);
      ChronicledMemory(platform.moments, platform.disk, before, journal);
      outcome := Persist();
    }

    /** Moves a transaction with an unrestored bypass into a ready phase and saves. */
    method EnterPhase(phase: Phase) returns (outcome: SaveOutcome)
      requires Inv() && Working(journal.phase) && (phase == Prepared || phase == Active)
      requires IsApplied(journal.steps, EndpointBypass)
      modifies this`journal, platform`disk, platform`moments, platform`saves
      ensures Inv() && Steady(old(Viewed()), Viewed())
      ensures journal == Bumped(old(journal).(phase := phase))
      ensures platform.disk == if outcome == Saved then journal else old(platform.disk)
    {
      hide Chronicled, Safe, Accepted, Unrestored, IsApplied, Steady;
      AppliedIsUnrestored(journal.steps, EndpointBypass);
      SafePrepared(journal, platform.os);
      Carried(journal, journal.(phase := phase));
      ChronicledMemory(platform.moments, platform.disk, journal, journal.(phase := phase));
      journal := journal.(phase := phase);
      outcome := Persist();
      PhaseSteady(old(Viewed()), Viewed());
    }

    /** One step of a transaction that keeps its owner and policy. */
    method Extend(kind: Kind, plan: Plan) returns (r: Result<bool, Error>)
      requires Inv() && Working(journal.phase) && MayRoute(journal, kind)
      modifies this`journal, platform`disk, platform`os, platform`moments, platform`saves
      ensures Inv() && Grew(old(journal), journal, kind) && Steady(old(Viewed()), Viewed())
      ensures r.Ok? ==> IsApplied(journal.steps, kind) && platform.disk == journal
      ensures forall k :: IsApplied(old(journal.steps), k) ==> IsApplied(journal.steps, k)
      ensures forall k :: Has(journal.steps, k) ==> Has(old(journal.steps), k) || k == kind
      ensures r.Ok? ==> Present(journal.steps, kind, platform.os)
      ensures forall k :: Present(old(journal.steps), k, old(platform.os)) ==> Present(journal.steps, k, platform.os)
    {
      hide Inv, Grew, MayRoute, Steady, IsApplied, Has, Present;
      DiskBehind();
      r := ApplyNewStep(kind, plan);
      GrewSteady(old(Viewed()), Viewed(), kind);
      GrewFacts(old(journal), journal, kind);
      GrewPresent(old(journal), journal, kind, old(platform.os), platform.os);
    }

    /** Extends the transaction by each kind in turn, up to the first failure. */
    method ExtendAll(kinds: seq<Kind>, plan: Plan) returns (error: Option<Error>)
      requires Inv() && Working(journal.phase) && Routable(journal, kinds)
      modifies this`journal, platform`disk, platform`os, platform`moments, platform`saves
      ensures Inv() && Steady(old(Viewed()), Viewed())
      ensures journal == old(journal).(steps := journal.steps, generation := journal.generation)
      ensures forall k :: IsApplied(old(journal.steps), k) ==> IsApplied(journal.steps, k)
      ensures forall k :: Has(journal.steps, k) ==> Has(old(journal.steps), k) || k in kinds
      ensures error.None? ==>
                forall k :: k in kinds ==> IsApplied(journal.steps, k) && Present(journal.steps, k, platform.os)
      ensures error.None? && kinds != [] ==> platform.disk == journal
    {
      hide Inv, Steady, IsApplied, Has, Present, Grew, MayRoute, Routable;
      ghost var a := Viewed();
      SteadyReflexive(a);
      for i := 0 to |kinds|
        invariant Inv() && Steady(a, Viewed())
        invariant journal == old(journal).(steps := journal.steps, generation := journal.generation)
        invariant forall k :: IsApplied(old(journal.steps), k) ==> IsApplied(journal.steps, k)
        invariant forall k :: Has(journal.steps, k) ==> Has(old(journal.steps), k) || k in kinds
        invariant forall k :: k in kinds[..i] ==> IsApplied(journal.steps, k) && Present(journal.steps, k, platform.os)
        invariant i > 0 ==> platform.disk == journal
      {
        ghost var b := Viewed();
        RoutableNext(old(journal), journal, kinds, i);
        var applied := Extend(kinds[i], plan);
        SteadyTransitive(a, b, Viewed());
        GrewKeeps(b.journal, journal, kinds[i]);
        if applied.Err? {
          return Some(applied.error);
        }
      }
      assert kinds[..|kinds|] == kinds;
      return None;
    }

    method Prepare(operation: Uuid, plan: Plan, caller: Caller) returns (error: Option<Error>)
      requires Inv()
      modifies this, platform
      ensures Inv() && Step(old(Viewed()), Viewed())
      ensures old(leaseLog) <= leaseLog && old(armed) <= armed && old(spent) <= spent
      ensures error.None? ==>
                && old(journal.phase) == Clean && journal.phase == Prepared && platform.disk == journal
                && journal.operation == Some(operation) && journal.plan == Some(plan)
                && journal.ownerSid == Some(caller.sid) && journal.ownerProcess == Some(caller.process)
                && (forall k :: k in PrepareKinds(plan) ==>
                      IsApplied(journal.steps, k) && Present(journal.steps, k, platform.os))
      ensures error.Some? && journal != old(journal) ==>
                || (journal.phase == Preparing && journal.steps == [])
                || journal.phase == Clean || journal.phase == RecoveryRequired
      ensures !policy.planAccepted(plan) || !ValidCaller(caller) || old(journal.phase) != Clean ==>
                error.Some? && unchanged(this)
    {
      hide Inv, Step, Steady, IsApplied, Present, PrepareKinds, ValidCaller;
      ghost var a := Viewed();
      StepReflexive(a);
      if !policy.planAccepted(plan) {
        return Some(InvalidPlan);
      }
      if !ValidCaller(caller) {
        return Some(InvalidCaller);
      }
      if journal.phase != Clean {
        return Some(NotClean(journal.phase));
      }
      DiskBehind();
      var saved := Begin(Tunnel, operation, Some(plan), caller);
      BeginSteady(a, Viewed());
      SteadySteps(a, Viewed());
      if saved != Saved {
        return Some(JournalFailure(saved));
      }
      ghost var b := Viewed();
      var failed := Fill(plan);
      SteadyTransitive(a, b, Viewed());
      SteadySteps(a, Viewed());
      if failed.None? {
        return None;
      }
      b := Viewed();
      var reported := FailAndRecover(failed.value);
      StepThenSteady(a, b, Viewed());
      return Some(reported);
    }

    /** Applies everything a prepared tunnel needs, then enters that phase. */
    method Fill(plan: Plan) returns (error: Option<Error>)
      requires Inv() && journal.phase == Preparing
      modifies this`journal, platform`disk, platform`os, platform`moments, platform`saves
      ensures Inv() && Steady(old(Viewed()), Viewed()) && journal.phase != Clean
      ensures journal == old(journal).(phase := journal.phase, steps := journal.steps, generation := journal.generation)
      ensures error.None? ==>
                && journal.phase == Prepared && platform.disk == journal
                && (forall k :: k in PrepareKinds(plan) ==>
                      IsApplied(journal.steps, k) && Present(journal.steps, k, platform.os))
    {
      hide Inv, Steady, IsApplied, Has, Present, Routable, PrepareKinds;
      PrepareKindsFacts(journal, plan);
      error := ExtendAll(PrepareKinds(plan), plan);
      if error.Some? {
        return;
      }
      ghost var b := Viewed();
      var saved := EnterPhase(Prepared);
      SteadyTransitive(old(Viewed()), b, Viewed());
      return if saved == Saved then None else Some(JournalFailure(saved));
    }

    // ------------------------------------------------------------- chain changes

    /** Changes the owner process in memory. */
    method TakeOver(process: nat)
      requires Inv() && journal.phase != Clean
      modifies this`journal
      ensures Inv() && journal == old(journal).(ownerProcess := Some(process))
    {
      hide Chronicled, Safe, Accepted, Unrestored, IsApplied;
      SafeOwned(journal, platform.os, process);
      Carried(journal, journal.(ownerProcess := Some(process)));
      ChronicledMemory(platform.moments, platform.disk, journal, journal.(ownerProcess := Some(process)));
      journal := journal.(ownerProcess := Some(process));
    }

    /** Adopts a plan of the same policy, and a ready phase, and saves. */
    method Replan(plan: Plan, phase: Phase) returns (outcome: SaveOutcome)
      requires Inv() && journal.operationKind == Some(Tunnel) && (journal.phase == Prepared || journal.phase == Active)
      requires phase == Prepared || phase == Active
      requires journal.plan.Some? && SamePolicy(journal.plan.value, plan)
      modifies this`journal, platform`disk, platform`moments, platform`saves
      ensures Inv() && Steady(old(Viewed()), Viewed())
      ensures journal == Bumped(old(journal).(plan := Some(plan), phase := phase))
      ensures platform.disk == if outcome == Saved then journal else old(platform.disk)
    {
      hide Chronicled, Safe, Accepted, Unrestored, IsApplied, Steady;
      SafeReplanned(journal, platform.os, plan, phase);
      ChronicledMemory(platform.moments, platform.disk, journal, journal.(plan := Some(plan), phase := phase));
      journal := journal.(plan := Some(plan), phase := phase);
      outcome := Persist();
      ReplanSteady(old(Viewed()), Viewed());
    }

    /** A retained startup pipe supersedes earlier watchdogs. */
    method Supersede()
      requires Inv() && !leaseAttached
      modifies this`leaseEpoch, this`leaseLog
      ensures Inv() && leaseLog == old(leaseLog) + [UnleasedTransition]
    {
      hide Chronicled, Safe, Accepted, Unrestored, IsApplied, Legal, Attached, Epoch, Recoveries;
      BumpsAppend(leaseLog, UnleasedTransition);
      leaseEpoch := (leaseEpoch + 1) % EPOCHS;
      leaseLog := leaseLog + [UnleasedTransition];
    }

    /** Adds the guard before a live tunnel becomes a chain; never recovers. */
    method BeginChain(operation: Uuid, caller: Caller) returns (error: Option<Error>)
      requires Inv()
      modifies this`journal, this`leaseEpoch, this`leaseLog
      modifies platform`disk, platform`os, platform`moments, platform`saves, platform`acts, platform`asked
      ensures Inv() && Step(old(Viewed()), Viewed())
      ensures old(leaseLog) <= leaseLog && old(armed) <= armed && old(spent) <= spent
      ensures recoveries == old(recoveries) && transactions == old(transactions) && spent == old(spent)
      ensures journal.phase == old(journal.phase) && sessionAttached == old(sessionAttached)
      ensures error.None? ==>
                && IsApplied(journal.steps, KillSwitch)
                && journal.plan.Some? && journal.plan.value.vpnChain
                && platform.disk.plan == journal.plan
                && journal.operation == Some(operation) && journal.ownerProcess == Some(caller.process)
      ensures error.None? && !IsApplied(old(journal.steps), KillSwitch) ==>
                Present(journal.steps, KillSwitch, platform.os)
      ensures leaseAttached == old(leaseAttached) && armed == old(armed)
      ensures journal.ownerProcess != old(journal.ownerProcess) ==>
                && platform.asked == old(platform.asked) + [AboutTunnel(Some(Reattachable))]
                && journal.operation == Some(operation) && journal.phase == Active
                && journal.ownerSid == Some(caller.sid) && !sessionAttached && !leaseAttached
      ensures leaseLog == old(leaseLog) || (!leaseAttached && leaseLog == old(leaseLog) + [UnleasedTransition])
      ensures error.None? ==> leaseLog == old(leaseLog) + (if leaseAttached then [] else [UnleasedTransition])
    {
      hide Inv, Step, Steady, IsApplied, Present, Unchainable;
      ghost var a := Viewed();
      error := Claim(operation, caller);
      if error.Some? {
        return;
      }
      error := Unchainable(journal, operation, caller);
      if error.Some? {
        return;
      }
      ghost var b := Viewed();
      error := Guard(journal.plan.value.(vpnChain := true));
      StepThenSteady(a, b, Viewed());
    }

    /** Lets the user's new process take over their detached, unleased tunnel that the
        backend can still reach. */
    method Claim(operation: Uuid, caller: Caller) returns (error: Option<Error>)
      requires Inv()
      modifies this`journal, platform`asked
      ensures Inv() && Step(old(Viewed()), Viewed())
      ensures journal == old(journal).(ownerProcess := journal.ownerProcess)
      ensures error.None? ==> journal.ownerProcess == Some(caller.process)
      ensures journal.ownerProcess != old(journal.ownerProcess) ==>
                && platform.asked == old(platform.asked) + [AboutTunnel(Some(Reattachable))]
                && journal.operation == Some(operation) && journal.phase == Active
                && journal.ownerSid == Some(caller.sid) && !sessionAttached && !leaseAttached
    {
      hide Inv, Step, ValidCaller;
      StepReflexive(Viewed());
      if !ValidCaller(caller) {
        return Some(InvalidCaller);
      }
      if journal.ownerProcess == Some(caller.process) {
        return None;
      }
      if || journal.operation != Some(operation) || journal.phase != Active
         || journal.ownerSid != Some(caller.sid) || sessionAttached || leaseAttached
      {
        return Some(OwnerMismatch);
      }
      var inspection := platform.InspectTunnel();
      if inspection.None? {
        return Some(BackendFailure);
      }
      if inspection.value != Reattachable {
        return Some(OwnerMismatch);
      }
      DiskBehind();
      TakeOver(caller.process);
      TakeOverSteps(old(Viewed()), Viewed());
      return None;
    }

    /** Makes the chain durable, then applies its kill switch if it has none. */
    method Guard(plan: Plan) returns (error: Option<Error>)
      requires Inv() && journal.operationKind == Some(Tunnel) && (journal.phase == Prepared || journal.phase == Active)
      requires journal.plan.Some? && plan == journal.plan.value.(vpnChain := true)
      modifies this`journal, this`leaseEpoch, this`leaseLog
      modifies platform`disk, platform`os, platform`moments, platform`saves, platform`acts
      ensures Inv() && Steady(old(Viewed()), Viewed())
      ensures journal == old(journal).(plan := Some(plan), steps := journal.steps, generation := journal.generation)
      ensures error.None? ==> IsApplied(journal.steps, KillSwitch) && platform.disk.plan == journal.plan
      ensures error.None? && !IsApplied(old(journal.steps), KillSwitch) ==>
                Present(journal.steps, KillSwitch, platform.os)
      ensures leaseLog == old(leaseLog) || (!leaseAttached && leaseLog == old(leaseLog) + [UnleasedTransition])
      ensures error.None? ==> leaseLog == old(leaseLog) + (if leaseAttached then [] else [UnleasedTransition])
    {
      hide Inv, Steady, IsApplied, Present;
      ghost var a := Viewed();
      var saved := Replan(plan, journal.phase);
      if saved != Saved {
        return Some(JournalFailure(saved));
      }
      if !leaseAttached {
        Supersede();
      }
      ghost var b := Viewed();
      error := RaiseGuard(plan);
      SteadyTransitive(a, b, Viewed());
    }

    /** Applies the kill switch unless there is one. */
    method RaiseGuard(plan: Plan) returns (error: Option<Error>)
      requires Inv() && Working(journal.phase)
      modifies this`journal, platform`disk, platform`os, platform`moments, platform`saves
      ensures Inv() && Steady(old(Viewed()), Viewed())
      ensures journal == old(journal).(steps := journal.steps, generation := journal.generation)
      ensures platform.disk == old(platform.disk) || error.Some? || platform.disk == journal
      ensures error.None? ==> IsApplied(journal.steps, KillSwitch)
      ensures error.None? && !IsApplied(old(journal.steps), KillSwitch) ==>
                Present(journal.steps, KillSwitch, platform.os)
    {
      hide Inv, Steady, IsApplied, Has, Present, Grew, MayRoute;
      SteadyReflexive(Viewed());
      if IsApplied(journal.steps, KillSwitch) {
        return None;
      }
      if Has(journal.steps, KillSwitch) {
        return Some(MissingAppliedStep(KillSwitch));
      }
      NotRouting(journal, KillSwitch);
      var applied := Extend(KillSwitch, plan);
      GrewKeeps(old(journal), journal, KillSwitch);
      return if applied.Ok? then None else Some(applied.error);
    }

    /** Restores one step's resource and removes the step from the journal. */
    method RestoreAndDrop(kind: Kind) returns (error: Option<Error>)
      requires Inv() && journal.phase != Clean && kind != KillSwitch && kind != EndpointBypass
      modifies this`journal, this`sessionAttached
      modifies platform`disk, platform`os, platform`moments, platform`saves, platform`acts
      ensures Inv() && Steady(old(Viewed()), Viewed())
      ensures journal == old(journal).(steps := journal.steps, generation := journal.generation)
      ensures error.None? ==> !Has(journal.steps, kind)
      ensures forall k :: k != kind && IsApplied(old(journal.steps), k) ==> IsApplied(journal.steps, k)
      ensures forall k :: Has(journal.steps, k) ==> Has(old(journal.steps), k)
      ensures kind != PacketSession ==> sessionAttached == old(sessionAttached)
      ensures sessionAttached ==> old(sessionAttached)
      ensures error.None? && kind == PacketSession && Has(old(journal.steps), kind) ==> !sessionAttached
      ensures error.None? && Has(old(journal.steps), kind) ==> platform.disk == journal
      ensures error.None? && !Has(old(journal.steps), kind) ==> journal == old(journal)
      ensures error.None? ==> Gone(old(journal.steps), kind, platform.os)
    {
      hide Inv, Steady, IsApplied, Has, Gone, Names;
      DiskBehind();
      StepsDistinct();
      SteadyReflexive(Viewed());
      var index := IndexOf(journal.steps, kind);
      if index.None? {
        NoneGone(journal.steps, kind, platform.os);
        return None;
      }
      var gone := Dispose(index.value);
      if !gone {
        TrailSteps(old(Viewed()), Viewed());
        return Some(BackendFailure);
      }
      KindsAfterDrop(journal.steps, index.value);
      GoneAt(journal.steps, index.value, platform.os);
      var saved := Drop(index.value);
      DropSteady(old(Viewed()), Viewed(), index.value);
      return if saved == Saved then None else Some(JournalFailure(saved));
    }

    lemma StepsDistinct()
      requires Inv()
      ensures DistinctKinds(journal.steps) && Matching(journal.steps)
    {
    }

    /** Asks the backend to restore a step's resource unless it already is. */
    method Undo(index: nat) returns (gone: bool)
      requires Inv() && index < |journal.steps|
      modifies platform`os, platform`moments, platform`acts
      ensures old(platform.moments) <= platform.moments
      ensures Inv()
      ensures gone ==> Names(journal.steps[index].receipt) !in platform.os
    {
      gone := true;
      RestoredIsGone(journal, platform.os, index);
      if journal.steps[index].state != Restored {
        hide Chronicled, Safe, Accepted, Unrestored, IsApplied;
        ghost var before, moments := platform.os, platform.moments;
        gone := platform.Restore(journal.steps[index].receipt);
        ChronicledMoment(moments, platform.disk, journal, platform.os);
        SafeShrinks(journal, before, platform.os);
        SafeShrinks(platform.disk, before, platform.os);
      }
    }

    /** Removes a step whose resource is gone and saves. */
    method Drop(index: nat) returns (outcome: SaveOutcome)
      requires Inv() && index < |journal.steps| && journal.phase != Clean
      requires journal.steps[index].kind != KillSwitch && journal.steps[index].kind != EndpointBypass
      requires Names(journal.steps[index].receipt) !in platform.os || journal.steps[index].state == Restored
      modifies this`journal, this`sessionAttached, platform`disk, platform`moments, platform`saves
      ensures old(platform.moments) <= platform.moments
      ensures Inv()
      ensures journal == Bumped(old(journal).(steps := Without(old(journal.steps), index)))
      ensures sessionAttached == (old(sessionAttached) && old(journal.steps[index].kind) != PacketSession)
      ensures platform.disk == if outcome == Saved then journal else old(platform.disk)
      ensures outcome == Saved ==> journal.generation > old(journal.generation)
    {
      hide Inv, Safe, Names;
      Remove(index);
      outcome := Persist();
    }

    /** Removes such a step in memory. */
    method Remove(index: nat)
      requires Inv() && index < |journal.steps| && journal.phase != Clean
      requires journal.steps[index].kind != KillSwitch && journal.steps[index].kind != EndpointBypass
      requires Names(journal.steps[index].receipt) !in platform.os || journal.steps[index].state == Restored
      modifies this`journal, this`sessionAttached
      ensures Inv() && journal == old(journal).(steps := Without(old(journal.steps), index))
      ensures sessionAttached == (old(sessionAttached) && old(journal.steps[index].kind) != PacketSession)
    {
      hide Chronicled, Safe, Accepted, Unrestored, IsApplied, Has, Without, Carries, Names;
      DropCarries(journal, platform.os, index);
      sessionAttached := sessionAttached && journal.steps[index].kind != PacketSession;
      ChronicledMemory(platform.moments, platform.disk, journal, journal.(steps := Without(journal.steps, index)));
      journal := journal.(steps := Without(journal.steps, index));
    }

    /** What a finalization may not be: a plan that changes more than the network, an
        attached session, an unready phase or another owner. */
    function FinalizeRefusal(operation: Uuid, plan: Plan, caller: Caller): Option<Error>
      reads this
    {
      if !policy.planAccepted(plan) then Some(InvalidPlan)
      else if !ValidCaller(caller) then Some(InvalidCaller)
      else if journal.operationKind != Some(Tunnel) then Some(WrongOperation)
      else if journal.operation != Some(operation) then Some(OperationMismatch)
      else if journal.plan.None? then Some(MissingPlan)
      else
        var previous := journal.plan.value;
        var allowed := previous.(
          assignedIpv4 := plan.assignedIpv4, assignedIpv6 := plan.assignedIpv6, dnsServers := plan.dnsServers,
          splitDns := plan.splitDns, mtu := plan.mtu, deferred := false);
        if !previous.vpnChain || !plan.vpnChain || plan.deferred || allowed != plan then Some(InvalidPlan)
        else if sessionAttached then Some(SessionAlreadyAttached)
        else if journal.phase != Prepared && journal.phase != Active then Some(InvalidPhase(journal.phase))
        else if journal.ownerProcess != Some(caller.process) &&
                (journal.phase != Active || leaseAttached || journal.ownerSid != Some(caller.sid)) then Some(OwnerMismatch)
        else None
    }

    lemma FinalizeAllowed(operation: Uuid, plan: Plan, caller: Caller)
      requires FinalizeRefusal(operation, plan, caller).None?
      ensures journal.operationKind == Some(Tunnel) && (journal.phase == Prepared || journal.phase == Active)
      ensures journal.plan.Some? && SamePolicy(journal.plan.value, plan) && !sessionAttached
    {
    }

    /** Replaces the final network steps of a guarded chain; never recovers. */
    method Finalize(operation: Uuid, plan: Plan, caller: Caller) returns (error: Option<Error>)
      requires Inv()
      modifies this`journal, this`sessionAttached
      modifies platform`disk, platform`os, platform`moments, platform`saves, platform`acts, platform`asked
      ensures Inv() && Step(old(Viewed()), Viewed())
      ensures old(leaseLog) <= leaseLog && old(armed) <= armed && old(spent) <= spent
      ensures recoveries == old(recoveries) && transactions == old(transactions) && spent == old(spent)
      ensures journal.ownerProcess != old(journal.ownerProcess) ==>
                platform.asked == old(platform.asked) + [AboutTunnel(Some(Reattachable))]
      ensures old(FinalizeRefusal(operation, plan, caller)).Some? ==>
                error == old(FinalizeRefusal(operation, plan, caller)) && unchanged(this) && unchanged(platform)
      ensures leaseLog == old(leaseLog) && armed == old(armed)
      ensures error.None? ==>
                && journal.phase == Prepared && journal.plan == Some(plan) && platform.disk == journal
                && IsApplied(journal.steps, KillSwitch)
                && IsApplied(journal.steps, InterfaceConfiguration) && IsApplied(journal.steps, Dns)
                && Present(journal.steps, InterfaceConfiguration, platform.os) && Present(journal.steps, Dns, platform.os)
                && !Has(journal.steps, DefaultRoutes) && !Has(journal.steps, PacketSession)
      ensures journal.phase != old(journal.phase) ==>
                journal.phase == Prepared && !Has(journal.steps, DefaultRoutes) && IsApplied(journal.steps, KillSwitch)
    {
      hide Inv, Step, Steady, IsApplied, Has, Present, Grew, MayRoute, ValidCaller, FinalizeRefusal, SamePolicy;
      ghost var a := Viewed();
      StepReflexive(a);
      error := FinalizeRefusal(operation, plan, caller);
      if error.Some? {
        return;
      }
      FinalizeAllowed(operation, plan, caller);
      if journal.ownerProcess != Some(caller.process) {
        error := Reattach(caller.process);
        if error.Some? {
          return;
        }
      }
      error := EnsureOwner(journal, operation, caller);
      if error.Some? {
        return;
      }
      if !IsApplied(journal.steps, KillSwitch) {
        return Some(MissingAppliedStep(KillSwitch));
      }
      ghost var b := Viewed();
      error := ReplaceNetwork(plan);
      StepThenSteady(a, b, Viewed());
    }

    /** Hands a detached tunnel that the backend can still reach to a new process. */
    method Reattach(process: nat) returns (error: Option<Error>)
      requires Inv() && journal.phase != Clean && !sessionAttached && journal.ownerProcess != Some(process)
      modifies this`journal, platform`disk, platform`moments, platform`saves, platform`asked
      ensures Inv() && Step(old(Viewed()), Viewed())
      ensures journal == old(journal).(ownerProcess := journal.ownerProcess, generation := journal.generation)
      ensures error.None? ==> journal.ownerProcess == Some(process)
      ensures journal.ownerProcess != old(journal.ownerProcess) ==>
                platform.asked == old(platform.asked) + [AboutTunnel(Some(Reattachable))]
    {
      hide Inv, Step;
      ghost var a := Viewed();
      StepReflexive(a);
      var inspection := platform.InspectTunnel();
      if inspection.None? {
        return Some(BackendFailure);
      }
      if inspection.value != Reattachable {
        return Some(InvalidPlan);
      }
      DiskBehind();
      TakeOver(process);
      var saved := Persist();
      TakeOverSteps(a, Viewed());
      return if saved == Saved then None else Some(JournalFailure(saved));
    }

    /** Drops the old network steps, adopts the plan and applies the new ones. */
    method ReplaceNetwork(plan: Plan) returns (error: Option<Error>)
      requires Inv() && journal.operationKind == Some(Tunnel) && (journal.phase == Prepared || journal.phase == Active)
      requires journal.plan.Some? && SamePolicy(journal.plan.value, plan)
      requires !sessionAttached && IsApplied(journal.steps, KillSwitch)
      modifies this`journal, this`sessionAttached
      modifies platform`disk, platform`os, platform`moments, platform`saves, platform`acts
      ensures Inv() && Steady(old(Viewed()), Viewed()) && !sessionAttached
      ensures error.None? ==>
                && journal.phase == Prepared && journal.plan == Some(plan) && platform.disk == journal
                && IsApplied(journal.steps, InterfaceConfiguration) && IsApplied(journal.steps, Dns)
                && Present(journal.steps, InterfaceConfiguration, platform.os) && Present(journal.steps, Dns, platform.os)
                && !Has(journal.steps, DefaultRoutes) && !Has(journal.steps, PacketSession)
      ensures IsApplied(journal.steps, KillSwitch) && journal.ownerProcess == old(journal.ownerProcess)
      ensures journal.phase != old(journal.phase) ==> journal.phase == Prepared && !Has(journal.steps, DefaultRoutes)
    {
      hide Inv, Steady, IsApplied, Has, Present, Gone;
      ghost var a := Viewed();
      error := StripNetwork();
      if error.Some? {
        return;
      }
      ghost var b := Viewed();
      var saved := Replan(plan, Prepared);
      SteadyTransitive(a, b, Viewed());
      if saved != Saved {
        return Some(JournalFailure(saved));
      }
      var added := [InterfaceConfiguration, Dns];
      assert added[0] in added && added[1] in added;
      b := Viewed();
      assert Routable(journal, added);
      error := ExtendAll(added, plan);
      SteadyTransitive(a, b, Viewed());
    }

    /** Restores and drops the network steps, the routes first. */
    method StripNetwork() returns (error: Option<Error>)
      requires Inv() && journal.phase != Clean && !sessionAttached && IsApplied(journal.steps, KillSwitch)
      modifies this`journal, this`sessionAttached
      modifies platform`disk, platform`os, platform`moments, platform`saves, platform`acts
      ensures Inv() && Steady(old(Viewed()), Viewed()) && !sessionAttached && IsApplied(journal.steps, KillSwitch)
      ensures journal == old(journal).(steps := journal.steps, generation := journal.generation)
      ensures error.None? ==>
                && !Has(journal.steps, DefaultRoutes) && !Has(journal.steps, PacketSession)
                && !Has(journal.steps, Dns) && !Has(journal.steps, InterfaceConfiguration)
    {
      hide Inv, Steady, IsApplied, Has, Gone;
      ghost var a := Viewed();
      SteadyReflexive(a);
      var kinds := [DefaultRoutes, Dns, InterfaceConfiguration, PacketSession];
      for i := 0 to |kinds|
        invariant Inv() && Steady(a, Viewed()) && !sessionAttached && IsApplied(journal.steps, KillSwitch)
        invariant journal == old(journal).(steps := journal.steps, generation := journal.generation)
        invariant forall j :: 0 <= j < i ==> !Has(journal.steps, kinds[j])
      {
        ghost var b := Viewed();
        error := RestoreAndDrop(kinds[i]);
        SteadyTransitive(a, b, Viewed());
        if error.Some? {
          return;
        }
      }
      assert !Has(journal.steps, kinds[0]) && !Has(journal.steps, kinds[1]);
      assert !Has(journal.steps, kinds[2]) && !Has(journal.steps, kinds[3]);
      return None;
    }

    // ----------------------------------------------------------- packet sessions

    /** Forgets, in memory only, a step left behind as Restored. */
    method Forget(kind: Kind)
      requires Inv() && journal.phase != Clean && kind != KillSwitch && kind != EndpointBypass
      modifies this`journal
      ensures Inv() && Steady(old(Viewed()), Viewed())
      ensures journal == old(journal).(steps := journal.steps)
      ensures forall k :: Has(journal.steps, k) ==> Has(old(journal.steps), k)
      ensures forall k :: k != kind && IsApplied(old(journal.steps), k) ==> IsApplied(journal.steps, k)
      ensures Unrestored(old(journal.steps), kind) ==> journal == old(journal)
    {
      SteadyReflexive(Viewed());
      DiskBehind();
      var index := IndexOf(journal.steps, kind);
      if index.Some? && journal.steps[index.value].state == Restored {
        DropKeeps(journal, platform.os, index.value);
        KindsAfterDrop(journal.steps, index.value);
        OnlyOfItsKind(journal.steps, index.value);
        hide Chronicled, Safe, Accepted, Unrestored, IsApplied, Has, Steady;
        ghost var fewer := journal.(steps := Without(journal.steps, index.value));
        Carried(journal, fewer);
        ChronicledMemory(platform.moments, platform.disk, journal, fewer);
        journal := journal.(steps := Without(journal.steps, index.value));
        DropSteady(old(Viewed()), Viewed(), index.value);
      }
    }

    method OpenSession(operation: Uuid, capacity: nat, caller: Caller) returns (error: Option<Error>)
      requires Inv()
      modifies this, platform
      ensures Inv() && Step(old(Viewed()), Viewed())
      ensures old(leaseLog) <= leaseLog && old(armed) <= armed && old(spent) <= spent
      ensures transactions == old(transactions) && spent == old(spent)
      ensures error.None? ==>
                && sessionAttached && IsApplied(journal.steps, PacketSession) && journal.phase == Prepared
                && Present(journal.steps, PacketSession, platform.os)
                && platform.disk == journal && !journal.plan.value.deferred && recoveries == old(recoveries)
      ensures old(journal.plan).Some? && old(journal.plan).value.vpnChain ==> recoveries == old(recoveries)
      ensures recoveries == old(recoveries) ==> journal.phase == old(journal.phase)
      ensures !ValidCapacity(capacity) ==> error == Some(InvalidRingCapacity) && unchanged(this)
      ensures ValidCapacity(capacity) && EnsureTunnelOwner(old(journal), operation, caller).Some? ==>
                error == EnsureTunnelOwner(old(journal), operation, caller) && unchanged(this)
      ensures Unrestored(old(journal.steps), PacketSession) ==> error.Some? && unchanged(this)
    {
      hide Inv, Step, Steady, IsApplied, Has, Present, Grew, MayRoute, Unrestored, ValidCaller, ValidCapacity;
      ghost var a := Viewed();
      StepReflexive(a);
      if !ValidCapacity(capacity) {
        return Some(InvalidRingCapacity);
      }
      error := EnsureTunnelOwner(journal, operation, caller);
      if error.Some? {
        return;
      }
      if journal.phase != Prepared {
        return Some(InvalidPhase(journal.phase));
      }
      UnrestoredIsThere(journal.steps, PacketSession);
      Forget(PacketSession);
      StepThenSteady(a, a, Viewed());
      if Has(journal.steps, PacketSession) {
        return Some(DuplicatePacketSession);
      }
      if journal.plan.None? {
        return Some(MissingPlan);
      }
      var plan := journal.plan.value;
      if plan.deferred {
        return Some(InvalidPlan);
      }
      ghost var b := Viewed();
      NotRouting(journal, PacketSession);
      var applied := Extend(PacketSession, plan);
      StepThenSteady(a, b, Viewed());
      GrewKeeps(b.journal, journal, PacketSession);
      if applied.Err? {
        if plan.vpnChain {
          return Some(applied.error);
        }
        b := Viewed();
        var reported := FailAndRecover(applied.error);
        StepThenSteady(a, b, Viewed());
        return Some(reported);
      }
      if !applied.value {
        return Some(MissingHandles);
      }
      b := Viewed();
      Attach();
      AttachSteps(a, b, Viewed());
      return None;
    }

    method Attach()
      requires Inv() && IsApplied(journal.steps, PacketSession)
      modifies this`sessionAttached
      ensures Inv() && sessionAttached
    {
      sessionAttached := true;
    }

    method Detach()
      requires Inv()
      modifies this`sessionAttached
      ensures Inv() && !sessionAttached
    {
      sessionAttached := false;
    }

    /** Disposes of the live session. An active tunnel keeps the logical step so
        that it can be resumed; a prepared one drops it. */
    method CloseSession(operation: Uuid, caller: Caller) returns (error: Option<Error>)
      requires Inv()
      modifies this`journal, this`sessionAttached
      modifies platform`disk, platform`os, platform`moments, platform`saves, platform`acts
      ensures Inv() && Step(old(Viewed()), Viewed())
      ensures old(leaseLog) <= leaseLog && old(armed) <= armed && old(spent) <= spent
      ensures transactions == old(transactions) && recoveries == old(recoveries) && spent == old(spent)
      ensures leaseLog == old(leaseLog) && armed == old(armed) && journal.phase == old(journal.phase)
      ensures EnsureTunnelOwner(old(journal), operation, caller).Some? ==>
                error == EnsureTunnelOwner(old(journal), operation, caller) && unchanged(this)
      ensures error.None? ==> !sessionAttached
      ensures error.None? ==> Gone(old(journal.steps), PacketSession, platform.os)
      ensures error.None? && journal.phase == Prepared ==> !Has(journal.steps, PacketSession)
      ensures journal.phase == Active ==> journal.steps == old(journal.steps)
    {
      hide Inv, Step, Steady, IsApplied, Has, Gone;
      ghost var a := Viewed();
      StepReflexive(a);
      error := EnsureTunnelOwner(journal, operation, caller);
      if error.Some? {
        return;
      }
      if journal.phase != Prepared && journal.phase != Active {
        return Some(InvalidPhase(journal.phase));
      }
      var index := IndexOf(journal.steps, PacketSession);
      if index.None? {
        NoneGone(journal.steps, PacketSession, platform.os);
        Detach();
        AttachSteps(a, a, Viewed());
        return None;
      }
      if journal.phase == Active {
        error := Suspend(index.value);
        return;
      }
      error := RestoreAndDrop(PacketSession);
      StepThenSteady(a, a, Viewed());
    }

    /** Disposes of the session and keeps its step. */
    method Suspend(index: nat) returns (error: Option<Error>)
      requires Inv() && index < |journal.steps| && journal.steps[index].kind == PacketSession
      modifies this`journal, this`sessionAttached
      modifies platform`disk, platform`os, platform`moments, platform`saves, platform`acts
      ensures Inv() && Step(old(Viewed()), Viewed())
      ensures journal == old(journal).(generation := journal.generation)
      ensures error.None? ==> !sessionAttached && platform.disk == journal && Gone(journal.steps, PacketSession, platform.os)
    {
      hide Inv, Step, Gone;
      DiskBehind();
      var gone := Dispose(index);
      if !gone {
        TrailSteps(old(Viewed()), Viewed());
        return Some(BackendFailure);
      }
      Detach();
      var saved := Persist();
      SavedSteps(old(Viewed()), Viewed());
      return if saved == Saved then None else Some(JournalFailure(saved));
    }

    /** Takes a step's resource off the machine. */
    method Dispose(index: nat) returns (gone: bool)
      requires Inv() && index < |journal.steps|
      modifies platform`os, platform`moments, platform`acts
      ensures old(platform.moments) <= platform.moments
      ensures Inv() && (gone ==> Gone(journal.steps, journal.steps[index].kind, platform.os))
    {
      hide Inv, Gone, Names, DistinctKinds, Matching;
      StepsDistinct();
      gone := Undo(index);
      if gone {
        KindGone(journal.steps, index, platform.os);
      }
    }

    /** Recreates only the packet session of an active tunnel, for its user. */
    method Resume(operation: Uuid, profile: Uuid, caller: Caller) returns (error: Option<Error>)
      requires Inv()
      modifies this`journal, this`sessionAttached
      modifies platform`disk, platform`os, platform`moments, platform`saves
      ensures Inv() && Step(old(Viewed()), Viewed())
      ensures old(leaseLog) <= leaseLog && old(armed) <= armed && old(spent) <= spent
      ensures transactions == old(transactions) && recoveries == old(recoveries) && spent == old(spent)
      ensures leaseLog == old(leaseLog) && armed == old(armed)
      ensures journal.phase == old(journal.phase) && journal.steps == old(journal.steps)
      ensures error.None? ==>
                && !old(sessionAttached) && sessionAttached && journal.phase == Active && platform.disk == journal
                && journal.ownerSid == Some(caller.sid) && journal.ownerProcess == Some(caller.process)
                && Present(journal.steps, PacketSession, platform.os)
      ensures error.None? ==>
                && |platform.moments| > |old(platform.moments)|
                && platform.moments[|old(platform.moments)|] == Moment(platform.disk, old(platform.os))
    {
      hide Inv, Step, IsApplied, Has, Present, ValidCaller, AdapterOf;
      ghost var a := Viewed();
      StepReflexive(a);
      if !ValidCaller(caller) {
        return Some(InvalidCaller);
      }
      if journal.operation != Some(operation) {
        return Some(OperationMismatch);
      }
      if journal.operationKind != Some(Tunnel) {
        return Some(WrongOperation);
      }
      if journal.phase != Active {
        return Some(InvalidPhase(journal.phase));
      }
      if journal.ownerSid != Some(caller.sid) {
        return Some(OwnerMismatch);
      }
      if sessionAttached {
        return Some(SessionAlreadyAttached);
      }
      if journal.plan.None? {
        return Some(MissingPlan);
      }
      if journal.plan.value.profile != profile {
        return Some(ProfileMismatch);
      }
      if AdapterOf(journal.steps).None? {
        return Some(MissingAppliedStep(WintunAdapter));
      }
      var index := IndexOf(journal.steps, PacketSession);
      if index.None? || journal.steps[index.value].state != Applied {
        return Some(MissingAppliedStep(PacketSession));
      }
      DiskBehind();
      TakeOver(caller.process);
      var saved := Persist();
      TakeOverSteps(a, Viewed());
      if saved != Saved {
        return Some(JournalFailure(saved));
      }
      var ok := Recreate(index.value);
      if !ok {
        TakeOverSteps(a, Viewed());
        return Some(BackendFailure);
      }
      assert IsApplied(journal.steps, PacketSession) by { AppliedAt(journal.steps, index.value); }
      Attach();
      TakeOverSteps(a, Viewed());
      return None;
    }

    method Recreate(index: nat) returns (ok: bool)
      requires Inv() && platform.disk == journal && index < |journal.steps|
      requires journal.steps[index].kind == PacketSession && journal.steps[index].state == Applied
      modifies platform`os, platform`moments
      ensures old(platform.moments) <= platform.moments
      ensures Inv() && (ok ==> Present(journal.steps, PacketSession, platform.os))
    {
      StepsDistinct();
      ghost var most := platform.os + {Names(journal.steps[index].receipt)};
      SafeResumed(journal, platform.os, index);
      hide Chronicled, Safe, Accepted, Unrestored, IsApplied;
      ghost var moments := platform.moments;
      ok := platform.Resume(journal.steps[index].receipt);
      ChronicledMoment(moments, platform.disk, journal, platform.os);
      SafeShrinks(journal, most, platform.os);
    }

    // -------------------------------------------------------- leases and watchdogs

    method AcquireLease(operation: Uuid, caller: Caller) returns (error: Option<Error>)
      requires Inv()
      modifies this`leaseAttached, this`leaseEpoch, this`leaseLog
      ensures Inv() && Step(old(Viewed()), Viewed())
      ensures old(leaseLog) <= leaseLog && old(armed) <= armed && old(spent) <= spent
      ensures error.None? ==>
                && leaseLog == old(leaseLog) + [Acquired] && sessionAttached && !old(leaseAttached)
                && journal.phase == Active && journal.operation == Some(operation)
      ensures error.Some? ==> unchanged(this)
      ensures error.None? <==>
                && EnsureTunnelOwner(journal, operation, caller).None? && journal.phase == Active
                && sessionAttached && !old(leaseAttached)
    {
      hide Chronicled, Safe, Accepted, Unrestored, IsApplied, Legal, Attached, Epoch, Recoveries, Step, ValidCaller;
      StepReflexive(Viewed());
      error := EnsureTunnelOwner(journal, operation, caller);
      if error.Some? {
        return;
      }
      if journal.phase != Active {
        return Some(InvalidPhase(journal.phase));
      }
      if !sessionAttached {
        return Some(SessionNotAttached);
      }
      if leaseAttached {
        return Some(LeaseAlreadyAttached);
      }
      BumpsAppend(leaseLog, Acquired);
      leaseAttached := true;
      leaseEpoch := (leaseEpoch + 1) % EPOCHS;
      leaseLog := leaseLog + [Acquired];
      return None;
    }

    /** Both lease releases answer to the exact owner of a ready tunnel. */
    predicate OwnsReadyTunnel(operation: Uuid, caller: Caller)
      reads this
    {
      && (journal.phase == Prepared || journal.phase == Active) && journal.operationKind == Some(Tunnel)
      && journal.operation == Some(operation) && journal.ownerSid == Some(caller.sid)
      && journal.ownerProcess == Some(caller.process)
    }

    lemma ReadyHasBypass(operation: Uuid, caller: Caller)
      requires Inv() && OwnsReadyTunnel(operation, caller)
      ensures Unrestored(journal.steps, EndpointBypass)
    {
    }

    /** Advances the epoch for a release and arms a watchdog with it. */
    method Arm(operation: Uuid, event: LeaseEvent) returns (epoch: nat)
      requires MachineInv() && Unrestored(journal.steps, EndpointBypass) && event.Arms()
      requires (sessionAttached ==> IsApplied(journal.steps, PacketSession))
      requires forall t :: t in spent ==> t.1 < journal.generation || t.1 >= U64_MAX
      requires Legal(leaseLog + [event]) && leaseEpoch == Epoch(leaseLog) && !leaseAttached
      requires Attached(leaseLog + [event]) == false && recoveries == Recoveries(leaseLog)
      requires forall t :: t in armed ==> 0 < t.at <= |leaseLog| && leaseLog[t.at - 1].Arms()
      modifies this`leaseEpoch, this`leaseLog, this`armed
      ensures Inv() && leaseLog == old(leaseLog) + [event] && epoch == leaseEpoch
      ensures armed == old(armed) + {Token(operation, transactions, |leaseLog|)}
      ensures Epoch(leaseLog) == epoch
    {
      hide Chronicled, Safe, Accepted, Unrestored, IsApplied, Legal, Attached, Epoch, Recoveries;
      BumpsAppend(leaseLog, event);
      leaseEpoch := (leaseEpoch + 1) % EPOCHS;
      leaseLog := leaseLog + [event];
      armed := armed + {Token(operation, transactions, |leaseLog|)};
      epoch := leaseEpoch;
    }

    /** The startup connection went away before the tunnel had a liveness lease. */
    method ReleaseStartup(operation: Uuid, caller: Caller) returns (r: Result<Option<nat>, Error>)
      requires Inv()
      modifies this`leaseEpoch, this`leaseLog, this`armed
      ensures Inv() && Step(old(Viewed()), Viewed())
      ensures old(leaseLog) <= leaseLog && old(armed) <= armed && old(spent) <= spent
      ensures r.Ok? && r.value.Some? ==>
                && leaseLog == old(leaseLog) + [StartupReleased] && r.value.value == Epoch(leaseLog)
                && armed == old(armed) + {Token(operation, transactions, |leaseLog|)}
      ensures !(r.Ok? && r.value.Some?) ==> unchanged(this)
      ensures r.Err? <==> !ValidCaller(caller)
      ensures r.Ok? && r.value.Some? <==> ValidCaller(caller) && OwnsReadyTunnel(operation, caller) && !leaseAttached
    {
      hide Step;
      StepReflexive(Viewed());
      if !ValidCaller(caller) {
        return Err(InvalidCaller);
      }
      if !OwnsReadyTunnel(operation, caller) || leaseAttached {
        return Ok(None);
      }
      ReadyHasBypass(operation, caller);
      hide Chronicled, Safe, Accepted, Unrestored, IsApplied, Legal, Attached, Epoch, Recoveries;
      BumpsAppend(leaseLog, StartupReleased);
      var epoch := Arm(operation, StartupReleased);
      return Ok(Some(epoch));
    }

    /** The liveness lease ended: quiesce the session, drop the lease, and arm a
        watchdog if that could be saved. */
    method ReleaseLease(operation: Uuid, caller: Caller) returns (r: Result<Option<nat>, Error>)
      requires Inv()
      modifies this`journal, this`sessionAttached, this`leaseAttached, this`leaseEpoch, this`leaseLog, this`armed
      modifies platform`disk, platform`os, platform`moments, platform`saves, platform`acts
      ensures Inv() && Step(old(Viewed()), Viewed())
      ensures old(leaseLog) <= leaseLog && old(armed) <= armed && old(spent) <= spent
      ensures transactions == old(transactions) && recoveries == old(recoveries) && spent == old(spent)
      ensures journal == old(journal).(generation := journal.generation)
      ensures r.Ok? && r.value.Some? ==>
                && leaseLog == old(leaseLog) + [Released] && r.value.value == Epoch(leaseLog) && !sessionAttached
                && armed == old(armed) + {Token(operation, transactions, |leaseLog|)}
      ensures r.Ok? && r.value.Some? && old(sessionAttached) ==> Gone(journal.steps, PacketSession, platform.os)
      ensures !(r.Ok? && r.value.Some?) ==>
                armed == old(armed) && (leaseLog == old(leaseLog) || leaseLog == old(leaseLog) + [ReleasedUnsaved])
      ensures r == Ok(None) <==> ValidCaller(caller) && !(old(OwnsReadyTunnel(operation, caller)) && old(leaseAttached))
      ensures r == Ok(None) ==> unchanged(this)
    {
      hide Inv, Step, IsApplied, Gone, Unrestored, Legal, Attached, Epoch, Recoveries, ValidCaller;
      ghost var a := Viewed();
      StepReflexive(a);
      if !ValidCaller(caller) {
        return Err(InvalidCaller);
      }
      if !OwnsReadyTunnel(operation, caller) || !leaseAttached {
        return Ok(None);
      }
      DiskBehind();
      if sessionAttached {
        var index := IndexOf(journal.steps, PacketSession);
        if index.None? || journal.steps[index.value].state != Applied {
          return Err(MissingAppliedStep(PacketSession));
        }
        var gone := Dispose(index.value);
        if !gone {
          TrailSteps(a, Viewed());
          return Err(BackendFailure);
        }
      }
      Detach();
      var saved;
      saved, r := EndLease(operation, caller);
      SavedSteps(a, Viewed());
    }

    method EndLease(operation: Uuid, caller: Caller) returns (saved: SaveOutcome, r: Result<Option<nat>, Error>)
      requires Inv() && OwnsReadyTunnel(operation, caller) && leaseAttached && !sessionAttached
      modifies this`journal, this`leaseAttached, this`leaseEpoch, this`leaseLog, this`armed
      modifies platform`disk, platform`moments, platform`saves
      ensures old(platform.moments) <= platform.moments
      ensures Inv() && journal == Bumped(old(journal))
      ensures platform.disk == if saved == Saved then journal else old(platform.disk)
      ensures saved == Saved ==> journal.generation > old(journal.generation)
      ensures if saved == Saved then
                && leaseLog == old(leaseLog) + [Released] && r == Ok(Some(Epoch(leaseLog)))
                && armed == old(armed) + {Token(operation, transactions, |leaseLog|)}
              else r.Err? && leaseLog == old(leaseLog) + [ReleasedUnsaved] && armed == old(armed)
    {
      ReadyHasBypass(operation, caller);
      hide MachineInv, Unrestored, IsApplied, Legal, Attached, Epoch, Recoveries;
      BumpsAppend(leaseLog, Released);
      BumpsAppend(leaseLog, ReleasedUnsaved);
      leaseAttached := false;
      saved := Store();
      if saved != Saved {
        leaseLog := leaseLog + [ReleasedUnsaved];
        return saved, Err(JournalFailure(saved));
      }
      var epoch := Arm(operation, Released);
      return saved, Ok(Some(epoch));
    }

    /** The save itself, whatever the lease is doing. */
    method Store() returns (outcome: SaveOutcome)
      requires MachineInv()
      modifies this`journal, platform`disk, platform`moments, platform`saves
      ensures old(platform.moments) <= platform.moments
      ensures MachineInv() && journal == Bumped(old(journal))
      ensures platform.disk == if outcome == Saved then journal else old(platform.disk)
      ensures outcome == Saved ==> journal.generation > old(journal.generation)
    {
      hide Chronicled, Safe, Accepted;
      SafeAnyGeneration(journal, platform.os, Bumped(journal).generation);
      ghost var moments, disk, before := platform.moments, platform.disk, journal;
      journal, outcome := platform.Save(policy, journal);
      ChronicledStore(moments, disk, before, journal, outcome, platform.os);
    }

    /** Nothing happened to the lease, and no other transaction began, since any
        watchdog carrying this epoch was armed less than a full wrap ago. */
    ghost predicate NothingSince(epoch: nat)
      reads this
    {
      forall t :: t in armed && t.at <= |leaseLog| < t.at + EPOCHS && Epoch(leaseLog[..t.at]) == epoch ==>
        t.at == |leaseLog| && t.transaction == transactions
    }

    lemma SameEpochMeansNothingSince(epoch: nat)
      requires Inv() && leaseEpoch == epoch
      ensures NothingSince(epoch)
    {
      hide Chronicled, Safe, Accepted, Unrestored, Legal, Epoch, Attached;
      forall t | t in armed && t.at <= |leaseLog| < t.at + EPOCHS && Epoch(leaseLog[..t.at]) == epoch
        ensures t.at == |leaseLog| && t.transaction == transactions
      {
        NothingSinceArming(leaseLog, t.at);
      }
    }

    /** A ready tunnel of this operation without a lease, at this epoch; only the
        startup watchdog tolerates an attached session. */
    predicate Orphaned(startup: bool, operation: Uuid, epoch: nat)
      reads this
    {
      && (journal.phase == Prepared || journal.phase == Active)
      && journal.operationKind == Some(Tunnel) && journal.operation == Some(operation)
      && (startup || !sessionAttached) && !leaseAttached && leaseEpoch == epoch
    }

    /** The watchdog of a lost liveness lease, or of a lost startup connection
        when `startup`: it recovers only the exact state it was armed in. */
    method RecoverOrphan(startup: bool, operation: Uuid, epoch: nat) returns (r: Result<bool, Error>)
      requires Inv()
      modifies this, platform
      ensures Inv() && Step(old(Viewed()), Viewed())
      ensures old(leaseLog) <= leaseLog && old(armed) <= armed && old(spent) <= spent
      ensures transactions == old(transactions) && spent == old(spent) && armed == old(armed)
      ensures r == Ok(false) ==> recoveries == old(recoveries) && journal == old(journal) && platform.os == old(platform.os)
      ensures r == Ok(false) <==> !old(Orphaned(startup, operation, epoch))
      ensures r != Ok(false) ==>
                && recoveries == old(recoveries) + 1 && leaseLog == old(leaseLog) + [RecoveryBegan]
                && old(NothingSince(epoch))
      ensures r == Ok(true) ==> journal.phase == Clean && platform.os == {}
    {
      hide Inv, Step, Steady, Verdict, NothingSince;
      ghost var a := Viewed();
      StepReflexive(a);
      if || (journal.phase != Prepared && journal.phase != Active)
         || journal.operationKind != Some(Tunnel) || journal.operation != Some(operation)
         || (!startup && sessionAttached) || leaseAttached || leaseEpoch != epoch
      {
        return Ok(false);
      }
      DiskBehind();
      SameEpochMeansNothingSince(epoch);
      var error := Recover();
      VerdictSteady(policy, old(Now()), Now(), error.None?, a, Viewed());
      StepThenSteady(a, a, Viewed());
      return if error.None? then Ok(true) else Err(error.value);
    }

    // ------------------------------------------------------------------- commit

    /** Routes the tunnel: the kill switch first when the plan wants one. */
    method Commit(operation: Uuid, caller: Caller) returns (error: Option<Error>)
      requires Inv()
      modifies this, platform
      ensures Inv() && Step(old(Viewed()), Viewed())
      ensures old(leaseLog) <= leaseLog && old(armed) <= armed && old(spent) <= spent
      ensures transactions == old(transactions) && spent == old(spent) && armed == old(armed)
      ensures error.None? ==> journal.phase == Active && platform.disk == journal && recoveries == old(recoveries)
      ensures journal.phase == Active && old(journal.phase) != Active ==> Routed(journal)
      ensures error.None? ==>
                && old(journal.plan).Some?
                && forall k :: Added(old(journal.steps), old(journal.plan).value, k) ==> Present(journal.steps, k, platform.os)
      ensures old(journal.plan).Some? && old(journal.plan).value.vpnChain ==> recoveries == old(recoveries)
      ensures recoveries == old(recoveries) ==> sessionAttached == old(sessionAttached)
      ensures EnsureTunnelOwner(old(journal), operation, caller).Some? ==>
                error == EnsureTunnelOwner(old(journal), operation, caller) && journal == old(journal)
      ensures error.Some? && recoveries == old(recoveries) && journal != old(journal) ==>
                old(journal.plan).Some? && old(journal.plan).value.vpnChain
    {
      hide Inv, Step, Steady, IsApplied, Has, Present, Added, Grew, MayRoute, ValidCaller;
      ghost var a := Viewed();
      StepReflexive(a);
      error := EnsureTunnelOwner(journal, operation, caller);
      if error.Some? {
        return;
      }
      error := Unready();
      if error.Some? {
        return;
      }
      var plan := journal.plan.value;
      var failed;
      failed := Route(plan);
      StepThenSteady(a, a, Viewed());
      if failed.None? {
        return None;
      }
      if plan.vpnChain {
        return failed;
      }
      ghost var b := Viewed();
      var reported := FailAndRecover(failed.value);
      StepThenSteady(a, b, Viewed());
      return Some(reported);
    }

    /** Adds the routes and makes the tunnel active. */
    method Route(plan: Plan) returns (error: Option<Error>)
      requires Inv() && journal.phase == Prepared && journal.plan == Some(plan) && !plan.deferred
      requires forall k :: k in REQUIRED + [PacketSession] ==> IsApplied(journal.steps, k)
      modifies this`journal, platform`disk, platform`os, platform`moments, platform`saves
      ensures Inv() && Steady(old(Viewed()), Viewed())
      ensures journal.phase == Prepared || (journal.phase == Active && Routed(journal))
      ensures error.None? ==> journal.phase == Active && platform.disk == journal
      ensures error.None? ==>
                forall k :: Added(old(journal.steps), plan, k) ==> Present(journal.steps, k, platform.os)
    {
      hide Inv, Steady, IsApplied, Has, Present, Added;
      ghost var a := Viewed();
      assert forall i :: 0 <= i < |REQUIRED| ==> IsApplied(journal.steps, REQUIRED[i]);
      error := AddRoutes(plan);
      if error.Some? {
        return;
      }
      ghost var b := Viewed();
      var saved := EnterPhase(Active);
      SteadyTransitive(a, b, Viewed());
      return if saved == Saved then None else Some(JournalFailure(saved));
    }

    /** What keeps the tunnel from being routed: its phase, no live session, no plan or
        a deferred one, or the first network step that is not applied. */
    method Unready() returns (error: Option<Error>)
      ensures error.None? <==>
                && journal.phase == Prepared && journal.plan.Some? && !journal.plan.value.deferred
                && forall k :: k in REQUIRED + [PacketSession] ==> IsApplied(journal.steps, k)
      ensures error.Some? && error.value.MissingAppliedStep? ==>
                && error.value.kind in REQUIRED && !IsApplied(journal.steps, error.value.kind)
                && forall i :: 0 <= i < |REQUIRED| && REQUIRED[i] == error.value.kind ==>
                     forall k :: k in REQUIRED[..i] ==> IsApplied(journal.steps, k)
    {
      hide IsApplied;
      if journal.phase != Prepared {
        return Some(InvalidPhase(journal.phase));
      }
      if !IsApplied(journal.steps, PacketSession) {
        return Some(SessionRequired);
      }
      if journal.plan.None? {
        return Some(MissingPlan);
      }
      if journal.plan.value.deferred {
        return Some(InvalidPlan);
      }
      for i := 0 to |REQUIRED|
        invariant forall k :: k in REQUIRED[..i] ==> IsApplied(journal.steps, k)
      {
        if !IsApplied(journal.steps, REQUIRED[i]) {
          return Some(MissingAppliedStep(REQUIRED[i]));
        }
      }
      assert REQUIRED[..|REQUIRED|] == REQUIRED;
      return None;
    }

    const REQUIRED := [WintunAdapter, EndpointBypass, InterfaceConfiguration, Dns]

    /** Applies the kill switch and the default routes that are still missing. */
    method AddRoutes(plan: Plan) returns (error: Option<Error>)
      requires Inv() && journal.phase == Prepared && journal.plan == Some(plan)
      modifies this`journal, platform`disk, platform`os, platform`moments, platform`saves
      ensures Inv() && Steady(old(Viewed()), Viewed())
      ensures journal == old(journal).(steps := journal.steps, generation := journal.generation)
      ensures forall k :: IsApplied(old(journal.steps), k) ==> IsApplied(journal.steps, k)
      ensures error.None? ==>
                && IsApplied(journal.steps, DefaultRoutes)
                && (plan.killSwitch || plan.vpnChain ==> IsApplied(journal.steps, KillSwitch))
                && (forall k :: Added(old(journal.steps), plan, k) ==> Present(journal.steps, k, platform.os))
    {
      hide Inv, Steady, IsApplied, Has, Present;
      var pending: seq<Kind> := [];
      if (plan.killSwitch || plan.vpnChain) && !IsApplied(journal.steps, KillSwitch) {
        pending := pending + [KillSwitch];
      }
      if !IsApplied(journal.steps, DefaultRoutes) {
        pending := pending + [DefaultRoutes];
      }
      assert Routable(journal, pending);
      error := ExtendAll(pending, plan);
      assert forall k :: Added(old(journal.steps), plan, k) <==> k in pending;
    }

    // --------------------------------------------------------------- recoveries

    /** The owner ends the transaction. */
    method Rollback(operation: Uuid, caller: Caller) returns (error: Option<Error>)
      requires Inv()
      modifies this, platform
      ensures Inv() && Step(old(Viewed()), Viewed())
      ensures old(leaseLog) <= leaseLog && old(armed) <= armed && old(spent) <= spent
      ensures transactions == old(transactions) && spent == old(spent) && armed == old(armed)
      ensures EnsureOwner(old(journal), operation, caller).Some? ==>
                error == EnsureOwner(old(journal), operation, caller) && journal == old(journal)
      ensures EnsureOwner(old(journal), operation, caller).None? ==> Verdict(policy, old(Now()), Now(), error.None?)
      ensures error.None? ==> journal.phase == Clean && platform.os == {}
    {
      hide Inv, Step, Steady, Verdict, ValidCaller;
      ghost var a := Viewed();
      StepReflexive(a);
      error := EnsureOwner(journal, operation, caller);
      if error.Some? {
        return;
      }
      DiskBehind();
      error := Recover();
      VerdictSteady(policy, old(Now()), Now(), error.None?, a, Viewed());
      StepThenSteady(a, a, Viewed());
    }

    /** Maintenance recovery of whatever the journal holds. */
    method RecoverStale() returns (error: Option<Error>)
      requires Inv()
      modifies this, platform
      ensures Inv() && Step(old(Viewed()), Viewed())
      ensures old(leaseLog) <= leaseLog && old(armed) <= armed && old(spent) <= spent
      ensures transactions == old(transactions) && spent == old(spent) && armed == old(armed)
      ensures old(journal.phase) == Clean ==> error.None? && journal == old(journal) && platform.os == {}
      ensures old(journal.phase) != Clean ==> Verdict(policy, old(Now()), Now(), error.None?)
      ensures error.None? ==> journal.phase == Clean && platform.disk.phase == Clean && platform.os == {}
    {
      hide Inv, Step, Steady, Verdict;
      ghost var a := Viewed();
      StepReflexive(a);
      DiskBehind();
      if journal.phase == Clean {
        return None;
      }
      error := Recover();
      VerdictSteady(policy, old(Now()), Now(), error.None?, a, Viewed());
      StepThenSteady(a, a, Viewed());
      DiskBehind();
    }

    /** Looks for every adapter a recovery would act on. */
    method InspectAdapters() returns (known: bool)
      requires Inv()
      modifies platform`os, platform`moments, platform`asked
      ensures old(platform.moments) <= platform.moments
      ensures Inv()
      ensures old(platform.asked) <= platform.asked
      ensures Answered(PendingAdapters(journal.steps), platform.asked[|old(platform.asked)|..], known)
    {
      hide Inv, Answered, PendingAdapters;
      NothingPending();
      ghost var before := platform.asked;
      ghost var questions: seq<Question> := [];
      for i := 0 to |journal.steps|
        invariant Inv() && old(platform.moments) <= platform.moments
        invariant platform.asked == before + questions && Answered(PendingAdapters(journal.steps[..i]), questions, true)
      {
        PendingNext(journal.steps, i);
        if journal.steps[i].kind == WintunAdapter && journal.steps[i].state != Restored {
          var receipt := journal.steps[i].receipt;
          PendingPrefix(journal.steps, i + 1);
          var present := InspectAdapter(receipt);
          AnsweredMore(PendingAdapters(journal.steps[..i]), PendingAdapters(journal.steps), questions, receipt, present);
          assert before + (questions + [AboutAdapter(receipt, present)]) == platform.asked;
          questions := questions + [AboutAdapter(receipt, present)];
          if present.None? {
            assert platform.asked[|before|..] == questions;
            return false;
          }
        }
      }
      assert journal.steps[..|journal.steps|] == journal.steps;
      return true;
    }

    method InspectAdapter(receipt: Receipt) returns (present: Option<bool>)
      requires Inv()
      modifies platform`os, platform`moments, platform`asked
      ensures old(platform.moments) <= platform.moments
      ensures Inv() && platform.os <= old(platform.os)
      ensures present == Some(false) ==> Destroyed(receipt) !! platform.os
      ensures platform.asked == old(platform.asked) + [AboutAdapter(receipt, present)]
    {
      hide Chronicled, Safe, Accepted, Unrestored, IsApplied;
      ghost var before, moments := platform.os, platform.moments;
      present := platform.InspectAdapter(receipt);
      ChronicledMoment(moments, platform.disk, journal, platform.os);
      SafeShrinks(journal, before, platform.os);
      SafeShrinks(platform.disk, before, platform.os);
    }

    /** A detached, unleased transaction of exactly this operation and generation
        that waits for recovery; a user may also end a pause of their own. */
    predicate MayRetry(operation: Uuid, expected: nat, caller: Option<Caller>)
      reads this
    {
      && journal.operation == Some(operation) && journal.generation == expected
      && (journal.phase == RecoveryRequired || (caller.Some? && journal.phase == Paused))
      && (caller.Some? ==> ValidCaller(caller.value) && journal.ownerSid == Some(caller.value.sid))
      && !sessionAttached && !leaseAttached
    }

    /** Why a retry is refused; nothing is exactly `MayRetry`. */
    function RetryRefusal(operation: Uuid, expected: nat, caller: Option<Caller>): (refusal: Option<Error>)
      reads this
      ensures refusal.None? <==> MayRetry(operation, expected, caller)
    {
      if caller.Some? && !ValidCaller(caller.value) then Some(InvalidCaller)
      else if journal.operation != Some(operation) || journal.generation != expected then Some(RecoveryConflict)
      else if caller.Some? && journal.ownerSid != Some(caller.value.sid) then Some(OwnerMismatch)
      else if caller.Some? && journal.phase != RecoveryRequired && journal.phase != Paused then Some(RecoveryBusy)
      else if caller.None? && journal.phase != RecoveryRequired then Some(RecoveryConflict)
      else if sessionAttached || leaseAttached then Some(RecoveryBusy)
      else None
    }

    /**
      A retry scoped to one operation and generation. It is the service's own
      when `caller` is None and an authenticated user's otherwise; a pass that
      gets past the guards uses the pair up.
    */
    method RecoverGuarded(operation: Uuid, expected: nat, caller: Option<Caller>)
      returns (error: Option<Error>, ghost known: bool)
      requires Inv()
      modifies this, platform
      ensures Inv() && Step(old(Viewed()), Viewed())
      ensures old(leaseLog) <= leaseLog && old(armed) <= armed && old(spent) <= spent
      ensures transactions == old(transactions) && armed == old(armed)
      ensures recoveries == old(recoveries) ==>
                error.Some? && journal == old(journal) && spent == old(spent) && platform.acts == old(platform.acts)
      ensures old(platform.asked) <= platform.asked
      ensures recoveries != old(recoveries) <==> old(MayRetry(operation, expected, caller)) && known
      ensures !old(MayRetry(operation, expected, caller)) ==>
                error == old(RetryRefusal(operation, expected, caller)) && platform.asked == old(platform.asked)
      ensures old(MayRetry(operation, expected, caller)) ==>
                && Answered(PendingAdapters(old(journal.steps)), platform.asked[|old(platform.asked)|..], known)
                && (!known ==> error == Some(BackendFailure))
      ensures recoveries != old(recoveries) ==>
                && recoveries == old(recoveries) + 1
                && spent == old(spent) + {(operation, expected)}
                && (expected < U64_MAX ==> (operation, expected) !in old(spent))
                && |old(platform.acts)| < |platform.acts| && platform.acts[|old(platform.acts)|] == Notify(false)
      ensures error.None? ==> journal.phase == Clean && platform.os == {}
    {
      hide Inv, Step, Steady, RetryRefusal, MayRetry, Answered, PendingAdapters;
      known := false;
      ghost var a := Viewed();
      StepReflexive(a);
      error := RetryRefusal(operation, expected, caller);
      if error.Some? {
        return;
      }
      RetryFacts(operation, expected, caller);
      DiskBehind();
      var answered := InspectAdapters();
      known := answered;
      TrailSteps(a, Viewed());
      if !answered {
        return Some(BackendFailure), known;
      }
      ghost var b := Viewed();
      error := RetryPass(operation, expected);
      StepThenSteady(a, b, Viewed());
    }

    lemma RetryFacts(operation: Uuid, expected: nat, caller: Option<Caller>)
      requires MayRetry(operation, expected, caller)
      ensures journal.operation == Some(operation) && journal.generation == expected
      ensures journal.phase != Clean && !sessionAttached
    {
    }

    /** The pass of a retry: it warns of lost egress, recovers and uses its pair up. */
    method RetryPass(operation: Uuid, expected: nat) returns (error: Option<Error>)
      requires Inv() && journal.operation == Some(operation) && journal.generation == expected
      requires journal.phase != Clean && !sessionAttached
      modifies this
      modifies platform`disk, platform`os, platform`moments, platform`saves, platform`acts
      ensures Inv() && Steady(old(Viewed()), Viewed())
      ensures transactions == old(transactions) && armed == old(armed) && leaseLog == old(leaseLog) + [RecoveryBegan]
      ensures recoveries == old(recoveries) + 1 && spent == old(spent) + {(operation, expected)}
      ensures expected < U64_MAX ==> (operation, expected) !in old(spent)
      ensures |old(platform.acts)| < |platform.acts| && platform.acts[|old(platform.acts)|] == Notify(false)
      ensures error.None? ==> journal.phase == Clean && platform.os == {}
    {
      hide Inv, Steady, Verdict;
      DiskBehind();
      SpentBehind();
      platform.NotifyRecovery(sessionAttached);
      ghost var s := Now();
      error := Recover();
      VerdictSteady(policy, s, Now(), error.None?, old(Viewed()), Viewed());
      VerdictFacts(policy, s, Now(), error.None?);
      Spend(operation, expected);
    }

    lemma SpentBehind()
      requires Inv()
      ensures forall t :: t in spent ==> t.1 < journal.generation || t.1 >= U64_MAX
    {
    }

    method Spend(operation: Uuid, generation: nat)
      requires Inv() && (generation < journal.generation || generation >= U64_MAX)
      modifies this`spent
      ensures Inv() && spent == old(spent) + {(operation, generation)}
    {
      hide Chronicled, Safe, Accepted, Unrestored, IsApplied;
      spent := spent + {(operation, generation)};
    }

    /** Checks what survived a restart; an unanswered question quarantines it. */
    method InspectStartup() returns (r: Result<Inspection, Error>)
      requires Inv()
      modifies this`journal, platform`disk, platform`moments, platform`saves, platform`asked
      ensures Inv() && Step(old(Viewed()), Viewed())
      ensures old(leaseLog) <= leaseLog && old(armed) <= armed && old(spent) <= spent
      ensures r == Err(RecoveryBusy) ==> platform.asked == old(platform.asked)
      ensures r != Err(RecoveryBusy) ==>
                && |platform.asked| == |old(platform.asked)| + 1
                && platform.asked == old(platform.asked) + [platform.asked[|old(platform.asked)|]]
                && platform.asked[|old(platform.asked)|].AboutTunnel?
                && var answer := platform.asked[|old(platform.asked)|].inspection;
                   if answer.Some? then r == Ok(answer.value)
                   else r.Err? && journal.phase == RecoveryRequired && (platform.disk == journal || r != Err(BackendFailure))
      ensures r.Ok? ==> journal == old(journal)
      ensures r.Err? && r != Err(RecoveryBusy) ==> journal.phase == RecoveryRequired
      ensures journal.steps == old(journal.steps) && platform.os == old(platform.os)
      ensures journal.phase != old(journal.phase) ==> journal.phase == RecoveryRequired && old(journal.phase) == Active
      ensures r == Err(RecoveryBusy) <==>
                || old(journal.phase) != Active || old(journal.operationKind) != Some(Tunnel)
                || sessionAttached || leaseAttached
      ensures r == Err(RecoveryBusy) ==> journal == old(journal)
    {
      hide Chronicled, Safe, Accepted, Unrestored, IsApplied, Step, Steady;
      ghost var a := Viewed();
      StepReflexive(a);
      if journal.phase != Active || journal.operationKind != Some(Tunnel) || sessionAttached || leaseAttached {
        return Err(RecoveryBusy);
      }
      var inspection := platform.InspectTunnel();
      if inspection.Some? {
        return Ok(inspection.value);
      }
      SafeRetired(journal, platform.os, RecoveryRequired, journal.pauseDeadline);
      Carried(journal, journal.(phase := RecoveryRequired));
      ChronicledMemory(platform.moments, platform.disk, journal, journal.(phase := RecoveryRequired));
      journal := journal.(phase := RecoveryRequired);
      var saved := Persist();
      PhaseSteady(a, Viewed());
      SteadySteps(a, Viewed());
      return if saved == Saved then Err(BackendFailure) else Err(JournalFailure(saved));
    }

    /** Adopts a journal only after it is durable, leaving memory alone otherwise. */
    method Adopt(next: Journal) returns (outcome: SaveOutcome)
      requires Inv() && Safe(next, platform.os) && next.generation == journal.generation
      requires sessionAttached ==> IsApplied(next.steps, PacketSession)
      requires forall t :: t in armed && t.at == |leaseLog| ==> Unrestored(next.steps, EndpointBypass)
      requires next.phase == Clean || Carries(journal, next)
      modifies this`journal, platform`disk, platform`moments, platform`saves
      ensures old(platform.moments) <= platform.moments
      ensures Inv()
      ensures outcome == Saved ==>
                && journal == next.(generation := next.generation + 1) && platform.disk == journal
      ensures outcome != Saved ==> journal == old(journal) && platform.disk == old(platform.disk)
      ensures platform.saves == old(platform.saves) + [outcome]
    {
      hide Chronicled, Safe, Accepted, Unrestored, IsApplied;
      SafeAnyGeneration(next, platform.os, Bumped(next).generation);
      var saved;
      ghost var moments, disk := platform.moments, platform.disk;
      if next.phase != Clean {
        ChronicledMemory(moments, disk, journal, next);
      }
      saved, outcome := platform.Save(policy, next);
      if outcome == Saved {
        if next.phase != Clean {
          ChronicledSave(moments, disk, next, saved, platform.os);
        } else {
          ChronicledSave(moments, disk, journal, saved, platform.os);
        }
        journal := saved;
      } else {
        ChronicledMoment(moments, disk, journal, platform.os);
      }
    }

    lemma ReconcileFacts(next: seq<Record>)
      requires Inv() && journal.phase == RecoveryRequired && next == Reconciled(journal.steps, |journal.steps|)
      ensures Safe(journal.(steps := next), platform.os)
      ensures OnlyRestores(journal.steps, next) && AdvancesWith(journal.steps, next)
      ensures AllRestored(next) ==> platform.os == {} && !sessionAttached && forall t :: t in armed ==> t.at < |leaseLog|
      ensures sessionAttached ==> IsApplied(next, PacketSession)
      ensures forall t :: t in armed && t.at == |leaseLog| ==> Unrestored(next, EndpointBypass)
    {
      ReconciledKeeps(journal, platform.os, |journal.steps|);
      forall i | 0 <= i < |journal.steps| && next[i] != journal.steps[i]
        ensures journal.steps[i].kind == InterfaceConfiguration || journal.steps[i].kind == Dns
      {
        DependencyIsGone(journal, platform.os, i);
      }
      if AllRestored(next) {
        CleanMeansEmpty(journal.(steps := next), platform.os);
      }
      SettledKinds(journal.steps, next);
    }

    /** Finalizes steps whose exact adapter an earlier pass already removed. */
    method ReconcileRemoved() returns (r: Result<bool, Error>)
      requires Inv()
      modifies this`journal, platform`disk, platform`moments, platform`saves
      ensures Inv() && Step(old(Viewed()), Viewed())
      ensures old(leaseLog) <= leaseLog && old(armed) <= armed && old(spent) <= spent
      ensures r == Ok(true) ==>
                && old(journal.phase) == RecoveryRequired && platform.disk == journal
                && (|| (journal.phase == Clean && platform.os == {})
                    || journal == old(journal).(steps := Reconciled(old(journal.steps), |old(journal.steps)|),
                                                generation := old(journal.generation) + 1))
      ensures r != Ok(true) ==> journal == old(journal) && platform.disk == old(platform.disk)
      ensures r == Ok(false) <==>
                || old(journal.phase) != RecoveryRequired
                || (&& !AllRestored(old(journal.steps))
                    && forall i :: 0 <= i < |old(journal.steps)| ==> !DependencySatisfied(old(journal.steps), i))
    {
      hide Inv, Step, Safe, IsApplied, Unrestored, Reconciled, OnlyRestores, AdvancesWith;
      ghost var a := Viewed();
      StepReflexive(a);
      if journal.phase != RecoveryRequired {
        return Ok(false);
      }
      DiskBehind();
      var next := Reconciled(journal.steps, |journal.steps|);
      ReconcileFacts(next);
      if (forall i :: 0 <= i < |journal.steps| ==> !DependencySatisfied(journal.steps, i)) && !AllRestored(journal.steps) {
        return Ok(false);
      }
      var settled := journal.(steps := next);
      if AllRestored(next) {
        settled := Disconnected(journal);
        CleanIsSafe(policy, journal.generation);
      }
      var outcome := Adopt(settled);
      ReconcileSteps(a, Viewed(), next);
      return if outcome == Saved then Ok(true) else Err(JournalFailure(outcome));
    }

    /** Only the adapter is left of a detached transaction that waits for this
        user's recovery. */
    predicate AwaitsAdapter(operation: Uuid, expected: nat, caller: Caller)
      reads this
    {
      && ValidCaller(caller) && journal.operation == Some(operation) && journal.generation == expected
      && journal.ownerSid == Some(caller.sid) && journal.phase == RecoveryRequired
      && !sessionAttached && !leaseAttached
      && var index := IndexOf(journal.steps, WintunAdapter);
         && index.Some? && journal.steps[index.value].state != Restored
         && forall i :: 0 <= i < |journal.steps| && i != index.value ==> journal.steps[i].state == Restored
    }

    /** A user retry that finds the last unresolved resource, the adapter, gone.
        `present` is what the inspection answered. */
    method ReconcileAbsent(operation: Uuid, expected: nat, caller: Caller)
      returns (r: Result<bool, Error>, ghost present: Option<bool>)
      requires Inv()
      modifies this`journal, platform`disk, platform`os, platform`moments, platform`saves, platform`asked
      ensures Inv() && Step(old(Viewed()), Viewed())
      ensures old(leaseLog) <= leaseLog && old(armed) <= armed && old(spent) <= spent
      ensures r == Ok(true) ==> journal.phase == Clean && platform.disk == journal && platform.os == {}
      ensures r == Ok(true) ==>
                && old(journal.operation) == Some(operation) && old(journal.generation) == expected
                && forall i :: 0 <= i < |old(journal.steps)| && old(journal.steps)[i].kind != WintunAdapter ==>
                     old(journal.steps)[i].state == Restored
      ensures r != Ok(true) ==> journal == old(journal) && platform.disk == old(platform.disk)
      ensures platform.acts == old(platform.acts)
      ensures !old(AwaitsAdapter(operation, expected, caller)) ==> r != Ok(true) && unchanged(this) && unchanged(platform)
      ensures old(AwaitsAdapter(operation, expected, caller)) ==>
                && platform.asked == old(platform.asked) +
                     [AboutAdapter(old(journal.steps)[IndexOf(old(journal.steps), WintunAdapter).value].receipt, present)]
                && (r == Err(BackendFailure) <==> present.None?)
                && (r == Ok(false) <==> present == Some(true))
                && (present != Some(false) ==> platform.saves == old(platform.saves))
                && (present == Some(false) ==>
                      && |platform.saves| == |old(platform.saves)| + 1
                      && var outcome := platform.saves[|old(platform.saves)|];
                         r == if outcome == Saved then Ok(true) else Err(JournalFailure(outcome)))
    {
      hide Inv, Step, Safe, IsApplied, Unrestored, ValidCaller;
      present := None;
      ghost var a := Viewed();
      StepReflexive(a);
      if !ValidCaller(caller) {
        return Err(InvalidCaller), present;
      }
      if journal.operation != Some(operation) || journal.generation != expected {
        return Err(RecoveryConflict), present;
      }
      if journal.ownerSid != Some(caller.sid) {
        return Err(OwnerMismatch), present;
      }
      if journal.phase != RecoveryRequired {
        return Err(RecoveryConflict), present;
      }
      if sessionAttached || leaseAttached {
        return Err(RecoveryBusy), present;
      }
      var index := IndexOf(journal.steps, WintunAdapter);
      if || index.None? || journal.steps[index.value].state == Restored
         || exists i :: 0 <= i < |journal.steps| && i != index.value && journal.steps[i].state != Restored
      {
        return Ok(false), present;
      }
      r, present := ConcludeAbsent(index.value);
    }

    /** Inspects the one adapter left, and publishes Clean if it is gone. */
    method ConcludeAbsent(index: nat) returns (r: Result<bool, Error>, ghost present: Option<bool>)
      requires Inv() && journal.phase == RecoveryRequired && index < |journal.steps|
      requires journal.steps[index].kind == WintunAdapter
      requires forall i :: 0 <= i < |journal.steps| && i != index ==> journal.steps[i].state == Restored
      requires !sessionAttached
      modifies this`journal, platform`disk, platform`os, platform`moments, platform`saves, platform`asked
      ensures Inv() && Step(old(Viewed()), Viewed())
      ensures r == Ok(true) ==> journal.phase == Clean && platform.disk == journal && platform.os == {}
      ensures r != Ok(true) ==> journal == old(journal) && platform.disk == old(platform.disk)
      ensures platform.asked == old(platform.asked) + [AboutAdapter(old(journal.steps[index].receipt), present)]
      ensures (r == Err(BackendFailure) <==> present.None?) && (r == Ok(false) <==> present == Some(true))
      ensures present != Some(false) ==> platform.saves == old(platform.saves)
      ensures present == Some(false) ==>
                && |platform.saves| == |old(platform.saves)| + 1
                && var outcome := platform.saves[|old(platform.saves)|];
                   r == if outcome == Saved then Ok(true) else Err(JournalFailure(outcome))
    {
      hide Inv, Step, Safe, IsApplied, Unrestored, Accepted;
      ghost var a := Viewed();
      StepsDistinct();
      var answer := InspectAdapter(journal.steps[index].receipt);
      present := answer;
      if answer.None? {
        TrailSteps(a, Viewed());
        return Err(BackendFailure), present;
      }
      if answer.value {
        TrailSteps(a, Viewed());
        return Ok(false), present;
      }
      AbsentFacts(index);
      DiskBehind();
      CleanIsSafe(policy, journal.generation);
      var outcome := Adopt(Disconnected(journal));
      AbsentSteps(a, Viewed());
      return (if outcome == Saved then Ok(true) else Err(JournalFailure(outcome))), present;
    }

    lemma AbsentFacts(index: nat)
      requires Inv() && index < |journal.steps| && journal.steps[index].kind == WintunAdapter
      requires forall i :: 0 <= i < |journal.steps| && i != index ==> journal.steps[i].state == Restored
      requires Destroyed(journal.steps[index].receipt) !! platform.os
      ensures platform.os == {} && !IsApplied(journal.steps, KillSwitch)
      ensures forall t :: t in armed ==> t.at < |leaseLog|
    {
      OnlyAdapterLeft(journal, platform.os, index);
    }

    // ------------------------------------------------------------- system proxy

    const PROXY_ATTEMPTS: nat := 3

    /** Retries the restore of the proxy without falling back to recovery. */
    method UndoProxy(index: nat) returns (gone: bool)
      requires Inv() && index < |journal.steps|
      modifies platform`os, platform`moments, platform`acts
      ensures old(platform.moments) <= platform.moments
      ensures Inv()
      ensures gone ==> Names(journal.steps[index].receipt) !in platform.os
    {
      hide Inv;
      gone := false;
      var attempt := 0;
      while attempt < PROXY_ATTEMPTS && !gone
        invariant Inv() && old(platform.moments) <= platform.moments
        invariant gone ==> Names(journal.steps[index].receipt) !in platform.os
      {
        gone := Undo(index);
        attempt := attempt + 1;
      }
    }

    /** Takes back a proxy step appended to an active tunnel; never recovers. */
    method RollBackProxy(error: Error) returns (reported: Error)
      requires Inv() && journal.phase != Clean && journal.steps != []
      requires journal.steps[|journal.steps| - 1].kind == SystemProxy
      modifies this`journal, this`sessionAttached, platform
      ensures Inv() && Steady(old(Viewed()), Viewed()) && sessionAttached == old(sessionAttached)
      ensures journal == old(journal).(steps := journal.steps, generation := journal.generation)
      ensures reported == error || reported.ApplyAndRecovery?
      ensures reported == error && !error.ApplyAndRecovery? ==> !Has(journal.steps, SystemProxy) && platform.disk == journal
    {
      hide *;
      var failure := RemoveProxy(|journal.steps| - 1);
      return if failure.None? then error else ApplyAndRecovery(error, failure.value);
    }

    /** Restores the proxy and removes its step; never recovers. */
    method RemoveProxy(index: nat) returns (failure: Option<Error>)
      requires Inv() && journal.phase != Clean && index < |journal.steps| && journal.steps[index].kind == SystemProxy
      modifies this`journal, this`sessionAttached, platform
      ensures Inv() && Steady(old(Viewed()), Viewed()) && sessionAttached == old(sessionAttached)
      ensures journal == old(journal).(steps := journal.steps, generation := journal.generation)
      ensures failure.None? ==> !Has(journal.steps, SystemProxy) && platform.disk == journal
    {
      hide Inv, Steady, IsApplied, Has;
      DiskBehind();
      StepsDistinct();
      SteadyReflexive(Viewed());
      var gone := UndoProxy(index);
      if !gone {
        TrailSteps(old(Viewed()), Viewed());
        return Some(BackendFailure);
      }
      KindsAfterDrop(journal.steps, index);
      var saved := Drop(index);
      DropSteady(old(Viewed()), Viewed(), index);
      return if saved == Saved then None else Some(JournalFailure(saved));
    }

    /** Joins the system proxy to an active tunnel as one more journaled step. */
    method JoinProxy() returns (error: Option<Error>)
      requires Inv() && journal.phase == Active && journal.operationKind == Some(Tunnel)
      modifies this`journal, this`sessionAttached, platform
      ensures Inv() && Steady(old(Viewed()), Viewed()) && sessionAttached == old(sessionAttached)
      ensures journal == old(journal).(steps := journal.steps, generation := journal.generation)
      ensures error.None? ==> IsApplied(journal.steps, SystemProxy) && platform.disk == journal
      ensures error.None? ==> Present(journal.steps, SystemProxy, platform.os)
      ensures Unrestored(old(journal.steps), SystemProxy) ==>
                error == Some(DuplicateStep(SystemProxy)) && journal == old(journal)
    {
      hide Inv, Steady, IsApplied, Has, Present, Unrestored, MayRoute, Safe, Grew;
      ghost var a := Viewed();
      UnrestoredIsThere(journal.steps, SystemProxy);
      Forget(SystemProxy);
      ghost var b := Viewed();
      if Has(journal.steps, SystemProxy) {
        return Some(DuplicateStep(SystemProxy));
      }
      var planned := platform.PlanStep(SystemProxy, None);
      if planned.None? {
        return Some(BackendFailure);
      }
      var receipt := planned.value;
      if receipt.Kind() != SystemProxy {
        return Some(ReceiptKindMismatch(receipt.Kind()));
      }
      NotRouting(journal, SystemProxy);
      DiskBehind();
      var saved := RecordIntent(receipt);
      ProxyGrew(b, Viewed());
      SteadyTransitive(a, b, Viewed());
      if saved != Saved {
        return Some(JournalFailure(saved));
      }
      var confirmed := Confirm(receipt);
      ProxyGrew(b, Viewed());
      SteadyTransitive(a, b, Viewed());
      if confirmed.Ok? {
        LastApplied(journal.steps);
        LastPresent(journal.steps, platform.os);
        return None;
      }
      ghost var c := Viewed();
      var reported := RollBackProxy(confirmed.error);
      SteadyTransitive(a, c, Viewed());
      return Some(reported);
    }

    /** Confirms a standalone proxy: applied and active in one save. */
    method ActivateProxy(receipt: Receipt) returns (saved: SaveOutcome)
      requires Inv() && journal.phase == Preparing && journal.operationKind == Some(ProxyOnly) && journal.plan.None?
      requires |journal.steps| == 1 && journal.steps[0].kind == SystemProxy && journal.steps[0].state == Intended
      requires receipt.Kind() == SystemProxy && Names(receipt) == Names(journal.steps[0].receipt)
      modifies this`journal, platform`disk, platform`moments, platform`saves
      ensures old(platform.moments) <= platform.moments
      ensures Inv()
      ensures journal == Bumped(old(journal).(steps := [Record(SystemProxy, Applied, receipt)], phase := Active))
      ensures platform.disk == if saved == Saved then journal else old(platform.disk)
      ensures saved == Saved ==> journal.generation > old(journal.generation)
    {
      var record := Record(SystemProxy, Applied, receipt);
      EnrichKeeps(journal, platform.os, 0, record);
      var steps := journal.steps[0 := record];
      assert steps == [record];
      SafeProxyActive(journal.(steps := steps), platform.os);
      hide Chronicled, Safe, Accepted, Unrestored, IsApplied, Has;
      Carried(journal, journal.(steps := steps, phase := Active));
      ChronicledMemory(platform.moments, platform.disk, journal, journal.(steps := steps, phase := Active));
      journal := journal.(steps := steps, phase := Active);
      saved := Persist();
    }

    method ApplySystemProxy(operation: Uuid, caller: Caller) returns (error: Option<Error>)
      requires Inv()
      modifies this, platform
      ensures Inv() && Step(old(Viewed()), Viewed())
      ensures old(leaseLog) <= leaseLog && old(armed) <= armed && old(spent) <= spent
      ensures spent == old(spent) && armed == old(armed)
      ensures error.None? ==>
                && IsApplied(journal.steps, SystemProxy) && platform.disk == journal
                && Present(journal.steps, SystemProxy, platform.os)
                && journal.phase == Active && journal.operation == Some(operation)
      ensures old(journal.phase) == Active ==> recoveries == old(recoveries) && journal.phase == Active
      ensures old(journal.phase) != Active && old(journal.phase) != Clean ==> error.Some? && journal == old(journal)
    {
      hide Inv, Step, Steady, IsApplied, Has, Present, ValidCaller, MayRoute, Safe, Grew;
      ghost var a := Viewed();
      StepReflexive(a);
      if !ValidCaller(caller) {
        return Some(InvalidCaller);
      }
      if journal.phase == Active && journal.operationKind == Some(Tunnel) {
        error := EnsureOwner(journal, operation, caller);
        if error.Some? {
          return;
        }
        error := JoinProxy();
        StepThenSteady(a, a, Viewed());
        return;
      }
      if journal.phase != Clean {
        return Some(NotClean(journal.phase));
      }
      DiskBehind();
      var saved := Begin(ProxyOnly, operation, None, caller);
      BeginSteady(a, Viewed());
      SteadySteps(a, Viewed());
      if saved != Saved {
        return Some(JournalFailure(saved));
      }
      ghost var b := Viewed();
      error := StartProxy();
      StepThenSteady(a, b, Viewed());
    }

    /** The body of a standalone proxy transaction that has just begun. */
    method StartProxy() returns (error: Option<Error>)
      requires Inv() && journal.phase == Preparing && journal.operationKind == Some(ProxyOnly) && journal.plan.None?
      requires journal.steps == []
      modifies this, platform
      ensures Inv() && Steady(old(Viewed()), Viewed())
      ensures old(leaseLog) <= leaseLog
      ensures transactions == old(transactions) && spent == old(spent) && armed == old(armed)
      ensures error.None? ==>
                && IsApplied(journal.steps, SystemProxy) && platform.disk == journal
                && Present(journal.steps, SystemProxy, platform.os)
                && journal.phase == Active && journal.operation == old(journal.operation)
    {
      hide Inv, Steady, IsApplied, Present;
      ghost var a := Viewed();
      var planned := platform.PlanStep(SystemProxy, None);
      if planned.None? || planned.value.Kind() != SystemProxy {
        var cause := if planned.None? then BackendFailure else ReceiptKindMismatch(planned.value.Kind());
        var reported := FailAndRecover(cause);
        return Some(if reported.ApplyAndRecovery? && reported != cause then reported.recovery else cause);
      }
      var journaled;
      journaled, error := TryProxy(planned.value);
      if error.None? || !journaled {
        return;
      }
      ghost var b := Viewed();
      var reported := FailAndRecover(error.value);
      SteadyTransitive(a, b, Viewed());
      return Some(reported);
    }

    /** Journals, applies and activates the proxy; `journaled` if there is a step to
        take back. */
    method TryProxy(receipt: Receipt) returns (journaled: bool, error: Option<Error>)
      requires Inv() && journal.phase == Preparing && journal.operationKind == Some(ProxyOnly) && journal.plan.None?
      requires journal.steps == [] && receipt.Kind() == SystemProxy
      modifies this`journal, platform`disk, platform`os, platform`moments, platform`saves
      ensures Inv() && Steady(old(Viewed()), Viewed()) && journal.phase != Clean
      ensures !journaled ==> platform.disk == old(platform.disk) && platform.os == old(platform.os)
      ensures error.None? ==>
                && IsApplied(journal.steps, SystemProxy) && platform.disk == journal
                && Present(journal.steps, SystemProxy, platform.os)
                && journal.phase == Active && journal.operation == old(journal.operation)
    {
      hide Inv, Steady, IsApplied, Present, MayRoute, Safe, Grew;
      ghost var a := Viewed();
      DiskBehind();
      NotRouting(journal, SystemProxy);
      var saved := RecordIntent(receipt);
      ProxyGrew(a, Viewed());
      if saved != Saved {
        return false, Some(JournalFailure(saved));
      }
      var outcome := Mutate(receipt);
      ProxyGrew(a, Viewed());
      if !outcome.AppliedAs? {
        return true, Some(BackendFailure);
      }
      if outcome.receipt.Kind() != SystemProxy {
        return true, Some(ReceiptKindMismatch(outcome.receipt.Kind()));
      }
      saved := ActivateProxy(outcome.receipt);
      ActivatedSteady(a, Viewed());
      if saved != Saved {
        return true, Some(JournalFailure(saved));
      }
      AppliedAt(journal.steps, 0);
      LastPresent(journal.steps, platform.os);
      return true, None;
    }

    method RestoreSystemProxy(operation: Uuid, caller: Caller) returns (error: Option<Error>)
      requires Inv()
      modifies this, platform
      ensures Inv() && Step(old(Viewed()), Viewed())
      ensures old(leaseLog) <= leaseLog && old(armed) <= armed && old(spent) <= spent
      ensures transactions == old(transactions) && spent == old(spent) && armed == old(armed)
      ensures error.None? && old(journal.operationKind) == Some(Tunnel) ==>
                !Has(journal.steps, SystemProxy) && journal.phase == Active
      ensures error.None? && old(journal.operationKind) != Some(Tunnel) ==> journal.phase == Clean && platform.os == {}
      ensures old(journal.operationKind) == Some(Tunnel) ==>
                recoveries == old(recoveries) && journal.phase == old(journal.phase)
    {
      hide Inv, Step, Steady, IsApplied, Has, ValidCaller, Verdict;
      ghost var a := Viewed();
      StepReflexive(a);
      error := EnsureOwner(journal, operation, caller);
      if error.Some? {
        return;
      }
      DiskBehind();
      if journal.operationKind == Some(Tunnel) {
        if journal.phase != Active {
          return Some(InvalidPhase(journal.phase));
        }
        var index := IndexOf(journal.steps, SystemProxy);
        if index.None? {
          return None;
        }
        error := RemoveProxy(index.value);
        SteadySteps(a, Viewed());
        return;
      }
      if journal.operationKind != Some(ProxyOnly) {
        return Some(WrongOperation);
      }
      error := Recover();
      VerdictSteady(policy, old(Now()), Now(), error.None?, a, Viewed());
      StepThenSteady(a, a, Viewed());
    }
  }

  /** A journal of the same transaction and plan carries the earlier one on. */
  lemma Carried(a: Journal, b: Journal)
    requires b == a.(steps := b.steps, phase := b.phase, generation := b.generation, ownerProcess := b.ownerProcess,
                     pauseDeadline := b.pauseDeadline)
    requires Working(b.phase) ==> Working(a.phase) && (IsApplied(a.steps, KillSwitch) ==> IsApplied(b.steps, KillSwitch))
    ensures Carries(a, b)
  {
  }

  /** Dropping a step keeps what the invariant says of all the others. */
  lemma DropCarries(j: Journal, os: set<Resource>, index: nat)
    requires Safe(j, os) && index < |j.steps| && j.phase != Clean
    requires Names(j.steps[index].receipt) !in os || j.steps[index].state == Restored
    requires j.steps[index].kind != KillSwitch && j.steps[index].kind != EndpointBypass
    ensures
      var fewer := j.(steps := Without(j.steps, index));
      && Safe(fewer, os) && Carries(j, fewer)
      && (Unrestored(j.steps, EndpointBypass) ==> Unrestored(fewer.steps, EndpointBypass))
      && (j.steps[index].kind != PacketSession && IsApplied(j.steps, PacketSession) ==>
            IsApplied(fewer.steps, PacketSession))
  {
    DropKeeps(j, os, index);
    KindsAfterDrop(j.steps, index);
    hide Safe, Without, IsApplied, Has, Unrestored, Names;
    Carried(j, j.(steps := Without(j.steps, index)));
  }

  /** A save, whether or not it reached the disk. */
  lemma ChronicledStore(
    moments: seq<Moment>, disk: Journal, j: Journal, saved: Journal, outcome: SaveOutcome, os: set<Resource>)
    requires Chronicled(moments, disk, j) && disk.generation <= j.generation && saved == Bumped(j)
    requires outcome == Saved ==> saved.generation > j.generation
    requires j.phase == Clean ==> disk.phase == Clean
    ensures
      var next := if outcome == Saved then saved else disk;
      Chronicled(moments + [Moment(next, os)], next, saved)
  {
    if outcome == Saved {
      ChronicledSave(moments, disk, j, saved, os);
    } else {
      CarriesReflexive(j);
      ChronicledMemory(moments, disk, j, saved);
      ChronicledMoment(moments, disk, saved, os);
    }
  }

  /** The adapters a recovery would act on, in order. */
  function PendingAdapters(steps: seq<Record>): seq<Receipt> {
    if steps == [] then []
    else
      var last := steps[|steps| - 1];
      PendingAdapters(steps[..|steps| - 1]) +
      if last.kind == WintunAdapter && last.state != Restored then [last.receipt] else []
  }

  /** They were asked about in order: all of them and each answered for, or up to
      the first that was not. */
  ghost predicate Answered(adapters: seq<Receipt>, questions: seq<Question>, known: bool) {
    && |questions| <= |adapters|
    && (forall i :: 0 <= i < |questions| ==> questions[i].AboutAdapter? && questions[i].receipt == adapters[i])
    && (forall i :: 0 <= i < |questions| - 1 ==> questions[i].present.Some?)
    && (known ==> |questions| == |adapters| && (questions != [] ==> questions[|questions| - 1].present.Some?))
    && (!known ==> questions != [] && questions[|questions| - 1].present.None?)
  }

  lemma {:induction false} PendingPrefix(steps: seq<Record>, i: nat)
    requires i <= |steps|
    ensures PendingAdapters(steps[..i]) <= PendingAdapters(steps)
    decreases |steps|
  {
    if i == |steps| {
      assert steps[..i] == steps;
    } else {
      PendingPrefix(steps[..|steps| - 1], i);
      assert steps[..|steps| - 1][..i] == steps[..i];
    }
  }

  lemma NothingPending()
    ensures Answered(PendingAdapters([]), [], true)
  {
  }

  lemma PendingNext(steps: seq<Record>, i: nat)
    requires i < |steps|
    ensures PendingAdapters(steps[..i + 1]) ==
              if steps[i].kind == WintunAdapter && steps[i].state != Restored
              then PendingAdapters(steps[..i]) + [steps[i].receipt]
              else PendingAdapters(steps[..i])
  {
    assert steps[..i + 1][..i] == steps[..i];
  }

  lemma AnsweredMore(adapters: seq<Receipt>, all: seq<Receipt>, questions: seq<Question>, receipt: Receipt, present: Option<bool>)
    requires Answered(adapters, questions, true) && adapters + [receipt] <= all
    ensures Answered(if present.Some? then adapters + [receipt] else all, questions + [AboutAdapter(receipt, present)], present.Some?)
  {
    var more := questions + [AboutAdapter(receipt, present)];
    assert forall i :: 0 <= i < |questions| ==> more[i] == questions[i];
    assert all[|adapters|] == (adapters + [receipt])[|adapters|];
    assert forall i :: 0 <= i < |adapters| ==> all[i] == (adapters + [receipt])[i];
  }

  lemma UnrestoredIsThere(steps: seq<Record>, kind: Kind)
    ensures Unrestored(steps, kind) ==> Has(steps, kind)
  {
  }

  lemma ProxyGrew(a: View, b: View)
    requires a.trail <= b.trail
    requires b.journal == a.journal.(steps := b.journal.steps, generation := b.journal.generation)
    requires |b.journal.steps| == |a.journal.steps| + 1 && b.journal.steps[..|a.journal.steps|] == a.journal.steps
    requires b.journal.steps[|a.journal.steps|].kind == SystemProxy
    requires b.journal.steps[|a.journal.steps|].state != Restored
    requires a.journal.generation <= b.journal.generation && a.disk.generation <= a.journal.generation
    requires b.disk == a.disk || b.disk.generation > a.journal.generation
    requires a.transactions == b.transactions && a.recoveries == b.recoveries
    ensures Steady(a, b)
  {
    GrewSteady(a, b, SystemProxy);
  }

  lemma ActivatedSteady(a: View, b: View)
    requires a.trail <= b.trail
    requires b.journal == a.journal.(steps := b.journal.steps, phase := Active, generation := b.journal.generation)
    requires a.journal.phase != Clean && a.journal.steps == []
    requires a.journal.generation <= b.journal.generation && a.disk.generation <= a.journal.generation
    requires b.disk == a.disk || b.disk.generation > a.journal.generation
    requires a.transactions == b.transactions && a.recoveries == b.recoveries
    ensures Steady(a, b)
  {
  }

  /** Settled dependencies leave the kill switch, the bypass and the session alone. */
  ghost predicate AdvancesWith(before: seq<Record>, after: seq<Record>) {
    && (IsApplied(before, KillSwitch) ==> IsApplied(after, KillSwitch))
    && (IsApplied(before, PacketSession) ==> IsApplied(after, PacketSession))
    && (Unrestored(before, EndpointBypass) ==> Unrestored(after, EndpointBypass))
  }

  lemma SettledKinds(before: seq<Record>, after: seq<Record>)
    requires |before| == |after|
    requires forall i :: 0 <= i < |before| && after[i] != before[i] ==>
               before[i].kind == InterfaceConfiguration || before[i].kind == Dns
    ensures AdvancesWith(before, after)
  {
    assert forall i :: 0 <= i < |before| ==>
        after[i] == before[i] || before[i].kind == InterfaceConfiguration || before[i].kind == Dns;
  }

  lemma ReconcileSteps(a: View, b: View, next: seq<Record>)
    requires a.trail <= b.trail
    requires a.journal.phase == RecoveryRequired && a.disk.generation <= a.journal.generation
    requires OnlyRestores(a.journal.steps, next) && AdvancesWith(a.journal.steps, next)
    requires a.transactions == b.transactions && a.recoveries == b.recoveries
    requires || (b.journal == a.journal && b.disk == a.disk)
             || (b.disk == b.journal && b.journal.generation == a.journal.generation + 1 &&
                 (|| (b.journal.phase == Clean && AllRestored(next))
                  || b.journal == a.journal.(steps := next, generation := b.journal.generation)))
    ensures Step(a, b)
  {
  }

  lemma AbsentSteps(a: View, b: View)
    requires a.trail <= b.trail
    requires a.journal.phase == RecoveryRequired && a.disk.generation <= a.journal.generation
    requires !IsApplied(a.journal.steps, KillSwitch)
    requires a.transactions == b.transactions && a.recoveries == b.recoveries
    requires || (b.journal == a.journal && b.disk == a.disk)
             || (b.disk == b.journal == CleanJournal(a.journal.generation + 1))
    ensures Step(a, b)
  {
  }

  /** Everything an active tunnel stands on. */
  ghost predicate Routed(j: Journal) {
    && IsApplied(j.steps, WintunAdapter) && IsApplied(j.steps, EndpointBypass)
    && IsApplied(j.steps, InterfaceConfiguration) && IsApplied(j.steps, Dns)
    && IsApplied(j.steps, PacketSession) && IsApplied(j.steps, DefaultRoutes)
    && (j.plan.Some? && (j.plan.value.killSwitch || j.plan.value.vpnChain) ==> IsApplied(j.steps, KillSwitch))
    && j.plan.Some? && !j.plan.value.deferred
  }

  lemma OnlyOfItsKind(steps: seq<Record>, index: nat)
    requires DistinctKinds(steps) && index < |steps| && steps[index].state == Restored
    ensures !Unrestored(steps, steps[index].kind)
  {
  }

  /** The step of this kind is applied and its resource is on the machine. */
  ghost predicate Present(steps: seq<Record>, kind: Kind, os: set<Resource>) {
    exists i :: 0 <= i < |steps| && steps[i].kind == kind && steps[i].state == Applied && Names(steps[i].receipt) in os
  }

  /** Nothing the steps of this kind name is on the machine. */
  ghost predicate Gone(steps: seq<Record>, kind: Kind, os: set<Resource>) {
    forall i :: 0 <= i < |steps| && steps[i].kind == kind ==> Names(steps[i].receipt) !in os
  }

  /** A kind that routing the tunnel still has to apply. */
  predicate Added(steps: seq<Record>, plan: Plan, kind: Kind) {
    !IsApplied(steps, kind) && (kind == DefaultRoutes || (kind == KillSwitch && (plan.killSwitch || plan.vpnChain)))
  }

  lemma LastPresent(steps: seq<Record>, os: set<Resource>)
    ensures steps != [] && steps[|steps| - 1].state == Applied && Names(steps[|steps| - 1].receipt) in os ==>
              Present(steps, steps[|steps| - 1].kind, os)
  {
  }

  lemma GrewPresent(a: Journal, b: Journal, kind: Kind, before: set<Resource>, after: set<Resource>)
    requires Grew(a, b, kind) && before <= after
    ensures forall k :: Present(a.steps, k, before) ==> Present(b.steps, k, after)
  {
    forall k | Present(a.steps, k, before)
      ensures Present(b.steps, k, after)
    {
      var i :| 0 <= i < |a.steps| && a.steps[i].kind == k && a.steps[i].state == Applied && Names(a.steps[i].receipt) in before;
      assert b.steps[i] == a.steps[i];
    }
  }

  /** The machine holds nothing of a step recorded as restored: whatever it holds
      belongs to a step that is not, and each kind has one step. */
  lemma RestoredIsGone(j: Journal, os: set<Resource>, index: nat)
    requires Safe(j, os) && index < |j.steps| && DistinctKinds(j.steps) && Matching(j.steps)
    ensures j.steps[index].state == Restored ==> Names(j.steps[index].receipt) !in os
  {
  }

  lemma NoneGone(steps: seq<Record>, kind: Kind, os: set<Resource>)
    requires !Has(steps, kind)
    ensures Gone(steps, kind, os)
  {
  }

  lemma KindGone(steps: seq<Record>, index: nat, os: set<Resource>)
    requires DistinctKinds(steps) && index < |steps| && Names(steps[index].receipt) !in os
    ensures Gone(steps, steps[index].kind, os)
  {
  }

  lemma GoneAt(steps: seq<Record>, index: nat, os: set<Resource>)
    requires index < |steps| && Gone(steps, steps[index].kind, os)
    ensures Names(steps[index].receipt) !in os
  {
  }

  lemma LastApplied(steps: seq<Record>)
    ensures steps != [] && steps[|steps| - 1].state == Applied ==> IsApplied(steps, steps[|steps| - 1].kind)
  {
  }

  lemma AppliedAt(steps: seq<Record>, index: nat)
    requires index < |steps| && steps[index].state == Applied
    ensures IsApplied(steps, steps[index].kind)
  {
  }

  /** Attaching or detaching a session changes nothing that a step relates. */
  lemma AttachSteps(a: View, b: View, c: View)
    requires Step(a, b) && c == b.(attached := c.attached)
    ensures Step(a, c)
  {
  }

  lemma SavedSteps(a: View, b: View)
    requires a.trail <= b.trail
    requires b.journal == a.journal.(generation := b.journal.generation)
    requires a.journal.generation <= b.journal.generation && a.disk.generation <= a.journal.generation
    requires b.disk == a.disk || b.disk.generation > a.journal.generation
    requires a.transactions == b.transactions && a.recoveries == b.recoveries
    ensures Step(a, b)
  {
  }

  lemma PrepareKindsFacts(j: Journal, plan: Plan)
    ensures EndpointBypass in PrepareKinds(plan) && Routable(j, PrepareKinds(plan))
  {
    var kinds := PrepareKinds(plan);
    assert kinds[1] == EndpointBypass || kinds[2] == EndpointBypass;
  }

  lemma NotRouting(j: Journal, kind: Kind)
    requires kind != DefaultRoutes
    ensures MayRoute(j, kind)
  {
  }

  lemma GrewKeeps(a: Journal, b: Journal, kind: Kind)
    requires Grew(a, b, kind)
    ensures b == a.(steps := b.steps, generation := b.generation)
  {
  }

  /** Default routes may join a protected plan only under an applied kill switch. */
  ghost predicate MayRoute(j: Journal, kind: Kind) {
    kind == DefaultRoutes && j.plan.Some? && j.plan.value.killSwitch ==> IsApplied(j.steps, KillSwitch)
  }

  /** The kill switch is in place, or comes first, wherever the plan wants it. */
  ghost predicate Routable(j: Journal, kinds: seq<Kind>) {
    forall i :: 0 <= i < |kinds| && kinds[i] == DefaultRoutes && j.plan.Some? && j.plan.value.killSwitch ==>
      IsApplied(j.steps, KillSwitch) || KillSwitch in kinds[..i]
  }

  lemma RoutableNext(before: Journal, j: Journal, kinds: seq<Kind>, i: nat)
    requires Routable(before, kinds) && i < |kinds| && j.plan == before.plan
    requires IsApplied(before.steps, KillSwitch) || KillSwitch in kinds[..i] ==> IsApplied(j.steps, KillSwitch)
    ensures MayRoute(j, kinds[i])
  {
  }

  lemma SessionStaysApplied(steps: seq<Record>, index: nat)
    requires index < |steps|
    ensures forall k :: k != steps[index].kind && IsApplied(steps, k) ==> IsApplied(MarkRestored(steps, index), k)
  {
    forall k | k != steps[index].kind && IsApplied(steps, k) ensures IsApplied(MarkRestored(steps, index), k) {
      var i :| 0 <= i < |steps| && steps[i].kind == k && steps[i].state == Applied;
      assert MarkRestored(steps, index)[i] == steps[i];
    }
  }
}
