/**
  Whole lives of the Agent: any sequence of requests, in any order and from any
  callers, served by processes that may each die at any moment.
*/
module Lifetimes {
  import opened Wrappers
  import opened Journals
  import opened Safety
  import opened Platforms
  import opened Runs
  import opened Leases
  import opened Coordinators

  datatype Request =
    | PrepareTunnel(operation: Uuid, plan: Plan, caller: Caller)
    | BeginChainTransition(operation: Uuid, caller: Caller)
    | FinalizeTunnel(operation: Uuid, plan: Plan, caller: Caller)
    | OpenPacketSession(operation: Uuid, capacity: nat, caller: Caller)
    | ClosePacketSession(operation: Uuid, caller: Caller)
    | ResumeTunnel(operation: Uuid, profile: Uuid, caller: Caller)
    | AcquireTunnelLease(operation: Uuid, caller: Caller)
    | ReleaseStartupLease(operation: Uuid, caller: Caller)
    | ReleaseTunnelLease(operation: Uuid, caller: Caller)
    | Watchdog(startup: bool, operation: Uuid, epoch: nat)
    | CommitTunnel(operation: Uuid, caller: Caller)
    | RollbackTunnel(operation: Uuid, caller: Caller)
    | RecoverAnything
    | Retry(operation: Uuid, generation: nat, user: Option<Caller>)
    | Inspect
    | ReconcileAtStartup
    | ReconcileOnRetry(operation: Uuid, generation: nat, caller: Caller)
    | SetProxy(operation: Uuid, caller: Caller)
    | ClearProxy(operation: Uuid, caller: Caller)

  method Handle(agent: Coordinator, request: Request)
    requires agent.Inv()
    modifies agent, agent.platform
    ensures agent.Inv() && Step(old(agent.Viewed()), agent.Viewed())
    ensures old(agent.leaseLog) <= agent.leaseLog && old(agent.armed) <= agent.armed && old(agent.spent) <= agent.spent
  {
    hide *;
    match request
    case PrepareTunnel(operation, plan, caller) => var _ := agent.Prepare(operation, plan, caller);
    case BeginChainTransition(operation, caller) => var _ := agent.BeginChain(operation, caller);
    case FinalizeTunnel(operation, plan, caller) => var _ := agent.Finalize(operation, plan, caller);
    case OpenPacketSession(operation, capacity, caller) => var _ := agent.OpenSession(operation, capacity, caller);
    case ClosePacketSession(operation, caller) => var _ := agent.CloseSession(operation, caller);
    case ResumeTunnel(operation, profile, caller) => var _ := agent.Resume(operation, profile, caller);
    case AcquireTunnelLease(operation, caller) => var _ := agent.AcquireLease(operation, caller);
    case ReleaseStartupLease(operation, caller) => var _ := agent.ReleaseStartup(operation, caller);
    case ReleaseTunnelLease(operation, caller) => var _ := agent.ReleaseLease(operation, caller);
    case Watchdog(startup, operation, epoch) => var _ := agent.RecoverOrphan(startup, operation, epoch);
    case CommitTunnel(operation, caller) => var _ := agent.Commit(operation, caller);
    case RollbackTunnel(operation, caller) => var _ := agent.Rollback(operation, caller);
    case RecoverAnything => var _ := agent.RecoverStale();
    case Retry(operation, generation, user) => var _, _ := agent.RecoverGuarded(operation, generation, user);
    case Inspect => var _ := agent.InspectStartup();
    case ReconcileAtStartup => var _ := agent.ReconcileRemoved();
    case ReconcileOnRetry(operation, generation, caller) =>
      var _, _ := agent.ReconcileAbsent(operation, generation, caller);
    case SetProxy(operation, caller) => var _ := agent.ApplySystemProxy(operation, caller);
    case ClearProxy(operation, caller) => var _ := agent.RestoreSystemProxy(operation, caller);
  }

  /** One process serves any requests; its views form a run. */
  method Serve(agent: Coordinator, requests: seq<Request>) returns (ghost views: seq<View>)
    requires agent.Inv()
    modifies agent, agent.platform
    ensures agent.Inv() && Run(views) && |views| == |requests| + 1
    ensures views[0] == old(agent.Viewed()) && views[|requests|] == agent.Viewed()
    ensures old(agent.leaseLog) <= agent.leaseLog && old(agent.armed) <= agent.armed && old(agent.spent) <= agent.spent
  {
    hide Coordinator.Inv, Step;
    views := [agent.Viewed()];
    for i := 0 to |requests|
      invariant agent.Inv() && Run(views) && |views| == i + 1
      invariant views[0] == old(agent.Viewed()) && views[i] == agent.Viewed()
      invariant old(agent.leaseLog) <= agent.leaseLog && old(agent.armed) <= agent.armed && old(agent.spent) <= agent.spent
    {
      Handle(agent, requests[i]);
      views := views + [agent.Viewed()];
    }
  }

  /**
    A watchdog over whole runs. It was armed at `token.at`; any requests may be
    served before it goes off and again before it goes off once more. It recovers
    only if, less than a full wrap of the epoch after it was armed, nothing at all
    happened to the lease: no lease acquired or released, no unleased chain
    transition begun, no recovery run, and no other transaction begun. So within
    one wrap it recovers at most once.
  */
  method Watch(agent: Coordinator, ghost token: Token, startup: bool, operation: Uuid, epoch: nat,
               requests: seq<Request>, more: seq<Request>)
    returns (first: Result<bool, Error>, second: Result<bool, Error>, ghost early: seq<LeaseEvent>, ghost late: seq<LeaseEvent>)
    requires agent.Inv() && token in agent.armed && token.at <= |agent.leaseLog|
    requires token.operation == operation && epoch == Epoch(agent.leaseLog[..token.at])
    modifies agent, agent.platform
    ensures agent.Inv() && old(agent.leaseLog) <= early <= late <= agent.leaseLog
    ensures first != Ok(false) && |early| < token.at + EPOCHS ==>
              && early == old(agent.leaseLog) && token.at == |early|
              && token.transaction == old(agent.transactions)
    ensures second != Ok(false) && |late| < token.at + EPOCHS ==>
              && first == Ok(false) && late == old(agent.leaseLog) && token.at == |late|
              && token.transaction == old(agent.transactions)
    ensures first != Ok(false) && second != Ok(false) ==> |late| >= token.at + EPOCHS
  {
    if token.at == |agent.leaseLog| {
      TokenIsCurrent(agent, token);
    }
    hide Coordinator.Inv, Step, Run, Epoch;
    var _ := Serve(agent, requests);
    early := agent.leaseLog;
    Prefix(old(agent.leaseLog), early, token.at);
    first := agent.RecoverOrphan(startup, operation, epoch);
    ghost var middle := agent.leaseLog;
    Prefix(early, middle, token.at);
    var _ := Serve(agent, more);
    late := agent.leaseLog;
    Prefix(middle, late, token.at);
    second := agent.RecoverOrphan(startup, operation, epoch);
  }

  lemma TokenIsCurrent(agent: Coordinator, token: Token)
    requires agent.Inv() && token in agent.armed && token.at == |agent.leaseLog|
    ensures token.transaction == agent.transactions
  {
  }

  /**
    Guarded retries over whole runs: of two that name the same operation and
    generation, with any requests served before and between them, at most one
    recovers, and the other touches nothing; the last generation is excepted.
  */
  method RetryTwice(agent: Coordinator, operation: Uuid, generation: nat, one: Option<Caller>, other: Option<Caller>,
                    requests: seq<Request>, more: seq<Request>)
    returns (ghost first: nat, ghost second: nat)
    requires agent.Inv() && generation < U64_MAX
    modifies agent, agent.platform
    ensures agent.Inv() && first + second <= 1
  {
    hide Coordinator.Inv, Step, Run;
    var _ := Serve(agent, requests);
    ghost var before := agent.recoveries;
    var _, _ := agent.RecoverGuarded(operation, generation, one);
    first := agent.recoveries - before;
    var _ := Serve(agent, more);
    before := agent.recoveries;
    ghost var acts := agent.platform.acts;
    var _, _ := agent.RecoverGuarded(operation, generation, other);
    second := agent.recoveries - before;
    assert second == 0 ==> agent.platform.acts == acts;
  }

  lemma Prefix(a: seq<LeaseEvent>, b: seq<LeaseEvent>, at: nat)
    requires a <= b && at <= |a|
    ensures a[..at] == b[..at]
  {
  }

  /** Every moment left every OS resource answered for by the durable journal,
      and that journal can be loaded again. */
  ghost predicate CrashSafe(policy: Policy, moments: seq<Moment>) {
    forall i :: 0 <= i < |moments| ==> Safe(moments[i].disk, moments[i].os) && Accepted(policy, moments[i].disk)
  }

  ghost predicate UpToDate(platform: Platform)
    reads platform
  {
    platform.moments != [] && platform.moments[|platform.moments| - 1] == Moment(platform.disk, platform.os)
  }

  /** One Agent process, from its start until it dies `dies` moments before the
      end of what it was asked to do. */
  method Live(platform: Platform, policy: Policy, requests: seq<Request>, dies: nat) returns (ghost views: seq<View>)
    requires CrashSafe(policy, platform.moments) && UpToDate(platform) && History(platform.moments)
    modifies platform
    ensures CrashSafe(policy, platform.moments) && UpToDate(platform) && History(platform.moments)
    ensures old(platform.moments) <= platform.moments
    ensures Run(views) && |views| == |requests| + 1 && views[0].journal == old(platform.disk)
  {
    var born := |platform.moments| - 1;
    assert Safe(platform.moments[born].disk, platform.moments[born].os);
    CarriesReflexive(platform.disk);
    var agent := new Coordinator.Open(platform, policy);
    views := Serve(agent, requests);
    RunAdvances(views, 0, |requests|);
    var last := |platform.moments| - 1;
    SafeShrinksAll(policy, platform.moments);
    Remembered(agent);
    var at := if dies <= last - born then last - dies else born;
    CutHistory(platform.moments, at);
    platform.Crash(at);
  }

  lemma Remembered(agent: Coordinator)
    requires agent.Inv()
    ensures History(agent.platform.moments)
  {
  }

  /** A life that ended early is a history too. */
  lemma CutHistory(moments: seq<Moment>, at: nat)
    requires History(moments) && at < |moments|
    ensures forall os :: History(moments[..at + 1] + [Moment(moments[at].disk, os)])
  {
    var cut := moments[..at + 1];
    assert History(cut) by {
      forall i | 0 < i < |cut| ensures Follows(cut[i - 1].disk, cut[i].disk) {
        assert cut[i - 1] == moments[i - 1] && cut[i] == moments[i];
      }
    }
    forall os ensures History(cut + [Moment(moments[at].disk, os)]) {
      HistoryGrows(cut, Moment(moments[at].disk, os));
    }
  }

  /** A crash may also take any of the process's resources with it. */
  lemma SafeShrinksAll(policy: Policy, moments: seq<Moment>)
    requires CrashSafe(policy, moments)
    ensures forall i, os :: 0 <= i < |moments| && os <= moments[i].os ==> Safe(moments[i].disk, os)
  {
    forall i, os | 0 <= i < |moments| && os <= moments[i].os ensures Safe(moments[i].disk, os) {
      SafeShrinks(moments[i].disk, moments[i].os, os);
    }
  }

  /**
    Whatever the requests, failures and crashes of any number of Agent lives,
    every moment was crash safe and every durable journal followed the one before
    it; and if the recovery run by a last process reports success, the machine is
    left with nothing of ours on it.
  */
  method Survive(platform: Platform, policy: Policy, lives: seq<(seq<Request>, nat)>) returns (error: Option<Error>)
    requires CrashSafe(policy, platform.moments) && UpToDate(platform) && History(platform.moments)
    modifies platform
    ensures CrashSafe(policy, platform.moments) && History(platform.moments)
    ensures old(platform.moments) <= platform.moments
    ensures error.None? ==> platform.os == {} && platform.disk.phase == Clean
  {
    hide Safe, Accepted, Run, History, Carries;
    for life := 0 to |lives|
      invariant CrashSafe(policy, platform.moments) && UpToDate(platform) && History(platform.moments)
      invariant old(platform.moments) <= platform.moments
    {
      var _ := Live(platform, policy, lives[life].0, lives[life].1);
    }
    ghost var now := |platform.moments| - 1;
    assert Safe(platform.moments[now].disk, platform.moments[now].os);
    CarriesReflexive(platform.disk);
    var agent := new Coordinator.Open(platform, policy);
    error := agent.RecoverStale();
    Remembered(agent);
  }
}
