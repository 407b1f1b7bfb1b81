/**
  What one coordinator call may change, and what follows for whole runs of one
  Agent process. A run is the sequence of views between consecutive calls.
*/
module Runs {
  import opened Wrappers
  import opened Journals
  import opened Safety
  import opened Platforms

  /** `trail` is every crashable moment so far; `transactions` counts begun
      transactions and `recoveries` begun recoveries. */
  datatype View = View(
    journal: Journal, disk: Journal, trail: seq<Moment>, attached: bool, transactions: nat, recoveries: nat)

  /** A plan may only settle its addresses, become a chain and stop deferring. */
  ghost predicate SamePolicy(p: Plan, q: Plan) {
    && q == p.(mtu := q.mtu, dnsServers := q.dnsServers, splitDns := q.splitDns, assignedIpv4 := q.assignedIpv4,
               assignedIpv6 := q.assignedIpv6, vpnChain := q.vpnChain, deferred := q.deferred)
    && (p.vpnChain ==> q.vpnChain)
    && (q.deferred ==> p.deferred)
  }

  ghost predicate SameTransaction(a: Journal, b: Journal) {
    && a.operation == b.operation && a.operationKind == b.operationKind && a.ownerSid == b.ownerSid
    && (a.plan.None? <==> b.plan.None?)
    && (a.plan.Some? && b.plan.Some? ==> SamePolicy(a.plan.value, b.plan.value))
  }

  /** What stays true over any number of calls. */
  ghost predicate Advances(a: View, b: View) {
    && a.journal.generation <= b.journal.generation && a.trail <= b.trail
    && (b.disk == a.disk || a.disk.generation < b.disk.generation)
    && a.transactions <= b.transactions && a.recoveries <= b.recoveries
    && (a.journal.phase == Clean && b.journal.phase != Clean ==> a.transactions < b.transactions)
    && (a.transactions == b.transactions && a.journal.phase != Clean && b.journal.phase != Clean ==>
          SameTransaction(a.journal, b.journal))
    && (a.transactions == b.transactions && a.recoveries == b.recoveries && IsApplied(a.journal.steps, KillSwitch) ==>
          IsApplied(b.journal.steps, KillSwitch))
  }

  /** One call: it advances, and hands a transaction to another process only
      while no packet session is attached. */
  ghost predicate Step(a: View, b: View) {
    && Advances(a, b)
    && (SameOwner(a, b) || !a.attached)
  }

  ghost predicate SameOwner(a: View, b: View) {
    a.transactions == b.transactions && a.journal.phase != Clean && b.journal.phase != Clean ==>
      a.journal.ownerProcess == b.journal.ownerProcess
  }

  /** A call, or part of one, that never hands the transaction over. */
  ghost predicate Steady(a: View, b: View) {
    Advances(a, b) && SameOwner(a, b)
  }

  ghost predicate Run(views: seq<View>) {
    forall i :: 0 < i < |views| ==> Step(views[i - 1], views[i])
  }

  lemma StepReflexive(a: View)
    ensures Step(a, a)
  {
  }

  lemma AdvancesTransitive(a: View, b: View, c: View)
    requires Advances(a, b) && Advances(b, c)
    ensures Advances(a, c)
  {
  }

  /**
    Over every run of one Agent process: generations never fall and each new
    durable journal has a larger one; within a transaction the owner, operation
    and policy never change, a chain stays a chain and deferral only ends; and an
    applied kill switch stays applied until a recovery begins.
  */
  lemma {:induction false} RunAdvances(views: seq<View>, i: nat, j: nat)
    requires Run(views) && i <= j < |views|
    ensures Advances(views[i], views[j])
    decreases j - i
  {
    if i < j {
      RunAdvances(views, i, j - 1);
      assert Step(views[j - 1], views[j]);
      AdvancesTransitive(views[i], views[j - 1], views[j]);
    } else {
      StepReflexive(views[i]);
    }
  }

  /** The owner process of a transaction changes only at a call that found no
      packet session attached. */
  lemma {:induction false} OwnerChangesDetached(views: seq<View>, i: nat, j: nat)
    requires Run(views) && i <= j < |views|
    requires views[i].transactions == views[j].transactions
    requires views[i].journal.phase != Clean && views[j].journal.phase != Clean
    requires views[i].journal.ownerProcess != views[j].journal.ownerProcess
    ensures exists k :: i <= k < j && !views[k].attached &&
              views[k].journal.ownerProcess != views[k + 1].journal.ownerProcess
    decreases j - i
  {
    RunAdvances(views, i, j - 1);
    assert Step(views[j - 1], views[j]);
    if views[i].journal.ownerProcess != views[j - 1].journal.ownerProcess {
      OwnerChangesDetached(views, i, j - 1);
    } else {
      assert !views[j - 1].attached;
      assert (j - 1) + 1 == j;
    }
  }

  // ---------------------------------------------------------- durable history

  /** What `b` keeps of an earlier journal `a` of the same machine: between two
      clean journals there is one transaction, which once in recovery stays
      there, and which keeps an applied kill switch as long as it is working. */
  ghost predicate Carries(a: Journal, b: Journal) {
    a.phase != Clean && b.phase != Clean ==>
      && SameTransaction(a, b)
      && (Working(b.phase) ==>
            Working(a.phase) && (IsApplied(a.steps, KillSwitch) ==> IsApplied(b.steps, KillSwitch)))
  }

  /** The durable journal `b` may be the next one after `a`. */
  ghost predicate Follows(a: Journal, b: Journal) {
    a == b || (a.generation < b.generation && Carries(a, b))
  }

  ghost predicate History(moments: seq<Moment>) {
    forall i :: 0 < i < |moments| ==> Follows(moments[i - 1].disk, moments[i].disk)
  }

  /** The recorded moments are the history of the disk, and memory carries it on. */
  ghost predicate Chronicled(moments: seq<Moment>, disk: Journal, j: Journal) {
    && moments != [] && moments[|moments| - 1].disk == disk
    && History(moments)
    && Carries(disk, j)
  }

  lemma CarriesReflexive(a: Journal)
    ensures Carries(a, a)
  {
  }

  lemma CarriesTransitive(a: Journal, b: Journal, c: Journal)
    requires Carries(a, b) && Carries(b, c) && (b.phase == Clean ==> a.phase == Clean || c.phase == Clean)
    ensures Carries(a, c)
  {
  }

  lemma HistoryGrows(moments: seq<Moment>, m: Moment)
    requires moments != [] && History(moments) && Follows(moments[|moments| - 1].disk, m.disk)
    ensures History(moments + [m])
  {
    hide Follows;
    var all := moments + [m];
    forall i | 0 < i < |all|
      ensures Follows(all[i - 1].disk, all[i].disk)
    {
      if i < |moments| {
        assert all[i - 1] == moments[i - 1] && all[i] == moments[i];
      } else {
        assert all[i - 1] == moments[|moments| - 1] && all[i] == m;
      }
    }
  }

  /** The machine moved, the disk did not. */
  lemma ChronicledMoment(moments: seq<Moment>, disk: Journal, j: Journal, os: set<Resource>)
    requires Chronicled(moments, disk, j)
    ensures Chronicled(moments + [Moment(disk, os)], disk, j)
  {
    HistoryGrows(moments, Moment(disk, os));
  }

  /** Memory moved on. */
  lemma ChronicledMemory(moments: seq<Moment>, disk: Journal, j: Journal, next: Journal)
    requires Chronicled(moments, disk, j) && Carries(j, next) && (j.phase == Clean ==> disk.phase == Clean)
    ensures Chronicled(moments, disk, next)
  {
    CarriesTransitive(disk, j, next);
  }

  /** A journal that memory carried, or any clean one, became durable. */
  lemma ChronicledSave(moments: seq<Moment>, disk: Journal, j: Journal, next: Journal, os: set<Resource>)
    requires Chronicled(moments, disk, j) && disk.generation < next.generation
    requires next == j.(generation := next.generation) || next.phase == Clean
    ensures Chronicled(moments + [Moment(next, os)], next, next)
  {
    HistoryGrows(moments, Moment(next, os));
  }

  /** Over all lives: the durable generations never fall, two moments of one
      generation have one journal, and what lies between clean journals is carried. */
  lemma {:induction false} HistoryAdvances(moments: seq<Moment>, i: nat, j: nat)
    requires History(moments) && i <= j < |moments|
    ensures moments[i].disk == moments[j].disk || moments[i].disk.generation < moments[j].disk.generation
    ensures (forall k :: i <= k <= j ==> moments[k].disk.phase != Clean) ==> Carries(moments[i].disk, moments[j].disk)
    decreases j - i
  {
    hide Carries;
    if i == j {
      CarriesReflexive(moments[i].disk);
    } else {
      HistoryAdvances(moments, i, j - 1);
      assert Follows(moments[j - 1].disk, moments[j].disk);
      if forall k :: i <= k <= j ==> moments[k].disk.phase != Clean {
        CarriesReflexive(moments[j].disk);
        CarriesTransitive(moments[i].disk, moments[j - 1].disk, moments[j].disk);
      }
    }
  }

  // -------------------------------------------------------- building one step

  /** At most one new unrestored step of the given kind, and newer generations. */
  ghost predicate Grew(a: Journal, b: Journal, kind: Kind) {
    && b == a.(steps := b.steps, generation := b.generation) && a.generation <= b.generation
    && (|| b.steps == a.steps
        || (&& |b.steps| == |a.steps| + 1 && b.steps[..|a.steps|] == a.steps
            && b.steps[|a.steps|].kind == kind && b.steps[|a.steps|].state != Restored))
  }

  lemma GrewFacts(a: Journal, b: Journal, kind: Kind)
    requires Grew(a, b, kind)
    ensures forall k :: IsApplied(a.steps, k) ==> IsApplied(b.steps, k)
    ensures forall k :: Unrestored(a.steps, k) ==> Unrestored(b.steps, k)
    ensures forall k :: Has(b.steps, k) ==> Has(a.steps, k) || k == kind
    ensures forall k :: Has(a.steps, k) ==> Has(b.steps, k)
    ensures forall k :: k != kind ==> (IsApplied(b.steps, k) ==> IsApplied(a.steps, k))
  {
    if b.steps != a.steps {
      KindsAfterPush(a.steps, b.steps[|a.steps|]);
      assert b.steps == a.steps + [b.steps[|a.steps|]];
    }
  }

  lemma SteadyTransitive(a: View, b: View, c: View)
    requires Steady(a, b) && Steady(b, c)
    ensures Steady(a, c)
  {
    AdvancesTransitive(a, b, c);
  }

  lemma GrewSteady(a: View, b: View, kind: Kind)
    requires a.trail <= b.trail
    requires Grew(a.journal, b.journal, kind) && a.disk.generation <= a.journal.generation
    requires b.disk == a.disk || b.disk.generation > a.journal.generation
    requires a.transactions == b.transactions && a.recoveries == b.recoveries
    ensures Steady(a, b)
  {
    GrewFacts(a.journal, b.journal, kind);
  }

  lemma SteadySteps(a: View, b: View)
    requires Steady(a, b)
    ensures Step(a, b)
  {
  }

  lemma BeginSteady(a: View, b: View)
    requires a.trail <= b.trail
    requires a.journal.phase == Clean && b.journal.phase != Clean && a.disk.generation <= a.journal.generation
    requires a.journal.generation <= b.journal.generation
    requires b.disk == a.disk || b.disk.generation > a.journal.generation
    requires a.transactions < b.transactions && a.recoveries == b.recoveries
    ensures Steady(a, b)
  {
  }

  /** A phase change with nothing else but newer generations. */
  lemma PhaseSteady(a: View, b: View)
    requires a.trail <= b.trail
    requires b.journal == a.journal.(phase := b.journal.phase, generation := b.journal.generation)
    requires a.journal.phase != Clean && b.journal.phase != Clean
    requires a.journal.generation <= b.journal.generation && a.disk.generation <= a.journal.generation
    requires b.disk == a.disk || b.disk.generation > a.journal.generation
    requires a.transactions == b.transactions && a.recoveries == b.recoveries
    ensures Steady(a, b)
  {
  }

  lemma StepThenSteady(a: View, b: View, c: View)
    requires Step(a, b) && Steady(b, c)
    ensures Step(a, c)
  {
    AdvancesTransitive(a, b, c);
  }

  /** A takeover: only the owner process changes, with no session attached. */
  lemma TakeOverSteps(a: View, b: View)
    requires a.trail <= b.trail
    requires b.journal == a.journal.(ownerProcess := b.journal.ownerProcess, generation := b.journal.generation)
    requires a.journal.generation <= b.journal.generation && a.disk.generation <= a.journal.generation
    requires b.disk == a.disk || b.disk.generation > a.journal.generation
    requires a.transactions == b.transactions && a.recoveries == b.recoveries && !a.attached
    ensures Step(a, b)
  {
  }

  lemma ReplanSteady(a: View, b: View)
    requires a.trail <= b.trail
    requires a.journal.plan.Some? && b.journal.plan.Some? && SamePolicy(a.journal.plan.value, b.journal.plan.value)
    requires b.journal ==
             a.journal.(phase := b.journal.phase, plan := b.journal.plan, generation := b.journal.generation)
    requires a.journal.phase != Clean && b.journal.phase != Clean
    requires a.journal.generation <= b.journal.generation && a.disk.generation <= a.journal.generation
    requires b.disk == a.disk || b.disk.generation > a.journal.generation
    requires a.transactions == b.transactions && a.recoveries == b.recoveries
    ensures Steady(a, b)
  {
  }

  lemma DropSteady(a: View, b: View, index: nat)
    requires a.trail <= b.trail
    requires index < |a.journal.steps| && DistinctKinds(a.journal.steps) && a.journal.steps[index].kind != KillSwitch
    requires b.journal == a.journal.(steps := Without(a.journal.steps, index), generation := b.journal.generation)
    requires a.journal.generation <= b.journal.generation && a.disk.generation <= a.journal.generation
    requires b.disk == a.disk || b.disk.generation > a.journal.generation
    requires a.transactions == b.transactions && a.recoveries == b.recoveries && a.journal.phase != Clean
    ensures Steady(a, b)
  {
    KindsAfterDrop(a.journal.steps, index);
  }

  lemma SteadyReflexive(a: View)
    ensures Steady(a, a)
  {
  }

  /** Only the machine moved on: more moments, the same journals. */
  lemma TrailSteps(a: View, b: View)
    requires b == a.(trail := b.trail) && a.trail <= b.trail
    ensures Step(a, b) && Steady(a, b)
  {
  }
}
