/**
  What a journal promises about the machine it describes, and how the edits the
  coordinator makes to the step list keep those promises.
*/
module Safety {
  import opened Wrappers
  import opened Journals

  predicate Working(phase: Phase) {
    phase == Preparing || phase == Prepared || phase == Active
  }

  predicate Has(steps: seq<Record>, kind: Kind) {
    exists i :: 0 <= i < |steps| && steps[i].kind == kind
  }

  predicate IsApplied(steps: seq<Record>, kind: Kind) {
    exists i :: 0 <= i < |steps| && steps[i].kind == kind && steps[i].state == Applied
  }

  predicate Unrestored(steps: seq<Record>, kind: Kind) {
    exists i :: 0 <= i < |steps| && steps[i].kind == kind && steps[i].state != Restored
  }

  predicate AllRestored(steps: seq<Record>) {
    forall i :: 0 <= i < |steps| ==> steps[i].state == Restored
  }

  /** Some step that recovery will still act on names the resource. */
  ghost predicate Answers(steps: seq<Record>, resource: Resource) {
    exists i :: 0 <= i < |steps| && steps[i].state != Restored && Names(steps[i].receipt) == resource
  }

  ghost predicate Covers(steps: seq<Record>, os: set<Resource>) {
    forall r :: r in os ==> Answers(steps, r)
  }

  /** Once an adapter is recorded as Restored nothing that lived on it is left. */
  ghost predicate Settled(steps: seq<Record>, os: set<Resource>) {
    forall i :: 0 <= i < |steps| && steps[i].receipt.AdapterReceipt? && steps[i].state == Restored ==>
      InterfaceState(steps[i].receipt.luid) !in os && DnsState(steps[i].receipt.guid) !in os
  }

  /** Outside recovery a tunnel that asked for the kill switch has default routes
      only under an applied kill switch. */
  ghost predicate Protected(j: Journal) {
    Working(j.phase) && j.plan.Some? && j.plan.value.killSwitch && Has(j.steps, DefaultRoutes) ==>
      IsApplied(j.steps, KillSwitch)
  }

  ghost predicate Coherent(j: Journal) {
    && Matching(j.steps) && DistinctKinds(j.steps)
    && (j.phase == Clean ==> j == CleanJournal(j.generation))
    && (j.phase != Clean ==> j.operation.Some? && j.operationKind.Some?)
    && (Working(j.phase) ==>
          forall i :: 0 <= i < |j.steps| && j.steps[i].receipt.AdapterReceipt? ==> j.steps[i].state != Restored)
    && (j.operationKind == Some(Tunnel) && (j.phase == Prepared || j.phase == Active) ==>
          Unrestored(j.steps, EndpointBypass))
    && Protected(j)
  }

  ghost predicate Safe(j: Journal, os: set<Resource>) {
    Coherent(j) && Covers(j.steps, os) && Settled(j.steps, os)
  }

  /** A clean journal that is safe describes a machine with nothing left on it. */
  lemma CleanMeansEmpty(j: Journal, os: set<Resource>)
    requires Safe(j, os)
    requires AllRestored(j.steps)
    ensures os == {}
  {
    if r :| r in os {
      assert false;
    }
  }

  lemma CleanIsSafe(policy: Policy, generation: nat)
    ensures Safe(CleanJournal(generation), {}) && Accepted(policy, CleanJournal(generation))
  {
  }

  lemma SafeShrinks(j: Journal, os: set<Resource>, os': set<Resource>)
    requires Safe(j, os) && os' <= os
    ensures Safe(j, os')
  {
  }

  /** Outside the working phases the tunnel-specific promises fall away. */
  lemma SafeRetired(j: Journal, os: set<Resource>, phase: Phase, deadline: Option<int>)
    requires Safe(j, os) && j.phase != Clean && !Working(phase) && phase != Clean
    ensures Safe(j.(phase := phase, pauseDeadline := deadline), os)
  {
  }

  lemma SafeAnyGeneration(j: Journal, os: set<Resource>, generation: nat)
    requires Safe(j, os)
    ensures Safe(j.(generation := generation), os)
  {
  }

  /** The beginning of a transaction on a machine with nothing on it. */
  lemma SafeBeginning(j: Journal)
    requires j.phase == Preparing && j.steps == [] && j.operation.Some? && j.operationKind.Some?
    ensures Safe(j, {})
  {
  }

  lemma SafePrepared(j: Journal, os: set<Resource>)
    requires Safe(j, os) && Working(j.phase) && Unrestored(j.steps, EndpointBypass)
    ensures Safe(j.(phase := Prepared), os) && Safe(j.(phase := Active), os)
  {
  }

  lemma SafeOwned(j: Journal, os: set<Resource>, process: nat)
    requires Safe(j, os) && j.phase != Clean
    ensures Safe(j.(ownerProcess := Some(process)), os)
  {
  }

  lemma SafeReplanned(j: Journal, os: set<Resource>, plan: Plan, phase: Phase)
    requires Safe(j, os) && j.plan.Some? && j.plan.value.killSwitch == plan.killSwitch
    requires j.operationKind == Some(Tunnel) && (j.phase == Prepared || j.phase == Active)
    requires phase == Prepared || phase == Active
    ensures Safe(j.(plan := Some(plan), phase := phase), os)
  {
  }

  /** An unrestored session step already answers for the session it may recreate. */
  lemma SafeResumed(j: Journal, os: set<Resource>, index: nat)
    requires Safe(j, os) && index < |j.steps| && j.steps[index].state != Restored
    requires j.steps[index].receipt.SessionReceipt?
    ensures Safe(j, os + {Names(j.steps[index].receipt)})
  {
    forall r | r in os + {Names(j.steps[index].receipt)} ensures Answers(j.steps, r) {
    }
  }

  lemma SafeProxyActive(j: Journal, os: set<Resource>)
    requires Safe(j, os) && Working(j.phase) && j.operationKind == Some(ProxyOnly) && j.plan.None?
    ensures Safe(j.(phase := Active), os)
  {
  }

  /** With only a vanished adapter unresolved, nothing is left on the machine. */
  lemma OnlyAdapterLeft(j: Journal, os: set<Resource>, index: nat)
    requires Safe(j, os) && index < |j.steps|
    requires forall i :: 0 <= i < |j.steps| && i != index ==> j.steps[i].state == Restored
    requires Destroyed(j.steps[index].receipt) !! os
    ensures os == {}
  {
    if r :| r in os {
      assert false;
    }
  }

  lemma AppliedIsUnrestored(steps: seq<Record>, kind: Kind)
    requires IsApplied(steps, kind)
    ensures Unrestored(steps, kind) && Has(steps, kind)
  {
  }

  lemma HasTail(steps: seq<Record>, kind: Kind)
    requires steps != [] && steps[0].kind != kind
    ensures Has(steps, kind) <==> Has(steps[1..], kind)
  {
    if Has(steps, kind) {
      var i :| 0 <= i < |steps| && steps[i].kind == kind;
      assert steps[1..][i - 1].kind == kind;
    }
  }

  /** The position of the first step of a kind. */
  function IndexOf(steps: seq<Record>, kind: Kind): (index: Option<nat>)
    ensures index.None? <==> !Has(steps, kind)
    ensures index.Some? ==> index.value < |steps| && steps[index.value].kind == kind
  {
    if steps == [] then None
    else if steps[0].kind == kind then Some(0)
    else
      assert forall i :: 1 <= i < |steps| ==> steps[i] == steps[1..][i - 1];
      assert Has(steps, kind) <==> Has(steps[1..], kind) by { HasTail(steps, kind); }
      match IndexOf(steps[1..], kind)
      case None => None
      case Some(i) => Some(i + 1)
  }

  // ---------------------------------------------------------- step-list edits

  function MarkRestored(steps: seq<Record>, index: nat): seq<Record>
    requires index < |steps|
  {
    steps[index := steps[index].(state := Restored)]
  }

  function Without(steps: seq<Record>, index: nat): seq<Record>
    requires index < |steps|
  {
    steps[..index] + steps[index + 1..]
  }

  lemma PushKeeps(j: Journal, os: set<Resource>, record: Record)
    requires Safe(j, os) && j.phase != Clean
    requires record.kind == record.receipt.Kind() && record.state != Restored
    requires !Has(j.steps, record.kind)
    requires record.kind == DefaultRoutes && j.plan.Some? && j.plan.value.killSwitch ==>
               IsApplied(j.steps, KillSwitch)
    requires Working(j.phase)
    ensures Safe(j.(steps := j.steps + [record]), os)
    ensures Safe(j.(steps := j.steps + [record]), os + {Names(record.receipt)})
  {
    var steps := j.steps + [record];
    var last := |j.steps|;
    assert steps[last] == record;
    assert forall i :: 0 <= i < last ==> steps[i] == j.steps[i];
    forall r | r in os + {Names(record.receipt)}
      ensures Answers(steps, r)
    {
      if r in os {
        var i :| 0 <= i < last && j.steps[i].state != Restored && Names(j.steps[i].receipt) == r;
        assert steps[i].state != Restored;
      }
    }
    KindsAfterPush(j.steps, record);
  }

  lemma KindsAfterPush(steps: seq<Record>, record: Record)
    ensures forall k :: Has(steps + [record], k) <==> Has(steps, k) || k == record.kind
    ensures forall k :: IsApplied(steps, k) ==> IsApplied(steps + [record], k)
    ensures forall k :: Unrestored(steps, k) ==> Unrestored(steps + [record], k)
    ensures record.state == Applied ==> IsApplied(steps + [record], record.kind)
  {
    var steps' := steps + [record];
    assert steps'[|steps|] == record;
    assert forall i :: 0 <= i < |steps| ==> steps'[i] == steps[i];
    forall k | Has(steps, k) ensures Has(steps', k) {
      var i :| 0 <= i < |steps| && steps[i].kind == k;
      assert steps'[i].kind == k;
    }
    forall k | IsApplied(steps, k) ensures IsApplied(steps', k) {
      var i :| 0 <= i < |steps| && steps[i].kind == k && steps[i].state == Applied;
      assert steps'[i].kind == k;
    }
    forall k | Unrestored(steps, k) ensures Unrestored(steps', k) {
      var i :| 0 <= i < |steps| && steps[i].kind == k && steps[i].state != Restored;
      assert steps'[i].kind == k;
    }
  }

  /** Replacing a receipt by one for the same resource, and perhaps advancing
      its state to Applied, keeps the journal safe. */
  lemma EnrichKeeps(j: Journal, os: set<Resource>, index: nat, record: Record)
    requires Safe(j, os) && index < |j.steps|
    requires record.kind == j.steps[index].kind && record.receipt.Kind() == record.kind
    requires Names(record.receipt) == Names(j.steps[index].receipt)
    requires j.steps[index].state == Intended && record.state != Restored
    ensures Safe(j.(steps := j.steps[index := record]), os)
    ensures forall k :: Has(j.steps[index := record], k) <==> Has(j.steps, k)
    ensures forall k :: IsApplied(j.steps, k) ==> IsApplied(j.steps[index := record], k)
    ensures forall k :: Unrestored(j.steps, k) ==> Unrestored(j.steps[index := record], k)
  {
    var steps := j.steps[index := record];
    assert steps[index] == record;
    assert forall i :: 0 <= i < |steps| && i != index ==> steps[i] == j.steps[i];
    forall r | r in os
      ensures Answers(steps, r)
    {
      var i :| 0 <= i < |j.steps| && j.steps[i].state != Restored && Names(j.steps[i].receipt) == r;
      assert steps[i].state != Restored;
    }
    forall k | IsApplied(j.steps, k) ensures IsApplied(steps, k) {
      var i :| 0 <= i < |j.steps| && j.steps[i].kind == k && j.steps[i].state == Applied;
      assert steps[i].kind == k;
    }
    forall k | Unrestored(j.steps, k) ensures Unrestored(steps, k) {
      var i :| 0 <= i < |j.steps| && j.steps[i].kind == k && j.steps[i].state != Restored;
      assert steps[i].kind == k;
    }
    KindsUnchanged(j.steps, steps);
  }

  lemma KindsUnchanged(steps: seq<Record>, steps': seq<Record>)
    requires |steps| == |steps'|
    requires forall i :: 0 <= i < |steps| ==> steps[i].kind == steps'[i].kind
    ensures forall k :: Has(steps, k) <==> Has(steps', k)
  {
    forall k | Has(steps, k) ensures Has(steps', k) {
      var i :| 0 <= i < |steps| && steps[i].kind == k;
      assert steps'[i].kind == k;
    }
    forall k | Has(steps', k) ensures Has(steps, k) {
      var i :| 0 <= i < |steps'| && steps'[i].kind == k;
      assert steps[i].kind == k;
    }
  }

  /** A step may be marked Restored during recovery once its resource, and for
      an adapter everything on it, is gone. */
  lemma MarkKeeps(j: Journal, os: set<Resource>, index: nat)
    requires Safe(j, os) && index < |j.steps|
    requires !Working(j.phase) && j.phase != Clean
    requires Destroyed(j.steps[index].receipt) !! os
    ensures Safe(j.(steps := MarkRestored(j.steps, index)), os)
  {
    var steps := MarkRestored(j.steps, index);
    assert forall i :: 0 <= i < |steps| && i != index ==> steps[i] == j.steps[i];
    forall r | r in os
      ensures Answers(steps, r)
    {
      var i :| 0 <= i < |j.steps| && j.steps[i].state != Restored && Names(j.steps[i].receipt) == r;
      assert i != index;
      assert steps[i].state != Restored;
    }
  }

  /** A step may be dropped once its resource is gone. */
  lemma DropKeeps(j: Journal, os: set<Resource>, index: nat)
    requires Safe(j, os) && index < |j.steps|
    requires Names(j.steps[index].receipt) !in os || j.steps[index].state == Restored
    requires j.steps[index].kind != KillSwitch && j.steps[index].kind != EndpointBypass
    requires j.phase != Clean
    ensures Safe(j.(steps := Without(j.steps, index)), os)
    ensures forall k :: Has(Without(j.steps, index), k) <==> Has(j.steps, k) && k != j.steps[index].kind
    ensures forall k :: k != j.steps[index].kind && IsApplied(j.steps, k) ==> IsApplied(Without(j.steps, index), k)
  {
    forall r | r in os
      ensures Answers(Without(j.steps, index), r)
    {
      AnswersAfterDrop(j.steps, index, r);
    }
    KindsAfterDrop(j.steps, index);
    hide Without, Names, Answers;
  }

  lemma AnswersAfterDrop(steps: seq<Record>, index: nat, r: Resource)
    requires index < |steps| && Answers(steps, r)
    requires Names(steps[index].receipt) != r || steps[index].state == Restored
    ensures Answers(Without(steps, index), r)
  {
    var i :| 0 <= i < |steps| && steps[i].state != Restored && Names(steps[i].receipt) == r;
    assert Without(steps, index)[if i < index then i else i - 1] == steps[i];
  }

  lemma KindsAfterDrop(steps: seq<Record>, index: nat)
    requires index < |steps| && DistinctKinds(steps)
    ensures DistinctKinds(Without(steps, index))
    ensures forall k :: Has(Without(steps, index), k) <==> Has(steps, k) && k != steps[index].kind
    ensures forall k :: k != steps[index].kind && IsApplied(steps, k) ==> IsApplied(Without(steps, index), k)
    ensures forall k :: k != steps[index].kind && Unrestored(steps, k) ==> Unrestored(Without(steps, index), k)
  {
    var steps' := Without(steps, index);
    assert forall i :: 0 <= i < index ==> steps'[i] == steps[i];
    assert forall i :: index <= i < |steps'| ==> steps'[i] == steps[i + 1];
    forall k | Has(steps, k) && k != steps[index].kind ensures Has(steps', k) {
      var i :| 0 <= i < |steps| && steps[i].kind == k;
      assert steps'[if i < index then i else i - 1] == steps[i];
    }
    forall k | Has(steps', k) ensures Has(steps, k) && k != steps[index].kind {
      var i :| 0 <= i < |steps'| && steps'[i].kind == k;
      assert steps[if i < index then i else i + 1] == steps'[i];
    }
    forall k | k != steps[index].kind && IsApplied(steps, k) ensures IsApplied(steps', k) {
      var i :| 0 <= i < |steps| && steps[i].kind == k && steps[i].state == Applied;
      assert steps'[if i < index then i else i - 1] == steps[i];
    }
    forall k | k != steps[index].kind && Unrestored(steps, k) ensures Unrestored(steps', k) {
      var i :| 0 <= i < |steps| && steps[i].kind == k && steps[i].state != Restored;
      assert steps'[if i < index then i else i - 1] == steps[i];
    }
  }
}
