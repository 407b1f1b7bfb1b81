/**
  The recovery pass on values: the restore order, the adapter dependency rule,
  and what a pass may claim when it reports no failure.
*/
module Recovery {
  import opened Wrappers
  import opened Journals
  import opened Safety
  import opened Platforms
  import opened Runs

  datatype Failure = RestoreFailed(kind: Kind) | PersistFailed(during: Option<Kind>, outcome: SaveOutcome)

  /** Indices below `n` of the unrestored steps of one kind, in order. */
  function Ascending(steps: seq<Record>, kind: Kind, n: nat): (order: seq<nat>)
    requires n <= |steps|
    ensures forall k :: 0 <= k < |order| ==>
              order[k] < n && steps[order[k]].kind == kind && steps[order[k]].state != Restored
    ensures forall i :: 0 <= i < n && steps[i].kind == kind && steps[i].state != Restored ==> i in order
  {
    if n == 0 then []
    else Ascending(steps, kind, n - 1) +
         if steps[n - 1].kind == kind && steps[n - 1].state != Restored then [n - 1] else []
  }

  predicate Late(kind: Kind) {
    kind != PacketSession && kind != KillSwitch
  }

  /** Indices below `n` of the other unrestored steps, last first. */
  function Descending(steps: seq<Record>, n: nat): seq<nat>
    requires n <= |steps|
  {
    if n == 0 then []
    else if Lagging(steps, n - 1) then [n - 1] + Descending(steps, n - 1)
    else Descending(steps, n - 1)
  }

  predicate Lagging(steps: seq<Record>, i: nat)
    requires i < |steps|
  {
    Late(steps[i].kind) && steps[i].state != Restored
  }

  function RestoreOrder(steps: seq<Record>): seq<nat> {
    Ascending(steps, PacketSession, |steps|) + Ascending(steps, KillSwitch, |steps|) + Descending(steps, |steps|)
  }

  /** Exactly the lagging indices below `n`, each once, last first. */
  ghost predicate Falling(steps: seq<Record>, n: nat, order: seq<nat>)
    requires n <= |steps|
  {
    && (forall k :: 0 <= k < |order| ==> order[k] < n && Lagging(steps, order[k]))
    && (forall i :: 0 <= i < n && Lagging(steps, i) ==> i in order)
    && (forall a, b :: 0 <= a < b < |order| ==> order[a] > order[b])
  }

  lemma FallingFrom(steps: seq<Record>, n: nat, order: seq<nat>)
    requires 0 < n <= |steps| && Falling(steps, n - 1, order)
    ensures Falling(steps, n, if Lagging(steps, n - 1) then [n - 1] + order else order)
  {
    hide Lagging;
    if Lagging(steps, n - 1) {
      var more := [n - 1] + order;
      assert forall k :: 0 <= k < |order| ==> more[k + 1] == order[k];
      assert forall k :: 0 < k < |more| ==> more[k] == order[k - 1];
    }
  }

  lemma {:induction false} DescendingFalls(steps: seq<Record>, n: nat)
    requires n <= |steps|
    ensures Falling(steps, n, Descending(steps, n))
  {
    hide Falling, Lagging;
    if n == 0 {
      FallingAtFirst(steps);
    } else {
      DescendingFalls(steps, n - 1);
      FallingFrom(steps, n, Descending(steps, n - 1));
    }
  }

  lemma FallingAtFirst(steps: seq<Record>)
    ensures Falling(steps, 0, [])
  {
  }

  lemma {:induction false} AscendingIsSingle(steps: seq<Record>, kind: Kind, n: nat)
    requires n <= |steps| && DistinctKinds(steps)
    ensures |Ascending(steps, kind, n)| <= 1
  {
    if n > 0 {
      hide DistinctKinds;
      AscendingIsSingle(steps, kind, n - 1);
      var before := Ascending(steps, kind, n - 1);
      if before != [] {
        KindsDiffer(steps, before[0], n - 1);
      }
    }
  }

  lemma KindsDiffer(steps: seq<Record>, i: nat, j: nat)
    requires DistinctKinds(steps) && i < j < |steps|
    ensures steps[i].kind != steps[j].kind
  {
  }

  lemma SingleMeansUnrestored(steps: seq<Record>, kind: Kind)
    ensures Ascending(steps, kind, |steps|) != [] <==> Unrestored(steps, kind)
  {
    var order := Ascending(steps, kind, |steps|);
    if order != [] {
      assert steps[order[0]].kind == kind;
    }
  }

  ghost predicate Visits(steps: seq<Record>, order: seq<nat>) {
    && (forall k :: 0 <= k < |order| ==> order[k] < |steps| && steps[order[k]].state != Restored)
    && (forall i :: 0 <= i < |steps| && steps[i].state != Restored ==> i in order)
    && (forall a, b :: 0 <= a < b < |order| ==> order[a] != order[b])
  }

  ghost predicate QuietFirst(steps: seq<Record>, order: seq<nat>)
    requires Visits(steps, order)
  {
    var n := if Unrestored(steps, PacketSession) then 1 else 0;
    && (n == 1 ==> n <= |order| && steps[order[0]].kind == PacketSession)
    && (forall a :: n <= a < |order| ==> steps[order[a]].kind != PacketSession)
    && (Unrestored(steps, KillSwitch) ==> n < |order| && steps[order[n]].kind == KillSwitch)
    && (forall a, b :: 0 <= a < b < |order| && Late(steps[order[a]].kind) ==> order[a] > order[b])
  }

  /**
    The order visits every unrestored step exactly once: an unrestored packet
    session first, then an unrestored kill switch, then the rest from last to first.
  */
  lemma OrderIsComplete(steps: seq<Record>)
    requires DistinctKinds(steps)
    ensures Visits(steps, RestoreOrder(steps)) && QuietFirst(steps, RestoreOrder(steps))
  {
    hide Ascending, Descending, Falling, Single, Visits, QuietFirst, DistinctKinds;
    AscendingAsSingle(steps, PacketSession);
    AscendingAsSingle(steps, KillSwitch);
    DescendingFalls(steps, |steps|);
    Assembled(steps, Ascending(steps, PacketSession, |steps|), Ascending(steps, KillSwitch, |steps|),
              Descending(steps, |steps|));
  }

  lemma AscendingAsSingle(steps: seq<Record>, kind: Kind)
    requires DistinctKinds(steps)
    ensures Single(steps, kind, Ascending(steps, kind, |steps|))
  {
    AscendingIsSingle(steps, kind, |steps|);
    SingleMeansUnrestored(steps, kind);
    hide Ascending, Unrestored, DistinctKinds;
  }

  ghost predicate Single(steps: seq<Record>, kind: Kind, part: seq<nat>) {
    && |part| <= 1
    && (part == [] <==> !Unrestored(steps, kind))
    && (forall k :: 0 <= k < |part| ==>
          part[k] < |steps| && steps[part[k]].kind == kind && steps[part[k]].state != Restored)
    && (forall i :: 0 <= i < |steps| && steps[i].kind == kind && steps[i].state != Restored ==> i in part)
  }

  lemma Assembled(steps: seq<Record>, s: seq<nat>, w: seq<nat>, d: seq<nat>)
    requires Single(steps, PacketSession, s) && Single(steps, KillSwitch, w)
    requires Falling(steps, |steps|, d)
    ensures Visits(steps, s + w + d) && QuietFirst(steps, s + w + d)
  {
    QuietTail(steps, w, d);
    CompleteParts(steps, s, w, d);
    hide Visits, QuietFirst, TailOrder, Falling, Unrestored;
    if s == [] {
      assert s + w + d == w + d;
      TailAlone(steps, w + d);
    } else {
      assert s == [s[0]];
      assert s + w + d == [s[0]] + (w + d);
      Prepended(steps, s[0], w + d);
    }
  }

  lemma TailAlone(steps: seq<Record>, tail: seq<nat>)
    requires TailOrder(steps, tail) && !Unrestored(steps, PacketSession)
    requires forall i :: 0 <= i < |steps| && steps[i].state != Restored ==> i in tail
    ensures Visits(steps, tail) && QuietFirst(steps, tail)
  {
  }

  /** The part of the order that follows the packet session. */
  ghost predicate TailOrder(steps: seq<Record>, tail: seq<nat>) {
    && (forall k :: 0 <= k < |tail| ==>
          tail[k] < |steps| && steps[tail[k]].state != Restored && steps[tail[k]].kind != PacketSession)
    && (forall a, b :: 0 <= a < b < |tail| ==> tail[a] != tail[b])
    && (Unrestored(steps, KillSwitch) ==> 0 < |tail| && steps[tail[0]].kind == KillSwitch)
    && (forall a, b :: 0 <= a < b < |tail| && Late(steps[tail[a]].kind) ==> tail[a] > tail[b])
  }

  lemma QuietTail(steps: seq<Record>, w: seq<nat>, d: seq<nat>)
    requires Single(steps, KillSwitch, w)
    requires forall k :: 0 <= k < |d| ==>
               d[k] < |steps| && Late(steps[d[k]].kind) && steps[d[k]].state != Restored
    requires forall a, b :: 0 <= a < b < |d| ==> d[a] > d[b]
    ensures TailOrder(steps, w + d)
  {
  }

  lemma Prepended(steps: seq<Record>, first: nat, tail: seq<nat>)
    requires TailOrder(steps, tail)
    requires first < |steps| && steps[first].kind == PacketSession && steps[first].state != Restored
    requires forall i :: 0 <= i < |steps| && steps[i].state != Restored ==> i in [first] + tail
    ensures Visits(steps, [first] + tail) && QuietFirst(steps, [first] + tail)
  {
    var order := [first] + tail;
    assert order[0] == first;
    assert forall k :: 0 < k < |order| ==> order[k] == tail[k - 1];
  }

  lemma CompleteParts(steps: seq<Record>, s: seq<nat>, w: seq<nat>, d: seq<nat>)
    requires forall i :: 0 <= i < |steps| && steps[i].kind == PacketSession && steps[i].state != Restored ==> i in s
    requires forall i :: 0 <= i < |steps| && steps[i].kind == KillSwitch && steps[i].state != Restored ==> i in w
    requires forall i :: 0 <= i < |steps| && Late(steps[i].kind) && steps[i].state != Restored ==> i in d
    ensures forall i :: 0 <= i < |steps| && steps[i].state != Restored ==> i in s + w + d
  {
  }

  /** An interface or DNS step is settled by the removal of its exact adapter. */
  predicate DependencySatisfied(steps: seq<Record>, index: nat)
    requires index < |steps|
  {
    && steps[index].state != Restored
    && exists a :: 0 <= a < |steps| && BoundTo(steps[index].receipt, steps[a])
  }

  predicate BoundTo(dependency: Receipt, adapter: Record) {
    && adapter.kind == WintunAdapter && adapter.state == Restored && adapter.receipt.AdapterReceipt?
    && match dependency
       case InterfaceReceipt(luid, _) => luid == adapter.receipt.luid
       case DnsReceipt(guid, _) => guid == adapter.receipt.guid
       case _ => false
  }

  /** Marking a step whose adapter is gone loses track of nothing. */
  lemma DependencyIsGone(j: Journal, os: set<Resource>, index: nat)
    requires Safe(j, os) && index < |j.steps| && DependencySatisfied(j.steps, index)
    ensures Destroyed(j.steps[index].receipt) !! os
    ensures j.steps[index].kind == InterfaceConfiguration || j.steps[index].kind == Dns
  {
    var a :| 0 <= a < |j.steps| && BoundTo(j.steps[index].receipt, j.steps[a]);
  }

  /** An adapter whose interface number was never learned. */
  predicate Nameless(record: Record) {
    record.receipt.AdapterReceipt? && record.receipt.luid == 0
  }

  function AsRecovering(j: Journal): Journal {
    j.(phase := Recovering, pauseDeadline := None)
  }

  lemma {:induction false} AdapterOfUnchanged(steps: seq<Record>, steps': seq<Record>)
    requires |steps| == |steps'|
    requires forall i :: 0 <= i < |steps| ==>
               steps[i].kind == steps'[i].kind && steps[i].receipt == steps'[i].receipt
    ensures AdapterOf(steps) == AdapterOf(steps')
    decreases |steps|
  {
    if steps != [] {
      AdapterOfUnchanged(steps[1..], steps'[1..]);
    }
  }

  /**
    Validation survives marking a step Restored exactly when that step is not an
    adapter without an interface number: the journal rejects a non-Intended one.
  */
  lemma MarkAccepted(policy: Policy, j: Journal, index: nat)
    requires index < |j.steps| && j.phase != Clean
    requires Matching(j.steps) && DistinctKinds(j.steps)
    ensures Accepted(policy, j.(steps := MarkRestored(j.steps, index))) <==>
              Accepted(policy, j) && !Nameless(j.steps[index])
  {
    var steps := MarkRestored(j.steps, index);
    var j' := j.(steps := steps);
    assert forall i :: 0 <= i < |steps| ==> steps[i].kind == j.steps[i].kind && steps[i].receipt == j.steps[i].receipt;
    AdapterOfUnchanged(j.steps, steps);
    assert AdapterLuid(j.steps) == AdapterLuid(steps);
    assert steps[index].state == Restored;
    if j.operationKind.Some? {
      assert ShapeErrors(policy, j) == ShapeErrors(policy, j');
    }
    if Accepted(policy, j') {
      forall i | 0 <= i < |j.steps|
        ensures ReceiptAccepted(policy, j.steps[i], j.plan, AdapterLuid(j.steps), j.ownerSid.value, j.operation.value)
      {
        assert ReceiptAccepted(policy, steps[i], j.plan, AdapterLuid(steps), j.ownerSid.value, j.operation.value);
      }
    }
    if Accepted(policy, j) && !Nameless(j.steps[index]) {
      forall i | 0 <= i < |steps|
        ensures ReceiptAccepted(policy, steps[i], j.plan, AdapterLuid(steps), j.ownerSid.value, j.operation.value)
      {
        assert ReceiptAccepted(policy, j.steps[i], j.plan, AdapterLuid(j.steps), j.ownerSid.value, j.operation.value);
      }
    }
  }

  lemma GenerationIgnored(policy: Policy, j: Journal, generation: nat)
    ensures Accepted(policy, j.(generation := generation)) <==> Accepted(policy, j)
  {
    var j' := j.(generation := generation);
    if j.operationKind.Some? {
      assert ShapeErrors(policy, j) == ShapeErrors(policy, j');
    }
  }

  // ------------------------------------------------------------- action order

  /**
    The visible actions of a pass over `steps`. An unrestored packet session is
    restored first, and if that fails nothing else is touched. Otherwise egress
    is revoked once, with no session attached, before every other restore, and
    an unrestored kill switch is the next restore attempted.
  */
  ghost predicate QuietOrder(steps: seq<Record>, acts: seq<Act>) {
    var n := if Unrestored(steps, PacketSession) then 1 else 0;
    && n <= |acts|
    && (n == 1 ==> acts[0].Restore? && acts[0].kind == PacketSession)
    && (n == 1 && !acts[0].ok ==> |acts| == 1)
    && (n == 0 || acts[0].ok ==>
          && n < |acts| && acts[n] == Revoke(false)
          && (forall i :: n < i < |acts| ==> acts[i].Restore? && acts[i].kind != PacketSession)
          && (Unrestored(steps, KillSwitch) ==> n + 1 < |acts| && acts[n + 1].kind == KillSwitch))
  }

  // ---------------------------------------------------------------- accounting

  ghost predicate OnlyRestores(before: seq<Record>, after: seq<Record>) {
    && |before| == |after|
    && forall i :: 0 <= i < |before| ==>
         && after[i].kind == before[i].kind && after[i].receipt == before[i].receipt
         && (after[i].state == before[i].state || after[i].state == Restored)
  }

  /** Every step restored by a pass was restored by the backend, or is an
      interface or DNS step bound to an adapter that is now gone. */
  ghost predicate Justified(before: seq<Record>, after: seq<Record>, acts: seq<Act>)
    requires |before| == |after|
  {
    forall i :: 0 <= i < |before| && before[i].state != Restored && after[i].state == Restored ==>
      Restore(before[i].kind, true) in acts || Superseded(before[i].receipt, after)
  }

  ghost predicate Superseded(receipt: Receipt, steps: seq<Record>) {
    exists a :: 0 <= a < |steps| && BoundTo(receipt, steps[a])
  }

  /** No restore failure is dropped unless its step was settled after all. */
  ghost predicate Reported(steps: seq<Record>, acts: seq<Act>, failures: seq<Failure>) {
    forall k :: Restore(k, false) in acts ==>
      RestoreFailed(k) in failures ||
      ((k == InterfaceConfiguration || k == Dns) && !Unrestored(steps, k))
  }

  ghost predicate AllSaved(saves: seq<SaveOutcome>) {
    forall i :: 0 <= i < |saves| ==> saves[i] == Saved
  }

  /** The writes that went wrong, in order. */
  function Losses(saves: seq<SaveOutcome>): seq<SaveOutcome> {
    if saves == [] then [] else (if saves[0] == Saved then [] else [saves[0]]) + Losses(saves[1..])
  }

  /** The lost writes that a list of failures reports, in order. */
  function Lost(failures: seq<Failure>): seq<SaveOutcome> {
    if failures == [] then []
    else (if failures[0].PersistFailed? then [failures[0].outcome] else []) + Lost(failures[1..])
  }

  /** Every lost write is reported once, in order, and no other. */
  ghost predicate Persisted(saves: seq<SaveOutcome>, failures: seq<Failure>) {
    Lost(failures) == Losses(saves)
  }

  lemma {:induction false} LossesConcat(a: seq<SaveOutcome>, b: seq<SaveOutcome>)
    ensures Losses(a + b) == Losses(a) + Losses(b)
  {
    if a == [] {
      assert a + b == b;
    } else {
      assert (a + b)[0] == a[0] && (a + b)[1..] == a[1..] + b;
      LossesConcat(a[1..], b);
    }
  }

  lemma {:induction false} LostConcat(a: seq<Failure>, b: seq<Failure>)
    ensures Lost(a + b) == Lost(a) + Lost(b)
  {
    if a == [] {
      assert a + b == b;
    } else {
      assert (a + b)[0] == a[0] && (a + b)[1..] == a[1..] + b;
      LostConcat(a[1..], b);
    }
  }

  lemma {:induction false} LostRetained(failures: seq<Failure>, kind: Kind)
    ensures Lost(Retained(failures, kind)) == Lost(failures)
  {
    if failures != [] {
      LostRetained(failures[1..], kind);
      var head := if failures[0] == RestoreFailed(kind) then [] else [failures[0]];
      LostConcat(head, Retained(failures[1..], kind));
      LostOne(failures[0]);
    }
  }

  lemma LostOne(f: Failure)
    ensures Lost([f]) == if f.PersistFailed? then [f.outcome] else []
  {
    assert [f][1..] == [];
  }

  lemma LossesOne(outcome: SaveOutcome)
    ensures Losses([outcome]) == if outcome == Saved then [] else [outcome]
  {
    assert [outcome][1..] == [];
  }

  lemma {:induction false} NoLosses(saves: seq<SaveOutcome>)
    ensures Losses(saves) == [] <==> AllSaved(saves)
  {
    if saves != [] {
      NoLosses(saves[1..]);
      assert forall i :: 1 <= i < |saves| ==> saves[i] == saves[1..][i - 1];
    }
  }

  /** A reported failure has a cause in the pass. */
  ghost predicate Grounded(acts: seq<Act>, saves: seq<SaveOutcome>, failures: seq<Failure>) {
    failures != [] ==> !AllSaved(saves) || exists k :: Restore(k, false) in acts
  }

  /** A reported restore failure did happen. */
  ghost predicate Blamed(acts: seq<Act>, failures: seq<Failure>) {
    forall k :: RestoreFailed(k) in failures ==> Restore(k, false) in acts
  }

  /** The actions of a pass that has visited `n` steps. */
  ghost predicate Shape(before: seq<Record>, n: nat, acts: seq<Act>) {
    var s := if Unrestored(before, PacketSession) then 1 else 0;
    if n < s then acts == []
    else if n == s then acts == if s == 1 then [Restore(PacketSession, true)] else []
    else
      && s < |acts| && (s == 1 ==> acts[0] == Restore(PacketSession, true)) && acts[s] == Revoke(false)
      && (forall i :: s < i < |acts| ==> acts[i].Restore? && acts[i].kind != PacketSession)
      && (Unrestored(before, KillSwitch) ==> s + 1 < |acts| && acts[s + 1].kind == KillSwitch)
  }

  /** The account of a pass that has visited the first `n` steps of its order. */
  ghost predicate Tally(
    before: seq<Record>, order: seq<nat>, n: nat, after: seq<Record>,
    acts: seq<Act>, saves: seq<SaveOutcome>, failures: seq<Failure>)
  {
    && Visits(before, order) && QuietFirst(before, order) && n <= |order|
    && OnlyRestores(before, after)
    && (forall k :: n <= k < |order| ==> after[order[k]].state == before[order[k]].state)
    && (forall k :: 0 <= k < n ==>
          after[order[k]].state == Restored || RestoreFailed(before[order[k]].kind) in failures)
    && (forall k :: Restore(k, false) in acts ==> RestoreFailed(k) in failures)
    && Justified(before, after, acts)
    && Persisted(saves, failures)
    && Grounded(acts, saves, failures) && Blamed(acts, failures)
    && Shape(before, n, acts)
    && (after == before <==> saves == [])
  }

  /** The failures after a save during the visit of a step. */
  function Noted(failures: seq<Failure>, kind: Kind, outcome: SaveOutcome): seq<Failure> {
    if outcome == Saved then failures else failures + [PersistFailed(Some(kind), outcome)]
  }

  /** Actions once egress has been revoked, if this visit is the one to do it. */
  function Opened(before: seq<Record>, n: nat, acts: seq<Act>): seq<Act> {
    if n == (if Unrestored(before, PacketSession) then 1 else 0) then acts + [Revoke(false)] else acts
  }

  lemma JustifiedExtends(before: seq<Record>, mid: seq<Record>, acts: seq<Act>, index: nat, acts': seq<Act>)
    requires OnlyRestores(before, mid) && Justified(before, mid, acts) && acts <= acts' && index < |mid|
    requires Restore(before[index].kind, true) in acts' || Superseded(before[index].receipt, mid)
    ensures Justified(before, MarkRestored(mid, index), acts')
  {
    var after := MarkRestored(mid, index);
    forall i | 0 <= i < |before| && before[i].state != Restored && after[i].state == Restored
      ensures Restore(before[i].kind, true) in acts' || Superseded(before[i].receipt, after)
    {
      if i != index {
        assert mid[i] == after[i];
        assert Restore(before[i].kind, true) in acts || Superseded(before[i].receipt, mid);
      }
      if Superseded(before[i].receipt, mid) {
        var a :| 0 <= a < |mid| && BoundTo(before[i].receipt, mid[a]);
        assert BoundTo(before[i].receipt, after[a]);
      }
    }
  }

  lemma SavesExtend(acts: seq<Act>, acts': seq<Act>, saves: seq<SaveOutcome>, failures: seq<Failure>, kind: Kind, outcome: SaveOutcome)
    requires Persisted(saves, failures) && Grounded(acts, saves, failures) && acts <= acts'
    requires Blamed(acts, failures)
    ensures Blamed(acts', Noted(failures, kind, outcome))
    ensures Persisted(saves + [outcome], Noted(failures, kind, outcome))
    ensures Grounded(acts', saves + [outcome], Noted(failures, kind, outcome))
    ensures forall f :: f in failures ==> f in Noted(failures, kind, outcome)
  {
    var saves' := saves + [outcome];
    assert saves'[|saves|] == outcome;
    assert forall i :: 0 <= i < |saves| ==> saves'[i] == saves[i];
    LossesConcat(saves, [outcome]);
    LossesOne(outcome);
    LostConcat(failures, [PersistFailed(Some(kind), outcome)]);
    LostOne(PersistFailed(Some(kind), outcome));
    if exists k :: Restore(k, false) in acts {
      var k :| Restore(k, false) in acts;
      assert Restore(k, false) in acts';
    }
  }

  lemma DependencyIsLate(before: seq<Record>, mid: seq<Record>, index: nat)
    requires OnlyRestores(before, mid) && Matching(before) && index < |mid|
    ensures DependencySatisfied(mid, index) ==> Superseded(before[index].receipt, mid) && Late(before[index].kind)
  {
  }

  /** The visit of a step that ends restored. */
  lemma TallyRestored(
    before: seq<Record>, order: seq<nat>, n: nat, mid: seq<Record>,
    acts: seq<Act>, saves: seq<SaveOutcome>, failures: seq<Failure>, called: bool, outcome: SaveOutcome)
    requires Tally(before, order, n, mid, acts, saves, failures) && n < |order|
    requires DistinctKinds(before) && Matching(before)
    requires !called ==> DependencySatisfied(mid, order[n])
    ensures
      var kind := before[order[n]].kind;
      var ready := if kind == PacketSession then acts else Opened(before, n, acts);
      var acts' := if called then ready + [Restore(kind, true)] else ready;
      Tally(before, order, n + 1, MarkRestored(mid, order[n]), acts', saves + [outcome], Noted(failures, kind, outcome))
  {
    hide Persisted, Grounded, Blamed, Justified, Shape, Noted, QuietFirst, Matching;
    var index := order[n];
    var kind := before[index].kind;
    var ready := if kind == PacketSession then acts else Opened(before, n, acts);
    var acts' := if called then ready + [Restore(kind, true)] else ready;
    var after := MarkRestored(mid, index);
    assert !called ==> Superseded(before[index].receipt, mid) && Late(kind) by { DependencyIsLate(before, mid, index); }
    assert forall i :: 0 <= i < |mid| && i != index ==> after[i] == mid[i];
    SavesExtend(acts, acts', saves, failures, kind, outcome);
    JustifiedExtends(before, mid, acts, index, acts');
    ShapeExtends(before, order, n, acts, called, true);
    assert saves + [outcome] != [];
    assert after[index] != before[index];
  }

  lemma ShapeExtends(before: seq<Record>, order: seq<nat>, n: nat, acts: seq<Act>, called: bool, ok: bool)
    requires Visits(before, order) && QuietFirst(before, order) && n < |order|
    requires Shape(before, n, acts) && DistinctKinds(before)
    requires !called ==> Late(before[order[n]].kind)
    requires before[order[n]].kind == PacketSession ==> ok
    ensures
      var kind := before[order[n]].kind;
      var ready := if kind == PacketSession then acts else Opened(before, n, acts);
      Shape(before, n + 1, if called then ready + [Restore(kind, ok)] else ready)
  {
    var s := if Unrestored(before, PacketSession) then 1 else 0;
    var kind := before[order[n]].kind;
    if n < s {
      assert kind == PacketSession;
      assert acts + [Restore(kind, ok)] == [Restore(PacketSession, true)];
    }
  }

  /** The visit of a step other than the packet session that the backend fails to restore. */
  lemma TallyFailed(
    before: seq<Record>, order: seq<nat>, n: nat, after: seq<Record>,
    acts: seq<Act>, saves: seq<SaveOutcome>, failures: seq<Failure>)
    requires Tally(before, order, n, after, acts, saves, failures) && n < |order|
    requires DistinctKinds(before)
    requires before[order[n]].kind != PacketSession
    ensures
      var kind := before[order[n]].kind;
      Tally(before, order, n + 1, after, Opened(before, n, acts) + [Restore(kind, false)], saves,
            failures + [RestoreFailed(kind)])
  {
    var kind := before[order[n]].kind;
    var acts' := Opened(before, n, acts) + [Restore(kind, false)];
    ShapeExtends(before, order, n, acts, true, false);
    assert Restore(kind, false) in acts';
    assert RestoreFailed(kind) in failures + [RestoreFailed(kind)];
    LostConcat(failures, [RestoreFailed(kind)]);
    LostOne(RestoreFailed(kind));
  }

  function Retained(failures: seq<Failure>, kind: Kind): (kept: seq<Failure>)
    ensures forall f :: f in kept <==> f in failures && f != RestoreFailed(kind)
  {
    if failures == [] then []
    else (if failures[0] == RestoreFailed(kind) then [] else [failures[0]]) + Retained(failures[1..], kind)
  }

  /** The account of a pass that has visited every step. */
  ghost predicate Account(
    before: seq<Record>, after: seq<Record>, acts: seq<Act>, saves: seq<SaveOutcome>, failures: seq<Failure>)
  {
    && OnlyRestores(before, after)
    && (forall i :: 0 <= i < |after| ==> after[i].state == Restored || RestoreFailed(after[i].kind) in failures)
    && Reported(after, acts, failures)
    && Justified(before, after, acts)
    && Persisted(saves, failures)
    && Grounded(acts, saves, failures) && Blamed(acts, failures)
    && (after == before <==> saves == [])
  }

  lemma TallyDone(
    before: seq<Record>, order: seq<nat>, after: seq<Record>,
    acts: seq<Act>, saves: seq<SaveOutcome>, failures: seq<Failure>, ready: seq<Act>)
    requires Tally(before, order, |order|, after, acts, saves, failures)
    requires DistinctKinds(before)
    requires ready == Opened(before, |order|, acts)
    ensures Account(before, after, ready, saves, failures)
    ensures QuietOrder(before, ready)
  {
    forall i | 0 <= i < |after|
      ensures after[i].state == Restored || RestoreFailed(after[i].kind) in failures
    {
      if before[i].state != Restored {
        assert i in order;
        var k :| 0 <= k < |order| && order[k] == i;
      }
    }
    assert forall a :: a in acts ==> a in ready;
    var s := if Unrestored(before, PacketSession) then 1 else 0;
    assert |order| >= s;
    if |order| == s && Unrestored(before, KillSwitch) {
      assert false;
    }
  }

  /** Settling a dependency after the pass drops only that step's own failure. */
  lemma AccountReconciles(
    before: seq<Record>, mid: seq<Record>, acts: seq<Act>, saves: seq<SaveOutcome>, failures: seq<Failure>,
    index: nat, outcome: SaveOutcome)
    requires Account(before, mid, acts, saves, failures)
    requires DistinctKinds(before) && Matching(before)
    requires index < |mid| && DependencySatisfied(mid, index)
    ensures
      var kind := mid[index].kind;
      Account(before, MarkRestored(mid, index), acts, saves + [outcome],
              Noted(Retained(failures, kind), kind, outcome))
  {
    hide Persisted, Grounded, Blamed, Justified, Retained, DependencySatisfied, Reported, Lost, Losses, Unrestored,
         Superseded, BoundTo, DistinctKinds, Matching;
    var kind := mid[index].kind;
    var after := MarkRestored(mid, index);
    var kept := Retained(failures, kind);
    SettledKind(before, mid, index);
    JustifiedExtends(before, mid, acts, index, acts);
    SettledReports(mid, index, acts, failures);
    KeptFailures(acts, saves, failures, kind);
    SavesExtend(acts, acts, saves, kept, kind, outcome);
    var noted := Noted(kept, kind, outcome);
    ReportedMore(after, acts, kept, noted);
    forall i | 0 <= i < |after|
      ensures after[i].state == Restored || RestoreFailed(after[i].kind) in noted
    {
      assert i != index ==> after[i] == mid[i];
    }
    assert saves + [outcome] != [];
    assert after[index] != before[index];
  }

  lemma SettledKind(before: seq<Record>, mid: seq<Record>, index: nat)
    requires OnlyRestores(before, mid) && Matching(before) && DistinctKinds(before)
    requires index < |mid| && DependencySatisfied(mid, index)
    ensures Superseded(before[index].receipt, mid) && mid[index].state != Restored && DistinctKinds(mid)
    ensures before[index].state != Restored
    ensures mid[index].kind == InterfaceConfiguration || mid[index].kind == Dns
  {
  }

  lemma KeptFailures(acts: seq<Act>, saves: seq<SaveOutcome>, failures: seq<Failure>, kind: Kind)
    requires Persisted(saves, failures) && Grounded(acts, saves, failures) && Blamed(acts, failures)
    ensures
      var kept := Retained(failures, kind);
      Persisted(saves, kept) && Grounded(acts, saves, kept) && Blamed(acts, kept)
  {
    LostRetained(failures, kind);
    assert Retained(failures, kind) != [] ==> Retained(failures, kind)[0] in failures;
  }

  lemma ReportedMore(steps: seq<Record>, acts: seq<Act>, kept: seq<Failure>, noted: seq<Failure>)
    requires Reported(steps, acts, kept) && forall f :: f in kept ==> f in noted
    ensures Reported(steps, acts, noted)
  {
  }

  /** Marking a settled step and dropping its failure leaves the others reported. */
  lemma SettledReports(mid: seq<Record>, index: nat, acts: seq<Act>, failures: seq<Failure>)
    requires index < |mid| && DistinctKinds(mid) && Reported(mid, acts, failures)
    requires mid[index].kind == InterfaceConfiguration || mid[index].kind == Dns
    requires forall i :: 0 <= i < |mid| ==> mid[i].state == Restored || RestoreFailed(mid[i].kind) in failures
    ensures Reported(MarkRestored(mid, index), acts, Retained(failures, mid[index].kind))
    ensures forall i :: 0 <= i < |mid| && i != index ==>
              mid[i].state == Restored || RestoreFailed(mid[i].kind) in Retained(failures, mid[index].kind)
  {
    var after := MarkRestored(mid, index);
    assert forall i :: 0 <= i < |mid| && i != index ==> after[i] == mid[i] && mid[i].kind != mid[index].kind;
    assert forall k :: k != mid[index].kind ==> (Unrestored(after, k) <==> Unrestored(mid, k));
  }

  /** How validation fared over a pass. */
  ghost predicate Validated(policy: Policy, before: Journal, after: Journal, saves: seq<SaveOutcome>)
    requires |before.steps| == |after.steps|
  {
    && (Accepted(policy, after) <==>
          && Accepted(policy, before)
          && forall i :: 0 <= i < |after.steps| && after.steps[i] != before.steps[i] ==> !Nameless(after.steps[i]))
    && (forall i :: 0 <= i < |saves| && saves[i].Rejected? ==> !Accepted(policy, after))
    && (saves != [] && AllSaved(saves) ==> Accepted(policy, after))
  }

  lemma ValidatedExtends(
    policy: Policy, before: Journal, mid: Journal, after: Journal, saves: seq<SaveOutcome>, index: nat, outcome: SaveOutcome)
    requires OnlyRestores(before.steps, mid.steps) && Validated(policy, before, mid, saves)
    requires index < |mid.steps| && mid.steps[index].state != Restored
    requires after.steps == MarkRestored(mid.steps, index)
    requires outcome == Saved ==> Accepted(policy, after)
    requires outcome.Rejected? ==> !Accepted(policy, after)
    requires Accepted(policy, after) <==> Accepted(policy, mid) && !Nameless(mid.steps[index])
    ensures Validated(policy, before, after, saves + [outcome])
  {
    var saves' := saves + [outcome];
    assert saves'[|saves|] == outcome;
    assert forall i :: 0 <= i < |saves| ==> saves'[i] == saves[i];
    assert forall i :: 0 <= i < |mid.steps| && i != index ==> after.steps[i] == mid.steps[i];
    assert after.steps[index] != before.steps[index] && after.steps[index].receipt == mid.steps[index].receipt;
  }

  /** The actions when the packet session cannot be restored: nothing else happens. */
  lemma SessionStuck(before: seq<Record>, order: seq<nat>, acts: seq<Act>)
    requires Visits(before, order) && QuietFirst(before, order) && order != []
    requires before[order[0]].kind == PacketSession && Shape(before, 0, acts)
    ensures acts == [] && QuietOrder(before, acts + [Restore(PacketSession, false)])
  {
  }

  lemma NextVisit(
    before: seq<Record>, order: seq<nat>, n: nat, mid: seq<Record>,
    acts: seq<Act>, saves: seq<SaveOutcome>, failures: seq<Failure>)
    requires Tally(before, order, n, mid, acts, saves, failures) && n < |order|
    ensures order[n] < |mid| == |before|
    ensures mid[order[n]].state != Restored
    ensures mid[order[n]].kind == before[order[n]].kind && mid[order[n]].receipt == before[order[n]].receipt
    ensures OnlyRestores(before, mid)
    ensures before[order[n]].kind == PacketSession <==> n < if Unrestored(before, PacketSession) then 1 else 0
  {
    assert mid[order[n]].state == before[order[n]].state;
    assert n < |order| && n >= (if Unrestored(before, PacketSession) then 1 else 0) ==>
        before[order[n]].kind != PacketSession;
  }

  lemma StuckAccount(
    before: seq<Record>, order: seq<nat>, mid: seq<Record>,
    acts: seq<Act>, saves: seq<SaveOutcome>, failures: seq<Failure>)
    requires Tally(before, order, 0, mid, acts, saves, failures) && order != []
    requires before[order[0]].kind == PacketSession
    ensures
      var acts' := acts + [Restore(PacketSession, false)];
      var failures' := failures + [RestoreFailed(PacketSession)];
      && QuietOrder(before, acts') && Justified(before, mid, acts') && Reported(mid, acts', failures')
      && Grounded(acts', saves, failures') && Blamed(acts', failures') && Persisted(saves, failures')
      && (mid == before <==> saves == [])
  {
    LostConcat(failures, [RestoreFailed(PacketSession)]);
    SessionStuck(before, order, acts);
    assert Restore(PacketSession, false) in acts + [Restore(PacketSession, false)];
    assert RestoreFailed(PacketSession) in failures + [RestoreFailed(PacketSession)];
  }

  lemma TallyStarts(before: seq<Record>, order: seq<nat>)
    requires Visits(before, order) && QuietFirst(before, order)
    ensures Tally(before, order, 0, before, [], [], [])
  {
  }

  lemma AccountFacts(
    before: seq<Record>, after: seq<Record>, acts: seq<Act>, saves: seq<SaveOutcome>, failures: seq<Failure>)
    requires Account(before, after, acts, saves, failures)
    ensures OnlyRestores(before, after) && |before| == |after|
    ensures Justified(before, after, acts) && Reported(after, acts, failures) && Grounded(acts, saves, failures)
    ensures Blamed(acts, failures) && Persisted(saves, failures)
    ensures after == before <==> saves == []
    ensures AllRestored(after) || exists k :: Restore(k, false) in acts
    ensures failures == [] ==> AllRestored(after) && AllSaved(saves)
  {
    NoLosses(saves);
  }

  // ---------------------------------------------------------------- pass steps

  /** What a recovery pass works on: memory, disk, and the logs so far. */
  datatype Scene = Scene(
    journal: Journal, disk: Journal, acts: seq<Act>, saves: seq<SaveOutcome>, attached: bool)

  function Bumped(j: Journal): Journal {
    if j.generation >= U64_MAX then j else j.(generation := j.generation + 1)
  }

  /** The effect of acting on one step: `called` when the backend was asked. */
  ghost predicate Acted(policy: Policy, index: nat, a: Scene, b: Scene, called: bool, restored: bool, outcome: SaveOutcome)
  {
    && index < |a.journal.steps|
    && called == !DependencySatisfied(a.journal.steps, index)
    && (!called ==> restored)
    && b.acts == (if called then a.acts + [Restore(a.journal.steps[index].kind, restored)] else a.acts)
    && b.attached == (a.attached && !(restored && a.journal.steps[index].kind == PacketSession))
    && (!restored ==> b.journal == a.journal && b.disk == a.disk && b.saves == a.saves)
    && (restored ==> Marked(policy, index, a, b, outcome))
  }

  /** The effect of recording one step as Restored and saving. */
  ghost predicate Marked(policy: Policy, index: nat, a: Scene, b: Scene, outcome: SaveOutcome)
    requires index < |a.journal.steps|
  {
    && b.journal == Bumped(a.journal.(steps := MarkRestored(a.journal.steps, index)))
    && b.disk == (if outcome == Saved then b.journal else a.disk)
    && b.saves == a.saves + [outcome]
    && (outcome == Saved ==> Accepted(policy, b.journal) && b.journal.generation > a.journal.generation)
    && (outcome.Rejected? ==> !Accepted(policy, b.journal))
    && (Accepted(policy, b.journal) <==> Accepted(policy, a.journal) && !Nameless(a.journal.steps[index]))
  }

  function Acts(p: Scene, s: Scene): seq<Act> { if p.acts <= s.acts then s.acts[|p.acts|..] else [] }

  function Saves(p: Scene, s: Scene): seq<SaveOutcome> { if p.saves <= s.saves then s.saves[|p.saves|..] else [] }

  /** Holds of every scene `s` of a pass that started at `p`. */
  ghost predicate Underway(policy: Policy, p: Scene, s: Scene) {
    && Matching(p.journal.steps) && DistinctKinds(p.journal.steps)
    && s.journal == p.journal.(steps := s.journal.steps, generation := s.journal.generation)
    && s.journal.generation >= p.journal.generation
    && (s.disk == p.disk || s.disk.generation > p.journal.generation)
    && p.acts <= s.acts && p.saves <= s.saves
    && OnlyRestores(p.journal.steps, s.journal.steps)
    && Validated(policy, p.journal, s.journal, Saves(p, s))
  }

  function SessionSteps(p: Scene): nat {
    if Unrestored(p.journal.steps, PacketSession) then 1 else 0
  }

  ghost predicate Visiting(policy: Policy, p: Scene, s: Scene, order: seq<nat>, n: nat, failures: seq<Failure>) {
    && Underway(policy, p, s)
    && Tally(p.journal.steps, order, n, s.journal.steps, Acts(p, s), Saves(p, s), failures)
    && (n >= SessionSteps(p) ==> !s.attached)
  }

  /** What every pass guarantees, however it ends. */
  ghost predicate Conducted(policy: Policy, p: Scene, s: Scene, failures: seq<Failure>) {
    && Underway(policy, p, s)
    && QuietOrder(p.journal.steps, Acts(p, s))
    && Justified(p.journal.steps, s.journal.steps, Acts(p, s))
    && Reported(s.journal.steps, Acts(p, s), failures)
    && Grounded(Acts(p, s), Saves(p, s), failures)
    && Blamed(Acts(p, s), failures) && Persisted(Saves(p, s), failures)
    && (s.journal.steps == p.journal.steps <==> Saves(p, s) == [])
    && (AllRestored(s.journal.steps) || exists k :: Restore(k, false) in Acts(p, s))
    && (failures == [] ==> AllRestored(s.journal.steps) && AllSaved(Saves(p, s)) && !s.attached)
  }

  ghost predicate Visited(policy: Policy, p: Scene, s: Scene, failures: seq<Failure>) {
    && Underway(policy, p, s) && !s.attached
    && QuietOrder(p.journal.steps, Acts(p, s))
    && Account(p.journal.steps, s.journal.steps, Acts(p, s), Saves(p, s), failures)
  }

  lemma UnderwayMarks(policy: Policy, p: Scene, a: Scene, b: Scene, index: nat, outcome: SaveOutcome)
    requires Underway(policy, p, a) && index < |a.journal.steps| && a.journal.steps[index].state != Restored
    requires Marked(policy, index, a, b, outcome) && a.acts <= b.acts
    ensures Underway(policy, p, b) && Saves(p, b) == Saves(p, a) + [outcome]
    ensures b.journal.steps == MarkRestored(a.journal.steps, index)
  {
    hide Validated, Accepted;
    assert b.saves[|p.saves|..] == a.saves[|p.saves|..] + [outcome];
    ValidatedExtends(policy, p.journal, a.journal, b.journal, Saves(p, a), index, outcome);
  }

  /** The scene once egress has been revoked, if the next visit is the one to do it. */
  function Released(p: Scene, s: Scene, kind: Kind, n: nat): Scene {
    if kind != PacketSession && n == SessionSteps(p) then s.(acts := s.acts + [Revoke(false)]) else s
  }

  lemma VisitActs(
    policy: Policy, p: Scene, s: Scene, b: Scene, order: seq<nat>, n: nat, failures: seq<Failure>,
    called: bool, restored: bool, outcome: SaveOutcome)
    requires Visiting(policy, p, s, order, n, failures) && n < |order| && order[n] < |s.journal.steps|
    requires Acted(policy, order[n], Released(p, s, s.journal.steps[order[n]].kind, n), b, called, restored, outcome)
    ensures
      var kind := s.journal.steps[order[n]].kind;
      if restored then Visiting(policy, p, b, order, n + 1, Noted(failures, kind, outcome))
      else if kind != PacketSession then Visiting(policy, p, b, order, n + 1, failures + [RestoreFailed(kind)])
      else Conducted(policy, p, b, failures + [RestoreFailed(kind)])
  {
    hide *;
    if restored {
      VisitRestores(policy, p, s, b, order, n, failures, called, restored, outcome);
    } else {
      VisitFails(policy, p, s, b, order, n, failures, called, restored, outcome);
    }
  }

  lemma VisitRestores(
    policy: Policy, p: Scene, s: Scene, b: Scene, order: seq<nat>, n: nat, failures: seq<Failure>,
    called: bool, restored: bool, outcome: SaveOutcome)
    requires Visiting(policy, p, s, order, n, failures) && n < |order| && order[n] < |s.journal.steps|
    requires Acted(policy, order[n], Released(p, s, s.journal.steps[order[n]].kind, n), b, called, restored, outcome)
    requires restored
    ensures Visiting(policy, p, b, order, n + 1, Noted(failures, s.journal.steps[order[n]].kind, outcome))
  {
    hide Tally, Validated, OnlyRestores, Justified, Reported, Grounded, Marked, QuietOrder, Accepted, DependencySatisfied,
         Unrestored, AllRestored;
    var before, mid, index := p.journal.steps, s.journal.steps, order[n];
    var acts, saves := Acts(p, s), Saves(p, s);
    NextVisit(before, order, n, mid, acts, saves, failures);
    var kind := mid[index].kind;
    var a := Released(p, s, kind, n);
    ActsAfter(p, s, a, b, kind, called, restored, n);
    assert Underway(policy, p, a) by { assert Saves(p, a) == saves; }
    UnderwayMarks(policy, p, a, b, index, outcome);
    TallyRestored(before, order, n, mid, acts, saves, failures, called, outcome);
  }

  lemma VisitFails(
    policy: Policy, p: Scene, s: Scene, b: Scene, order: seq<nat>, n: nat, failures: seq<Failure>,
    called: bool, restored: bool, outcome: SaveOutcome)
    requires Visiting(policy, p, s, order, n, failures) && n < |order| && order[n] < |s.journal.steps|
    requires Acted(policy, order[n], Released(p, s, s.journal.steps[order[n]].kind, n), b, called, restored, outcome)
    requires !restored
    ensures
      var kind := s.journal.steps[order[n]].kind;
      if kind != PacketSession then Visiting(policy, p, b, order, n + 1, failures + [RestoreFailed(kind)])
      else Conducted(policy, p, b, failures + [RestoreFailed(kind)])
  {
    hide Tally, Validated, OnlyRestores, Justified, Reported, Grounded, Marked, QuietOrder, Accepted, DependencySatisfied,
         Unrestored, AllRestored;
    var before, mid, index := p.journal.steps, s.journal.steps, order[n];
    var acts, saves := Acts(p, s), Saves(p, s);
    NextVisit(before, order, n, mid, acts, saves, failures);
    var kind := mid[index].kind;
    ActsAfter(p, s, Released(p, s, kind, n), b, kind, called, restored, n);
    assert Saves(p, b) == saves;
    if kind == PacketSession {
      StuckAccount(before, order, mid, acts, saves, failures);
      assert Restore(kind, false) in Acts(p, b);
    } else {
      TallyFailed(before, order, n, mid, acts, saves, failures);
    }
  }

  lemma ActsAfter(p: Scene, s: Scene, a: Scene, b: Scene, kind: Kind, called: bool, restored: bool, n: nat)
    requires p.acts <= s.acts && a == Released(p, s, kind, n)
    requires b.acts == if called then a.acts + [Restore(kind, restored)] else a.acts
    ensures
      var ready := if kind == PacketSession then Acts(p, s) else Opened(p.journal.steps, n, Acts(p, s));
      Acts(p, b) == (if called then ready + [Restore(kind, restored)] else ready) && p.acts <= b.acts
  {
  }

  lemma SessionVisited(
    p: Scene, order: seq<nat>, after: seq<Record>, acts: seq<Act>, saves: seq<SaveOutcome>, failures: seq<Failure>)
    requires Tally(p.journal.steps, order, |order|, after, acts, saves, failures)
    ensures |order| >= SessionSteps(p)
  {
  }

  lemma VisitsEnd(policy: Policy, p: Scene, s: Scene, order: seq<nat>, failures: seq<Failure>)
    requires Visiting(policy, p, s, order, |order|, failures)
    ensures |order| >= SessionSteps(p) && !s.attached
    ensures
      var b := if |order| == SessionSteps(p) then s.(acts := s.acts + [Revoke(false)]) else s;
      Visited(policy, p, b, failures)
  {
    SessionVisited(p, order, s.journal.steps, Acts(p, s), Saves(p, s), failures);
    hide Tally, Validated, OnlyRestores, Account, QuietOrder, Matching, DistinctKinds;
    var b := if |order| == SessionSteps(p) then s.(acts := s.acts + [Revoke(false)]) else s;
    assert Acts(p, b) == Opened(p.journal.steps, |order|, Acts(p, s));
    assert Saves(p, b) == Saves(p, s);
    TallyDone(p.journal.steps, order, s.journal.steps, Acts(p, s), Saves(p, s), failures, Acts(p, b));
  }

  lemma VisitedReconciles(
    policy: Policy, p: Scene, a: Scene, b: Scene, failures: seq<Failure>, index: nat, outcome: SaveOutcome)
    requires Visited(policy, p, a, failures) && index < |a.journal.steps| && DependencySatisfied(a.journal.steps, index)
    requires Marked(policy, index, a, b, outcome) && b.acts == a.acts && b.attached == a.attached
    ensures
      var kind := a.journal.steps[index].kind;
      Visited(policy, p, b, Noted(Retained(failures, kind), kind, outcome))
  {
    UnderwayMarks(policy, p, a, b, index, outcome);
    AccountReconciles(p.journal.steps, a.journal.steps, Acts(p, a), Saves(p, a), failures, index, outcome);
  }

  lemma VisitedConducts(policy: Policy, p: Scene, s: Scene, failures: seq<Failure>)
    requires Visited(policy, p, s, failures)
    ensures Conducted(policy, p, s, failures)
  {
    AccountFacts(p.journal.steps, s.journal.steps, Acts(p, s), Saves(p, s), failures);
  }

  lemma VisitFacts(policy: Policy, p: Scene, s: Scene, order: seq<nat>, n: nat, failures: seq<Failure>)
    requires Visiting(policy, p, s, order, n, failures) && n < |order|
    ensures order[n] < |s.journal.steps| && s.journal.steps[order[n]].state != Restored
    ensures s.journal.steps[order[n]].kind == PacketSession <==> n < SessionSteps(p)
    ensures n >= SessionSteps(p) ==> !s.attached
  {
    NextVisit(p.journal.steps, order, n, s.journal.steps, Acts(p, s), Saves(p, s), failures);
  }

  lemma VisitsStart(policy: Policy, p: Scene, order: seq<nat>)
    requires Matching(p.journal.steps) && DistinctKinds(p.journal.steps)
    requires order == RestoreOrder(p.journal.steps)
    requires p.attached ==> Unrestored(p.journal.steps, PacketSession)
    ensures Visiting(policy, p, p, order, 0, [])
  {
    OrderIsComplete(p.journal.steps);
    TallyStarts(p.journal.steps, order);
  }

  // ------------------------------------------------------------------ verdict

  /** The volume works and the backend restores everything it is asked to. */
  ghost predicate Healthy(saves: seq<SaveOutcome>, acts: seq<Act>) {
    && (forall i :: 0 <= i < |saves| ==> saves[i] != Unwritten && saves[i] != Overflow)
    && (forall i :: 0 <= i < |acts| && acts[i].Restore? ==> acts[i].ok)
  }

  /** What one healthy pass needs to finish. */
  ghost predicate FinishesInOnePass(policy: Policy, j: Journal) {
    || AllRestored(j.steps)
    || (Accepted(policy, j) && forall i :: 0 <= i < |j.steps| && j.steps[i].state != Restored ==> !Nameless(j.steps[i]))
  }

  /**
    A healthy pass restores every step. It reports no failure exactly when there
    was nothing to restore, or the journal was valid and no unrestored adapter
    lacks its interface number: recording that one as Restored cannot be saved.
  */
  lemma HealthyVerdict(policy: Policy, p: Scene, s: Scene, failures: seq<Failure>)
    requires Conducted(policy, p, s, failures)
    requires Healthy(Saves(p, s), Acts(p, s))
    ensures AllRestored(s.journal.steps)
    ensures failures == [] <==> FinishesInOnePass(policy, p.journal)
  {
    var saves, before, after := Saves(p, s), p.journal.steps, s.journal.steps;
    assert forall k :: Restore(k, false) !in Acts(p, s);
    if AllRestored(before) {
      assert forall i :: 0 <= i < |before| ==> after[i] == before[i];
      assert after == before;
    } else {
      var i :| 0 <= i < |before| && before[i].state != Restored;
      assert after[i] != before[i];
      assert AllSaved(saves) || exists i :: 0 <= i < |saves| && saves[i].Rejected?;
    }
  }

  /** Each unrestored step was restored by the backend, or is interface or DNS
      state of an adapter that was already gone or was restored by the backend. */
  ghost predicate Accounted(steps: seq<Record>, acts: seq<Act>) {
    forall i :: 0 <= i < |steps| && steps[i].state != Restored ==>
      Restore(steps[i].kind, true) in acts || AdapterGone(steps[i].receipt, steps, acts)
  }

  ghost predicate AdapterGone(receipt: Receipt, steps: seq<Record>, acts: seq<Act>) {
    exists a :: 0 <= a < |steps| && BoundTo(receipt, steps[a].(state := Restored)) &&
      (steps[a].state == Restored || Restore(WintunAdapter, true) in acts)
  }

  lemma JustifiedAccounts(before: seq<Record>, after: seq<Record>, acts: seq<Act>)
    requires Matching(before) && OnlyRestores(before, after) && Justified(before, after, acts) && AllRestored(after)
    ensures Accounted(before, acts)
  {
    forall i | 0 <= i < |before| && before[i].state != Restored && Restore(before[i].kind, true) !in acts
      ensures AdapterGone(before[i].receipt, before, acts)
    {
      assert after[i].state == Restored;
      var a :| 0 <= a < |after| && BoundTo(before[i].receipt, after[a]);
      assert BoundTo(before[i].receipt, before[a].(state := Restored));
      if before[a].state != Restored && Restore(WintunAdapter, true) !in acts {
        assert false;
      }
    }
  }

  /** The outcome of a whole recovery, from scene `a` to scene `b`. */
  ghost predicate Verdict(policy: Policy, a: Scene, b: Scene, succeeded: bool) {
    && a.acts <= b.acts && a.saves <= b.saves
    && a.journal.generation <= b.journal.generation
    && (a.journal.generation < U64_MAX ==> a.journal.generation < b.journal.generation)
    && (b.disk == a.disk || b.disk.generation > a.journal.generation)
    && QuietOrder(a.journal.steps, Acts(a, b))
    && (succeeded ==>
          && b.journal == CleanJournal(b.journal.generation) && b.disk == b.journal && !b.attached
          && Accounted(a.journal.steps, Acts(a, b))
          && Saves(a, b) != [] && AllSaved(Saves(a, b)[1..])
          && (forall k :: Restore(k, false) in Acts(a, b) ==> k == InterfaceConfiguration || k == Dns))
    && (!succeeded ==>
          && OnlyRestores(a.journal.steps, b.journal.steps)
          && b.journal == AsRecovering(a.journal).(
               phase := RecoveryRequired, steps := b.journal.steps, generation := b.journal.generation))
    && (Healthy(Saves(a, b), Acts(a, b)) ==>
          && (succeeded <==> FinishesInOnePass(policy, AsRecovering(a.journal)))
          && (!succeeded ==> AllRestored(b.journal.steps)))
  }

  /** The scene after the transitional save that opens a recovery. */
  ghost predicate Entered(a: Scene, p: Scene, first: SaveOutcome) {
    && p.journal == Bumped(AsRecovering(a.journal))
    && p.acts == a.acts && p.saves == a.saves + [first] && p.attached == a.attached
    && p.disk == (if first == Saved then p.journal else a.disk)
    && (first == Saved ==> p.journal.generation > a.journal.generation)
  }

  lemma EnteredHealthy(policy: Policy, a: Scene, p: Scene, s: Scene, b: Scene, first: SaveOutcome, failures: seq<Failure>)
    requires Entered(a, p, first) && Conducted(policy, p, s, failures)
    requires s.saves <= b.saves && b.acts == s.acts
    requires Healthy(Saves(a, b), Acts(a, b))
    ensures AllRestored(s.journal.steps)
    ensures failures == [] <==> FinishesInOnePass(policy, AsRecovering(a.journal))
  {
    HealthyInside(a, p, s, b, first);
    HealthyVerdict(policy, p, s, failures);
    GenerationIgnored(policy, AsRecovering(a.journal), p.journal.generation);
    hide Healthy, AllRestored, Accepted, Conducted, Nameless, AsRecovering;
    assert p.journal == AsRecovering(a.journal).(generation := p.journal.generation);
  }

  lemma HealthyInside(a: Scene, p: Scene, s: Scene, b: Scene, first: SaveOutcome)
    requires p.acts == a.acts && p.saves == a.saves + [first]
    requires p.saves <= s.saves <= b.saves && p.acts <= s.acts == b.acts
    requires Healthy(Saves(a, b), Acts(a, b))
    ensures Healthy(Saves(p, s), Acts(p, s))
  {
    assert forall i :: 0 <= i < |Saves(p, s)| ==> Saves(p, s)[i] == Saves(a, b)[i + 1];
    assert Acts(p, s) == Acts(a, b);
  }

  lemma RecoveryFails(
    policy: Policy, a: Scene, p: Scene, s: Scene, b: Scene, first: SaveOutcome, last: SaveOutcome, failures: seq<Failure>)
    requires Entered(a, p, first) && Conducted(policy, p, s, failures) && failures != []
    requires b.journal == Bumped(s.journal.(phase := RecoveryRequired))
    requires b.acts == s.acts && b.saves == s.saves + [last]
    requires b.disk == if last == Saved then b.journal else s.disk
    requires last == Saved ==> b.journal.generation > s.journal.generation
    ensures Verdict(policy, a, b, false)
  {
    hide QuietOrder, Healthy, FinishesInOnePass, Justified, Reported, Grounded, Validated, AllRestored, AllSaved, Matching,
         DistinctKinds;
    assert Acts(a, b) == Acts(p, s);
    if Healthy(Saves(a, b), Acts(a, b)) {
      EnteredHealthy(policy, a, p, s, b, first, failures);
    }
  }

  lemma RecoveryUnpublished(
    policy: Policy, a: Scene, p: Scene, s: Scene, b: Scene, first: SaveOutcome, refused: SaveOutcome, last: SaveOutcome)
    requires Entered(a, p, first) && Conducted(policy, p, s, [])
    requires refused == Unwritten || refused == Overflow
    requires b.journal.(generation := 0) == s.journal.(phase := RecoveryRequired, generation := 0)
    requires b.journal.generation >= s.journal.generation
    requires b.acts == s.acts && b.saves == s.saves + [refused] + [last]
    requires b.disk == if last == Saved then b.journal else s.disk
    requires last == Saved ==> b.journal.generation > s.journal.generation
    ensures Verdict(policy, a, b, false)
  {
    assert Acts(a, b) == Acts(p, s);
    assert Saves(a, b)[|Saves(p, s)| + 1] == refused;
  }

  lemma RecoverySucceeds(
    policy: Policy, a: Scene, p: Scene, s: Scene, b: Scene, first: SaveOutcome)
    requires Entered(a, p, first) && Conducted(policy, p, s, [])
    requires b.journal == CleanJournal(s.journal.generation + 1) && b.disk == b.journal
    requires b.acts == s.acts && b.saves == s.saves + [Saved] && b.attached == s.attached
    ensures Verdict(policy, a, b, true)
  {
    hide QuietOrder, Healthy, FinishesInOnePass, Validated;
    assert Acts(a, b) == Acts(p, s);
    JustifiedAccounts(p.journal.steps, s.journal.steps, Acts(p, s));
    assert Saves(a, b)[1..] == Saves(p, s) + [Saved];
    if Healthy(Saves(a, b), Acts(a, b)) {
      EnteredHealthy(policy, a, p, s, b, first, []);
    }
  }

  /**
    What a failed recovery reports: each restore that failed, unless its step was
    settled by its adapter's removal, and none that did not; each lost write after
    the transitional one exactly once, and beside them at most the transitional
    one, which is left out only when the pass itself had nothing to report.
  */
  ghost predicate Explained(a: Scene, b: Scene, failures: seq<Failure>) {
    && failures != []
    && Reported(b.journal.steps, Acts(a, b), failures) && Blamed(Acts(a, b), failures)
    && Saves(a, b) != []
    && multiset(Losses(Saves(a, b)[1..])) <= multiset(Lost(failures)) <= multiset(Losses(Saves(a, b)))
    && ((exists k :: RestoreFailed(k) in failures) ==> multiset(Lost(failures)) == multiset(Losses(Saves(a, b))))
  }

  function Unsaved(outcome: SaveOutcome): seq<Failure> {
    if outcome == Saved then [] else [PersistFailed(None, outcome)]
  }

  lemma LostUnsaved(outcome: SaveOutcome)
    ensures Lost(Unsaved(outcome)) == Losses([outcome])
  {
    LossesOne(outcome);
    LostOne(PersistFailed(None, outcome));
  }

  /** The lost writes of a failed pass, with the two writes around it. */
  lemma FailedLosses(failures: seq<Failure>, first: SaveOutcome, saves: seq<SaveOutcome>, last: SaveOutcome)
    requires Persisted(saves, failures)
    ensures
      var reported := multiset(Lost(failures + Unsaved(first) + Unsaved(last)));
      && reported == multiset(Losses([first] + (saves + [last])))
      && multiset(Losses(saves + [last])) <= reported
  {
    LostUnsaved(first);
    LostUnsaved(last);
    LostConcat(failures + Unsaved(first), Unsaved(last));
    LostConcat(failures, Unsaved(first));
    LossesConcat([first], saves + [last]);
    LossesConcat(saves, [last]);
    hide Lost, Losses;
    Permuted(Losses([first]), Losses(saves), Losses([last]));
  }

  lemma Permuted(f: seq<SaveOutcome>, m: seq<SaveOutcome>, l: seq<SaveOutcome>)
    ensures multiset(m + f + l) == multiset(f + (m + l))
    ensures multiset(m + l) <= multiset(m + f + l)
  {
    assert multiset(m + f + l) == multiset(m) + multiset(f) + multiset(l);
    assert multiset(f + (m + l)) == multiset(f) + (multiset(m) + multiset(l));
    assert multiset(m + l) == multiset(m) + multiset(l);
  }

  /** The lost writes when Clean could not be saved after a pass that lost none. */
  lemma UnpublishedLosses(first: SaveOutcome, saves: seq<SaveOutcome>, refused: SaveOutcome, last: SaveOutcome)
    requires AllSaved(saves) && refused != Saved
    ensures
      var reported := multiset(Lost([PersistFailed(None, refused)] + Unsaved(last)));
      && reported == multiset(Losses(saves + ([refused] + [last])))
      && reported <= multiset(Losses([first] + (saves + ([refused] + [last]))))
  {
    LostUnsaved(refused);
    LostUnsaved(last);
    LostConcat([PersistFailed(None, refused)], Unsaved(last));
    NoLosses(saves);
    var rest := [refused] + [last];
    LossesConcat([first], saves + rest);
    LossesConcat(saves, rest);
    LossesConcat([refused], [last]);
    hide Lost, Losses;
    assert [] + Losses(rest) == Losses(rest);
    assert multiset(Losses([first]) + Losses(rest)) == multiset(Losses([first])) + multiset(Losses(rest));
  }

  /** The logs of a whole recovery are those of its pass, between its own writes. */
  lemma Enclosed(a: Scene, p: Scene, s: Scene, b: Scene, first: SaveOutcome, more: seq<SaveOutcome>)
    requires p.acts == a.acts && p.saves == a.saves + [first] && p.saves <= s.saves && p.acts <= s.acts
    requires b.acts == s.acts && b.saves == s.saves + more
    ensures Acts(a, b) == Acts(p, s)
    ensures Saves(a, b) == [first] + (Saves(p, s) + more) && Saves(a, b)[1..] == Saves(p, s) + more
  {
  }

  lemma NoRestoreFailedUnsaved(failures: seq<Failure>, more: seq<Failure>)
    requires forall k :: RestoreFailed(k) !in more
    ensures forall k :: RestoreFailed(k) in failures + more <==> RestoreFailed(k) in failures
  {
  }

  lemma FailureExplained(
    policy: Policy, a: Scene, p: Scene, s: Scene, b: Scene, first: SaveOutcome, last: SaveOutcome, failures: seq<Failure>)
    requires Entered(a, p, first) && Conducted(policy, p, s, failures) && failures != []
    requires b.journal.steps == s.journal.steps && b.acts == s.acts && b.saves == s.saves + [last]
    ensures Explained(a, b, failures + Unsaved(first) + Unsaved(last))
  {
    hide Acts, Saves, Lost, Losses, QuietOrder, Justified, AllRestored, AllSaved, Grounded, OnlyRestores, Validated,
         AsRecovering, Bumped, Unrestored;
    Enclosed(a, p, s, b, first, [last]);
    FailedLosses(failures, first, Saves(p, s), last);
    NoRestoreFailedUnsaved(failures, Unsaved(first));
    NoRestoreFailedUnsaved(failures + Unsaved(first), Unsaved(last));
  }

  lemma UnpublishedExplained(
    policy: Policy, a: Scene, p: Scene, s: Scene, b: Scene, first: SaveOutcome, refused: SaveOutcome, last: SaveOutcome)
    requires Entered(a, p, first) && Conducted(policy, p, s, []) && refused != Saved
    requires b.journal.steps == s.journal.steps && b.acts == s.acts && b.saves == s.saves + ([refused] + [last])
    ensures Explained(a, b, [PersistFailed(None, refused)] + Unsaved(last))
  {
    hide Acts, Saves, Lost, Losses, QuietOrder, Justified, AllRestored, AllSaved, Grounded, OnlyRestores, Validated,
         AsRecovering, Bumped, Unrestored;
    Enclosed(a, p, s, b, first, [refused] + [last]);
    UnpublishedLosses(first, Saves(p, s), refused, last);
    NoRestoreFailedUnsaved([], [PersistFailed(None, refused)] + Unsaved(last));
  }

  lemma NothingUnrestored(policy: Policy, p: Scene, s: Scene)
    requires Conducted(policy, p, s, [])
    ensures AllRestored(s.journal.steps) && !s.attached
  {
  }

  lemma VerdictSteady(policy: Policy, a: Scene, b: Scene, succeeded: bool, x: View, y: View)
    requires x.trail <= y.trail
    requires Verdict(policy, a, b, succeeded) && a.journal.phase != Clean
    requires x.journal == a.journal && x.disk == a.disk && y.journal == b.journal && y.disk == b.disk
    requires x.disk.generation <= x.journal.generation
    requires x.transactions == y.transactions && x.recoveries < y.recoveries
    ensures Steady(x, y)
    ensures y.journal.phase == if succeeded then Clean else RecoveryRequired
  {
    hide Healthy, FinishesInOnePass, Accounted, QuietOrder;
  }

  lemma VerdictFacts(policy: Policy, a: Scene, b: Scene, succeeded: bool)
    requires Verdict(policy, a, b, succeeded)
    ensures a.acts <= b.acts && |a.acts| < |b.acts|
    ensures a.journal.generation < b.journal.generation || a.journal.generation >= U64_MAX
  {
    hide Healthy, FinishesInOnePass, Accounted;
    assert Acts(a, b) != [];
  }

  // ------------------------------------------------------ reconciliation at rest

  /** Marks the first `n` steps' dependencies that a removed adapter settles. */
  function Reconciled(steps: seq<Record>, n: nat): (after: seq<Record>)
    requires n <= |steps|
    ensures |after| == |steps|
  {
    if n == 0 then steps
    else
      var earlier := Reconciled(steps, n - 1);
      if DependencySatisfied(steps, n - 1) then MarkRestored(earlier, n - 1) else earlier
  }

  /** Reconciliation marks exactly the settled dependencies and stays safe. */
  lemma {:induction false} ReconciledKeeps(j: Journal, os: set<Resource>, n: nat)
    requires Safe(j, os) && n <= |j.steps| && !Working(j.phase) && j.phase != Clean
    ensures Safe(j.(steps := Reconciled(j.steps, n)), os)
    ensures OnlyRestores(j.steps, Reconciled(j.steps, n))
    ensures forall i :: 0 <= i < |j.steps| && (i >= n || !DependencySatisfied(j.steps, i)) ==>
              Reconciled(j.steps, n)[i] == j.steps[i]
    ensures forall i :: 0 <= i < n && DependencySatisfied(j.steps, i) ==>
              Reconciled(j.steps, n)[i].state == Restored
  {
    hide Safe, DependencySatisfied, Destroyed, Working;
    if n > 0 {
      ReconciledKeeps(j, os, n - 1);
      if DependencySatisfied(j.steps, n - 1) {
        DependencyIsGone(j, os, n - 1);
        MarkKeeps(j.(steps := Reconciled(j.steps, n - 1)), os, n - 1);
      }
    }
  }

  /** After a healthy pass that could not finish, one more healthy pass does. */
  lemma TwoHealthyPassesSuffice(policy: Policy, a: Scene, b: Scene, c: Scene, finished: bool)
    requires Verdict(policy, a, b, false) && Healthy(Saves(a, b), Acts(a, b))
    requires Verdict(policy, b, c, finished) && Healthy(Saves(b, c), Acts(b, c))
    ensures finished
  {
    hide Accepted, Accounted, QuietOrder, OnlyRestores, Healthy;
  }

  /** A valid journal that no healthy pass can finish at once: its adapter was
      planned, as the Windows backend plans one, without an interface number. */
  lemma OnePassIsNotEnough(plan: Plan)
    ensures
      var policy := Policy(_ => true, (_, _) => true);
      var planned := Record(WintunAdapter, Intended, AdapterReceipt(5, 0));
      var j := Journal(6, 2, Preparing, Some(Tunnel), Some(1), Some("S-1"), Some(7), Some(plan), None, [planned]);
      Accepted(policy, j) && Accepted(policy, AsRecovering(j)) && !FinishesInOnePass(policy, AsRecovering(j))
  {
    var planned := Record(WintunAdapter, Intended, AdapterReceipt(5, 0));
    assert [planned][0].state != Restored && Nameless([planned][0]);
  }

  /** Another such journal: a refused save left in memory an intent whose receipt
      is not accepted, though the journal without it is. */
  lemma RejectedIntentIsNotEnough(plan: Plan)
    ensures
      var policy := Policy(_ => true, (receipt: Receipt, _) => !receipt.BypassReceipt?);
      var intended := Record(EndpointBypass, Intended, BypassReceipt(1, 0));
      var j := Journal(6, 2, Preparing, Some(Tunnel), Some(1), Some("S-1"), Some(7), Some(plan), None, [intended]);
      Accepted(policy, j.(steps := [])) && !Accepted(policy, j) && !FinishesInOnePass(policy, AsRecovering(j))
  {
    var intended := Record(EndpointBypass, Intended, BypassReceipt(1, 0));
    assert [intended][0].state != Restored;
    assert [intended][0].receipt.BypassReceipt?;
  }
}
