/**
  The tunnel lease as a log of lease events. The Agent keeps only the flag and a
  64-bit epoch that wraps; a watchdog carries the epoch at which it was armed.
*/
module Leases {
  const EPOCHS: nat := 0x1_0000_0000_0000_0000

  datatype LeaseEvent =
    | Acquired | Released | ReleasedUnsaved | StartupReleased | UnleasedTransition | RecoveryBegan
  {
    predicate Arms() { Released? || StartupReleased? }
  }

  function Attached(log: seq<LeaseEvent>): bool {
    if log == [] then false
    else
      match log[|log| - 1]
      case Acquired => true
      case Released => false
      case ReleasedUnsaved => false
      case RecoveryBegan => false
      case StartupReleased => Attached(log[..|log| - 1])
      case UnleasedTransition => Attached(log[..|log| - 1])
  }

  /** How often the epoch was advanced. */
  function Bumps(log: seq<LeaseEvent>): nat {
    if log == [] then 0
    else Bumps(log[..|log| - 1]) + if log[|log| - 1].ReleasedUnsaved? then 0 else 1
  }

  function Recoveries(log: seq<LeaseEvent>): nat {
    if log == [] then 0
    else Recoveries(log[..|log| - 1]) + if log[|log| - 1].RecoveryBegan? then 1 else 0
  }

  function Epoch(log: seq<LeaseEvent>): nat {
    Bumps(log) % EPOCHS
  }

  /** A lease is acquired only when free and released only when held. */
  ghost predicate Legal(log: seq<LeaseEvent>) {
    log != [] ==>
      var before, last := log[..|log| - 1], log[|log| - 1];
      && Legal(before)
      && (last.Acquired? || last.StartupReleased? || last.UnleasedTransition? ==> !Attached(before))
      && (last.Released? || last.ReleasedUnsaved? ==> Attached(before))
  }

  lemma {:induction false} LegalPrefix(log: seq<LeaseEvent>, at: nat)
    requires Legal(log) && at <= |log|
    ensures Legal(log[..at])
    decreases |log|
  {
    if at < |log| {
      LegalPrefix(log[..|log| - 1], at);
      assert log[..|log| - 1][..at] == log[..at];
    } else {
      assert log[..at] == log;
    }
  }

  lemma {:induction false} BumpsGrow(log: seq<LeaseEvent>, at: nat)
    requires at <= |log|
    ensures Bumps(log[..at]) <= Bumps(log) <= Bumps(log[..at]) + |log| - at
    decreases |log|
  {
    if at < |log| {
      BumpsGrow(log[..|log| - 1], at);
      assert log[..|log| - 1][..at] == log[..at];
    } else {
      assert log[..at] == log;
    }
  }

  lemma BumpsAppend(log: seq<LeaseEvent>, event: LeaseEvent)
    ensures Bumps(log + [event]) == Bumps(log) + if event.ReleasedUnsaved? then 0 else 1
    ensures Epoch(log + [event]) == if event.ReleasedUnsaved? then Epoch(log) else (Epoch(log) + 1) % EPOCHS
    ensures Recoveries(log + [event]) == Recoveries(log) + if event.RecoveryBegan? then 1 else 0
    ensures Attached(log + [event]) ==
              if event.Acquired? then true
              else if event.StartupReleased? || event.UnleasedTransition? then Attached(log) else false
    ensures Legal(log + [event]) <==>
              && Legal(log)
              && (event.Acquired? || event.StartupReleased? || event.UnleasedTransition? ==> !Attached(log))
              && (event.Released? || event.ReleasedUnsaved? ==> Attached(log))
  {
    assert (log + [event])[..|log|] == log;
  }

  /**
    A watchdog armed by event `at` sees its own epoch again, within one wrap of
    the counter, only if no lease was acquired or released, no unleased chain
    transition began and no recovery ran since it was armed.
  */
  lemma NothingSinceArming(log: seq<LeaseEvent>, at: nat)
    requires Legal(log) && 0 < at <= |log| && log[at - 1].Arms()
    requires Epoch(log) == Epoch(log[..at])
    requires |log| - at < EPOCHS
    ensures at == |log|
  {
    if at < |log| {
      LegalPrefix(log, at + 1);
      LegalPrefix(log, at);
      assert log[..at + 1][..at] == log[..at];
      assert log[..at][..at - 1] == log[..at - 1];
      assert !Attached(log[..at]);
      BumpsGrow(log, at + 1);
      var d := Bumps(log) - Bumps(log[..at]);
      assert 1 <= d < EPOCHS;
      WithinOneWrap(Bumps(log[..at]), d);
    }
  }

  lemma WithinOneWrap(base: nat, d: nat)
    requires 1 <= d < EPOCHS
    ensures (base + d) % EPOCHS != base % EPOCHS
  {
  }
}
