/**
  The Agent's write-ahead recovery journal: records, receipts and the OS
  resources they name, validation, and loading with migration.
  The managed device and the replacement record are absent throughout.
*/
module Journals {
  import opened Wrappers

  type Uuid = nat  // 0 is the nil UUID

  const U64_MAX: nat := 0xFFFF_FFFF_FFFF_FFFF
  const SCHEMA_VERSION: nat := 6
  const MAX_STEPS: nat := 16
  const WFP_PROVIDER_KEY: Uuid := 0x6d70fda5_3fa2_4c36_a86c_88650b58f013
  const WFP_SUBLAYER_KEY: Uuid := 0xc93b7042_7b1e_4ab5_96ba_96b4539b67ec

  datatype Phase = Clean | Preparing | Prepared | Active | Paused | Recovering | RecoveryRequired

  datatype Operation = Tunnel | ProxyOnly

  datatype Kind =
    | WintunAdapter | EndpointBypass | KillSwitch | InterfaceConfiguration | Dns
    | PacketSession | DefaultRoutes | SystemProxy | WfpMetadata

  datatype State = Intended | Applied | Restored

  /** Each receipt keeps the fields that identify its resource; `snapshot` stands
      for the previous values to put back and `learned` for what the OS reports. */
  datatype Receipt =
    | AdapterReceipt(guid: Uuid, luid: nat)
    | BypassReceipt(identity: nat, snapshot: nat)
    | KillSwitchReceipt(identity: nat, learned: nat)
    | InterfaceReceipt(luid: nat, snapshot: nat)
    | DnsReceipt(guid: Uuid, snapshot: nat)
    | SessionReceipt(session: Uuid, capacity: nat)
    | RoutesReceipt(identity: nat, snapshot: nat)
    | ProxyReceipt(user: string, operation: Uuid, snapshot: nat)
    | MetadataReceipt(provider: Uuid, sublayer: Uuid)
  {
    function Kind(): Kind {
      match this
      case AdapterReceipt(_, _) => WintunAdapter
      case BypassReceipt(_, _) => EndpointBypass
      case KillSwitchReceipt(_, _) => KillSwitch
      case InterfaceReceipt(_, _) => InterfaceConfiguration
      case DnsReceipt(_, _) => Dns
      case SessionReceipt(_, _) => PacketSession
      case RoutesReceipt(_, _) => DefaultRoutes
      case ProxyReceipt(_, _, _) => SystemProxy
      case MetadataReceipt(_, _) => WfpMetadata
    }
  }

  /** An OS resource, identified the way the backend identifies it. */
  datatype Resource =
    | AdapterDevice(guid: Uuid)
    | InterfaceState(luid: nat)
    | DnsState(guid: Uuid)
    | UserProxy(user: string, operation: Uuid)
    | Entry(kind: Kind, identity: nat)

  function Names(receipt: Receipt): Resource {
    match receipt
    case AdapterReceipt(guid, _) => AdapterDevice(guid)
    case InterfaceReceipt(luid, _) => InterfaceState(luid)
    case DnsReceipt(guid, _) => DnsState(guid)
    case SessionReceipt(session, _) => Entry(PacketSession, session)
    case ProxyReceipt(user, operation, _) => UserProxy(user, operation)
    case MetadataReceipt(provider, _) => Entry(WfpMetadata, provider)
    case BypassReceipt(identity, _) => Entry(EndpointBypass, identity)
    case KillSwitchReceipt(identity, _) => Entry(KillSwitch, identity)
    case RoutesReceipt(identity, _) => Entry(DefaultRoutes, identity)
  }

  /** What is gone once the backend confirms a restore: the named resource and,
      for an adapter, the interface and DNS state that lived on it. */
  function Destroyed(receipt: Receipt): set<Resource> {
    {Names(receipt)} +
    if receipt.AdapterReceipt? then {InterfaceState(receipt.luid), DnsState(receipt.guid)} else {}
  }

  datatype Record = Record(kind: Kind, state: State, receipt: Receipt)

  datatype Plan = Plan(
    profile: Uuid,
    endpoint: nat,
    endpointCandidates: seq<nat>,
    controlCandidates: seq<nat>,
    mtu: nat,
    dnsServers: seq<nat>,
    splitExclusions: seq<nat>,
    allowLan: bool,
    killSwitch: bool,
    splitDns: bool,
    assignedIpv4: Option<nat>,
    assignedIpv6: Option<nat>,
    vpnChain: bool,
    deferred: bool,
    automaticPolicy: Option<nat>,
    presetPolicy: Option<nat>)

  datatype Journal = Journal(
    schema: nat,
    generation: nat,
    phase: Phase,
    operationKind: Option<Operation>,
    operation: Option<Uuid>,
    ownerSid: Option<string>,
    ownerProcess: Option<nat>,
    plan: Option<Plan>,
    pauseDeadline: Option<int>,
    steps: seq<Record>)

  /** The checks on addresses, routes and plan fields that recovery never reads. */
  datatype Policy = Policy(planAccepted: Plan -> bool, contentAccepted: (Receipt, Option<Plan>) -> bool)

  datatype JournalError =
    | SchemaError | TooManySteps | ReceiptMismatch(kind: Kind) | DuplicateRecord(kind: Kind)
    | InvalidCleanState | MissingOwner | InvalidOwnerSid | PlanMissing | PlanRejected
    | InvalidOperationShape | UnsafeReceipt(kind: Kind) | PauseDeadlineError

  function CleanJournal(generation: nat): Journal {
    Journal(SCHEMA_VERSION, generation, Clean, None, None, None, None, None, None, [])
  }

  function Disconnected(j: Journal): Journal {
    CleanJournal(j.generation)
  }

  /** The first adapter receipt, in any state. */
  function AdapterOf(steps: seq<Record>): Option<Receipt> {
    if steps == [] then None
    else if steps[0].kind == WintunAdapter then Some(steps[0].receipt)
    else AdapterOf(steps[1..])
  }

  function AdapterLuid(steps: seq<Record>): Option<nat> {
    var adapter := AdapterOf(steps);
    if adapter.Some? && adapter.value.AdapterReceipt? then Some(adapter.value.luid) else None
  }

  predicate ValidSid(sid: string) {
    |sid| >= 2 && sid[..2] == "S-" && |sid| <= 256 &&
    forall i :: 2 <= i < |sid| ==> '0' <= sid[i] <= '9' || sid[i] == '-'
  }

  predicate PowerOfTwo(n: nat) {
    n == 1 || (n > 1 && n % 2 == 0 && PowerOfTwo(n / 2))
  }

  predicate ValidCapacity(capacity: nat) {
    128 * 1024 <= capacity <= 64 * 1024 * 1024 && PowerOfTwo(capacity)
  }

  // ---------------------------------------------------------------- validation

  function RecordErrors(steps: seq<Record>, seen: set<Kind>): Option<JournalError> {
    if steps == [] then None
    else if steps[0].kind != steps[0].receipt.Kind() then Some(ReceiptMismatch(steps[0].kind))
    else if steps[0].kind in seen then Some(DuplicateRecord(steps[0].kind))
    else RecordErrors(steps[1..], seen + {steps[0].kind})
  }

  predicate ReceiptAccepted(
    policy: Policy, record: Record, plan: Option<Plan>, adapterLuid: Option<nat>, owner: string, operation: Uuid)
  {
    && (record.kind != SystemProxy ==> plan.Some?)
    && policy.contentAccepted(record.receipt, plan)
    && match record.receipt
       case AdapterReceipt(guid, luid) => guid != 0 && (record.state != Intended ==> luid != 0)
       case InterfaceReceipt(luid, _) => luid != 0 && adapterLuid == Some(luid)
       case DnsReceipt(guid, _) => guid != 0
       case SessionReceipt(session, capacity) => session != 0 && ValidCapacity(capacity)
       case ProxyReceipt(user, op, _) => user == owner && ValidSid(user) && op == operation
       case MetadataReceipt(provider, sublayer) =>
         && plan.Some? && (plan.value.automaticPolicy.Some? || plan.value.presetPolicy.Some?)
         && provider == WFP_PROVIDER_KEY && sublayer == WFP_SUBLAYER_KEY
       case _ => true
  }

  function ReceiptErrors(
    policy: Policy, steps: seq<Record>, plan: Option<Plan>, adapterLuid: Option<nat>, owner: string, operation: Uuid)
    : Option<JournalError>
  {
    if steps == [] then None
    else if !ReceiptAccepted(policy, steps[0], plan, adapterLuid, owner, operation) then
      Some(UnsafeReceipt(steps[0].kind))
    else ReceiptErrors(policy, steps[1..], plan, adapterLuid, owner, operation)
  }

  function ShapeErrors(policy: Policy, j: Journal): Option<JournalError>
    requires j.operationKind.Some?
  {
    match j.operationKind.value
    case Tunnel =>
      if j.plan.None? then Some(PlanMissing)
      else if !policy.planAccepted(j.plan.value) then Some(PlanRejected)
      else if j.plan.value.deferred && j.phase == Active then Some(InvalidOperationShape)
      else None
    case ProxyOnly =>
      if || j.plan.Some?
         || (exists i :: 0 <= i < |j.steps| && j.steps[i].kind != SystemProxy)
         || |j.steps| > 1
         || j.phase == Prepared || j.phase == Paused
      then Some(InvalidOperationShape)
      else None
  }

  /** The journal validation, in the order the checks are made. */
  function Validate(policy: Policy, j: Journal): Option<JournalError> {
    if j.schema != SCHEMA_VERSION then Some(SchemaError)
    else if |j.steps| > MAX_STEPS then Some(TooManySteps)
    else if RecordErrors(j.steps, {}).Some? then RecordErrors(j.steps, {})
    else if j.phase == Clean then
      if || j.operationKind.Some? || j.operation.Some? || j.ownerSid.Some? || j.ownerProcess.Some?
         || j.plan.Some? || j.pauseDeadline.Some? || j.steps != []
      then Some(InvalidCleanState)
      else None
    else if j.operationKind.None? || j.operation.None? || j.ownerProcess.None? || j.ownerSid.None? then
      Some(MissingOwner)
    else if !ValidSid(j.ownerSid.value) then Some(InvalidOwnerSid)
    else if ShapeErrors(policy, j).Some? then ShapeErrors(policy, j)
    else
      var errors := ReceiptErrors(
        policy, j.steps, j.plan, AdapterLuid(j.steps), j.ownerSid.value, j.operation.value);
      if errors.Some? then errors
      else if (j.phase == Paused) == j.pauseDeadline.None? then Some(PauseDeadlineError)
      else None
  }

  // ------------------------------------------------------- declarative reading

  ghost predicate Matching(steps: seq<Record>) {
    forall i :: 0 <= i < |steps| ==> steps[i].kind == steps[i].receipt.Kind()
  }

  ghost predicate DistinctKinds(steps: seq<Record>) {
    forall i, j :: 0 <= i < j < |steps| ==> steps[i].kind != steps[j].kind
  }

  ghost predicate Accepted(policy: Policy, j: Journal) {
    && j.schema == SCHEMA_VERSION && |j.steps| <= MAX_STEPS
    && Matching(j.steps) && DistinctKinds(j.steps)
    && (j.phase == Clean ==> j == CleanJournal(j.generation))
    && (j.phase != Clean ==>
          && j.operationKind.Some? && j.operation.Some? && j.ownerProcess.Some? && j.ownerSid.Some?
          && ValidSid(j.ownerSid.value)
          && ShapeErrors(policy, j).None?
          && (forall i :: 0 <= i < |j.steps| ==>
                ReceiptAccepted(policy, j.steps[i], j.plan, AdapterLuid(j.steps), j.ownerSid.value, j.operation.value))
          && (j.phase == Paused <==> j.pauseDeadline.Some?))
  }

  ghost predicate Unseen(steps: seq<Record>, seen: set<Kind>) {
    forall i :: 0 <= i < |steps| ==> steps[i].kind !in seen
  }

  /** Distinct kinds, read one step at a time. */
  lemma DistinctStepByStep(first: Record, tail: seq<Record>, seen: set<Kind>)
    ensures Matching([first] + tail) <==> first.kind == first.receipt.Kind() && Matching(tail)
    ensures DistinctKinds([first] + tail) && Unseen([first] + tail, seen) <==>
            first.kind !in seen && DistinctKinds(tail) && Unseen(tail, seen + {first.kind})
  {
    var steps := [first] + tail;
    assert steps[0] == first;
    assert forall i :: 0 <= i < |tail| ==> tail[i] == steps[i + 1];
    assert forall i :: 1 <= i < |steps| ==> steps[i] == tail[i - 1];
  }

  lemma {:induction false} RecordErrorsMeans(steps: seq<Record>, seen: set<Kind>)
    ensures RecordErrors(steps, seen).None? <==> Matching(steps) && DistinctKinds(steps) && Unseen(steps, seen)
    decreases |steps|
  {
    if steps != [] {
      assert steps == [steps[0]] + steps[1..];
      DistinctStepByStep(steps[0], steps[1..], seen);
      RecordErrorsMeans(steps[1..], seen + {steps[0].kind});
    }
  }

  lemma {:induction false} ReceiptErrorsMeans(
    policy: Policy, steps: seq<Record>, plan: Option<Plan>, adapterLuid: Option<nat>, owner: string, operation: Uuid)
    ensures ReceiptErrors(policy, steps, plan, adapterLuid, owner, operation).None? <==>
            forall i :: 0 <= i < |steps| ==>
              ReceiptAccepted(policy, steps[i], plan, adapterLuid, owner, operation)
    decreases |steps|
  {
    if steps != [] {
      ReceiptErrorsMeans(policy, steps[1..], plan, adapterLuid, owner, operation);
      assert forall i :: 1 <= i < |steps| ==> steps[i] == steps[1..][i - 1];
    }
  }

  /** The sequential checks accept exactly the journals of the declarative reading. */
  lemma ValidateMeansAccepted(policy: Policy, j: Journal)
    ensures Validate(policy, j).None? <==> Accepted(policy, j)
  {
    RecordErrorsMeans(j.steps, {});
    if j.phase != Clean && j.ownerSid.Some? && j.operation.Some? {
      ReceiptErrorsMeans(
        policy, j.steps, j.plan, AdapterLuid(j.steps), j.ownerSid.value, j.operation.value);
    }
  }

  // ------------------------------------------------------- loading and migration

  predicate EndpointPolicy(plan: Option<Plan>) {
    plan.Some? && (plan.value.automaticPolicy.Some? || plan.value.presetPolicy.Some?)
  }

  /** Reads a stored journal, if any, raising the older schemas this version knows. */
  function Load(policy: Policy, stored: Option<Journal>): Result<Journal, JournalError> {
    match stored
    case None => Ok(CleanJournal(0))
    case Some(j) =>
      if j.schema < 6 && j.plan.Some? && j.plan.value.presetPolicy.Some? then Err(SchemaError)
      else if && (j.schema == 2 || j.schema == 3)
              && (EndpointPolicy(j.plan) || exists i :: 0 <= i < |j.steps| && j.steps[i].kind == WfpMetadata)
      then Err(SchemaError)
      else
        var current := if 2 <= j.schema <= 5 then j.(schema := SCHEMA_VERSION) else j;
        match Validate(policy, current)
        case None => Ok(current)
        case Some(error) => Err(error)
  }

  /**
    Loading accepts exactly the valid journals of schemas 2 to 6 whose features
    existed in their schema, changes only the schema number, and returns a
    journal written by this version unchanged.
  */
  lemma LoadMeans(policy: Policy, j: Journal)
    ensures Load(policy, Some(j)).Ok? <==>
              && 2 <= j.schema <= 6 && Accepted(policy, j.(schema := SCHEMA_VERSION))
              && (j.schema < 6 ==> !(j.plan.Some? && j.plan.value.presetPolicy.Some?))
              && (j.schema < 4 ==>
                    !EndpointPolicy(j.plan) && forall i :: 0 <= i < |j.steps| ==> j.steps[i].kind != WfpMetadata)
    ensures Load(policy, Some(j)).Ok? ==> Load(policy, Some(j)).value == j.(schema := SCHEMA_VERSION)
    ensures Accepted(policy, j) ==> Load(policy, Some(j)) == Ok(j)
  {
    ValidateMeansAccepted(policy, j);
    ValidateMeansAccepted(policy, j.(schema := SCHEMA_VERSION));
  }
}
