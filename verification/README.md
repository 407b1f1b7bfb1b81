# usque: verified models

Dafny models of the parts of usque whose correctness spans many calls, with proofs about every
input, every run or every reachable state.

| files | what they model |
|---|---|
| `Journal`, `Safety`, `Platform`, `Recovery`, `Leases`, `Runs`, `Coordinator`, `Lifetimes` | the privileged Agent: its recovery journal, the transaction coordinator, the tunnel lease, and whole lives of the process with crashes at any moment |
| `Numbers`, `Fermat`, `Srp` | the Secure Remote Password arithmetic: primality test, modulus check, client proofs |
| `ChallengeJson`, `Parsing`, `Parser`, `Printing` | the verification bridge's bounded JSON parser |
| `Challenge` | percent decoding, the token test and the CAPTCHA rewriting of the challenge URL |
| `Flow` | the account experiment's session bookkeeping and its cleanup on every exit |
| `Diagnostics` | the cycle check of the diagnostic contract |
| `Packaging` | the library closure of the Linux package |
| `TunSlab` | the Android tunnel's packet slab |

`dafny verify dfyconfig.toml` checks everything.

## How the Agent is modelled

A `Platform` is the machine: the durable journal, the set of operating-system resources the Agent
created, and the list of *moments*, one for every instant at which the process could die. A
`Coordinator` is one Agent process over a platform. Every save and every backend call may fail;
a save that fails leaves the file as it was, a failed mutation may or may not have created its
resource, a failed restore may or may not have removed it. `Coordinator.Inv` is kept by every
operation. It says, among other things, that at every moment each resource is named by a step of
the durable journal that is not yet Restored, that the journal can be loaded again, that step
kinds are pairwise distinct, that a tunnel asking for the kill switch has default routes only
under an applied kill switch, and that memory is Clean only when the disk is. `Runs.Step` is what
one call may change; runs are sequences of such steps, and lives are runs cut off by a crash.
`Runs.History` relates the durable journals of all lives: each one equals its predecessor or has
a larger generation, and between two clean journals there is one transaction, which once in
recovery stays there and which keeps an applied kill switch for as long as it is working.

Two calls guard the machine against a late or repeated recovery: a watchdog fires only for the
state it was armed in, and a retry only for one operation and generation. Both are stated of a single
call (`RecoverOrphan`, `RecoverGuarded`) and of whole runs of requests (`Watch`, `RetryTwice`), because
every call keeps the history of lease events, the armed watchdogs and the used retries as prefixes
and subsets of the new ones. The questions put to the backend, with their answers, are logged in
`Platform.asked`, so a contract can say which answer a decision rests on.

Three properties that one might expect are false of the code, and each is proved with its exact
condition:

- *One healthy recovery pass always ends Clean.* It does exactly when every step is already
  Restored, or the journal in memory is valid and no unrestored adapter lacks its interface number
  (`FinishesInOnePass`). There are two kinds of failing input. The Windows backend plans an adapter
  with interface number 0 (`crates/usque-agent/src/windows/backend.rs`, lines 216 to 220), so a
  failure right after the intent leaves such a step, and the journal refuses to record it as
  Restored. And an intent whose receipt the journal rejects stays in memory after its refused save,
  so no later write of that journal is accepted. In both the pass ends in RecoveryRequired with
  every resource removed, and a second healthy pass always suffices.
- *A lowered uncertainty flag means that no session request is unresolved.* It does exactly when
  the log of the run shows no request that changes a session answered by a challenge outside 400 to
  499 and then repeated: accepting the repeat lowers the flag that the first request raised. The
  failing run is given: a challenge with status 200 and code 9001, a complete reply to the repeat,
  then a refusal; it is reported as revoked.
- *Rewriting a bound challenge URL leaves it bound.* It does exactly when the old URL is at most
  16357 bytes longer than the pairs that are replaced (16384 less the 27 bytes of the new pairs); a
  URL of the greatest length carries its token before and not after.

Two properties hold only within a machine word: a guarded retry is used up for every generation
below 2^64 - 1, and a watchdog is told apart from any other within one wrap of the 64-bit epoch.

Where the comments of `tool/proton_poc/flow.py` (lines 162 and 163) speak of a complete response
ending the uncertainty, the code ends it only on a client error or on a session taken in; the model
follows the code.

## Model

| member | source | states |
|---|---|---|
| `Journals.ValidateMeansAccepted` | crates/usque-agent/src/journal.rs:321-458 | the sequential validation accepts exactly the journals of a declarative reading: known schema, matching and pairwise distinct step kinds, coherent phase, and an acceptable receipt for every step |
| `Journals.LoadMeans` | crates/usque-agent/src/journal.rs:759-828 | loading succeeds exactly for valid journals of schemas 2 to 6 that use only features of their schema, changes nothing but the schema number, and returns a current journal unchanged |
| `Platforms.Platform.Save` | crates/usque-agent/src/journal.rs:830-887 | a save bumps the generation, refuses an invalid journal, and either replaces the durable journal or leaves it as it was |
| `Recovery.OrderIsComplete` | crates/usque-agent/src/coordinator.rs:1804-1822 | the restore order visits every unrestored step exactly once and no other, an unrestored packet session first and an unrestored kill switch right after it |
| `Recovery.MarkAccepted` | crates/usque-agent/src/journal.rs:460-503 | a journal with one step marked Restored is valid exactly when it was valid before and that step is not an adapter without an interface number |
| `Recovery.AccountReconciles` | crates/usque-agent/src/coordinator.rs:1886-1899 | settling a step whose adapter is gone drops that step's own restore failure and no other, so no route, proxy, firewall or persistence failure is discarded; the lost writes stay reported one for one |
| `Recovery.HealthyVerdict` | crates/usque-agent/src/coordinator.rs:1795-1899 | a pass in which every restore and write works restores every step, and reports no failure exactly when `FinishesInOnePass` holds beforehand |
| `Recovery.TwoHealthyPassesSuffice` | crates/usque-agent/src/coordinator.rs:1748-1793 | after a healthy pass that could not finish, a second healthy pass finishes |
| `Recovery.OnePassIsNotEnough` | crates/usque-agent/src/coordinator.rs:1851-1870 | a concrete valid journal, with a planned adapter of interface number 0, that no single healthy pass can finish |
| `Recovery.RejectedIntentIsNotEnough` | crates/usque-agent/src/coordinator.rs:1656-1661 | a concrete journal, valid but for an intent whose receipt is refused, that no single healthy pass can finish |
| `Recovery.ReconciledKeeps` | crates/usque-agent/src/coordinator.rs:370-402 | startup reconciliation marks exactly the steps whose adapter is already gone and leaves no resource unanswered for |
| `Leases.NothingSinceArming` | crates/usque-agent/src/coordinator.rs:1162-1205 | for every legal history of lease events, an armed epoch seen again within one wrap means that nothing happened to the lease since |
| `Runs.HistoryAdvances` | crates/usque-agent/src/journal.rs:830-887 | over the durable journals of all lives: generations never fall, one generation is one journal, and as long as none is Clean they are one transaction with one policy that never leaves recovery and never loses an applied kill switch while working |
| `Runs.RunAdvances` | crates/usque-agent/src/coordinator.rs:587-1633 | over every run: generations never fall, every new durable journal has a larger one, owner, operation and policy of a transaction never change, a chain stays a chain, deferral only ends, and an applied kill switch stays applied until a recovery begins |
| `Runs.OwnerChangesDetached` | crates/usque-agent/src/coordinator.rs:994-1045 | if the owner process differs between two points of one transaction, it changed at a call that found no packet session attached |
| `Coordinators.Coordinator.Open` | crates/usque-agent/src/coordinator.rs:253-273 | a new process adopts the durable journal, starts with no session or lease, and has the invariant |
| `Coordinators.Coordinator.RestoreSteps` | crates/usque-agent/src/coordinator.rs:1795-1899 | the pass keeps the invariant and is a `Conducted` one: quiescence order, every restored step justified, every failed restore reported unless settled, every lost write reported once and in order, and no failure reported that did not happen |
| `Coordinators.Coordinator.PublishClean` | crates/usque-agent/src/coordinator.rs:1775-1793 | memory becomes Clean only after Clean was durably saved and nothing is left on the machine; a refused save leaves RecoveryRequired |
| `Coordinators.Coordinator.Recover` | crates/usque-agent/src/coordinator.rs:1748-1793 | success means Clean in memory and on disk, no resource left, no write lost but the transitional one, and each step restored by the backend or bound to an adapter that is gone; failure keeps every unrestored step, and its list names exactly the failed restores and lost writes (`Explained`); every recovery keeps the quiescence order; a healthy one succeeds exactly when `FinishesInOnePass` |
| `Coordinators.Coordinator.ApplyNewStep` | crates/usque-agent/src/coordinator.rs:1635-1691 | the intent is durable before the mutation, at most one new unrestored step is added, success means it is Applied in memory and on disk and its resource is on the machine, and a duplicate kind is refused untouched |
| `Coordinators.Coordinator.Prepare` | crates/usque-agent/src/coordinator.rs:587-685 | a refused plan, caller or phase changes nothing; success means Prepared on disk with every planned step Applied and its resource on the machine; a failure after the first step recovers; no watchdog or lease event is forgotten |
| `Coordinators.Coordinator.BeginChain` | crates/usque-agent/src/coordinator.rs:687-754 | success leaves an Applied kill switch, put on the machine if it was missing, and a durable chain plan under the caller; without a lease it supersedes every earlier watchdog, with one it leaves them alone; another process takes over only the same user's detached, unleased Active tunnel that the backend reports reattachable; no failure recovers, detaches or changes the phase |
| `Coordinators.Coordinator.Finalize` | crates/usque-agent/src/coordinator.rs:756-855 | a plan that changes more than the network, an attached session, an unready phase or another owner is refused untouched and by its own error; success leaves the new plan Prepared with interface and DNS Applied and on the machine, no routes and no session; another process takes over only what the backend reports reattachable; whatever fails, the kill switch stays Applied and nothing recovers |
| `Coordinators.Coordinator.OpenSession` | crates/usque-agent/src/coordinator.rs:857-928 | success attaches a session that is Applied and on the machine to a Prepared tunnel; a bad ring size, caller or second session changes nothing; a chain never recovers on failure |
| `Coordinators.Coordinator.CloseSession` | crates/usque-agent/src/coordinator.rs:930-981 | anyone but the owner is refused untouched; success detaches and leaves nothing of the session on the machine; a Prepared tunnel forgets the step, an Active one keeps every step |
| `Coordinators.Coordinator.Resume` | crates/usque-agent/src/coordinator.rs:983-1052 | only a detached Active tunnel of the same user is resumed, with its steps unchanged and its session on the machine again; the new owner is durable before the session is recreated |
| `Coordinators.Coordinator.AcquireLease` | crates/usque-agent/src/coordinator.rs:1054-1082 | a lease is acquired exactly by the owner of an Active tunnel with an attached session and no lease; anything else changes nothing |
| `Coordinators.Coordinator.ReleaseStartup` | crates/usque-agent/src/coordinator.rs:1084-1105 | arms a watchdog with the new epoch exactly for the owner of a ready tunnel without a lease, and otherwise changes nothing |
| `Coordinators.Coordinator.ReleaseLease` | crates/usque-agent/src/coordinator.rs:1107-1160 | does nothing without a ready tunnel and a lease; else takes an attached session off the machine, detaches, ends the lease and arms a watchdog only if that could be saved; steps, phase and plan stay |
| `Coordinators.Coordinator.RecoverOrphan` | crates/usque-agent/src/coordinator.rs:1162-1205 | a watchdog recovers exactly a ready, unleased tunnel of its operation at its epoch, and then it is the same transaction with nothing since; otherwise it changes nothing; its recovery outdates it; armed watchdogs and the lease history only grow, here and in every other call |
| `Coordinators.Coordinator.Commit` | crates/usque-agent/src/coordinator.rs:1207-1311 | Active is reached only with adapter, bypass, interface, DNS, session and routes Applied, and the kill switch when the plan or a chain asks; what was missing is then on the machine; a failure that changed anything has recovered, except in a chain, which never does |
| `Coordinators.Coordinator.Rollback` | crates/usque-agent/src/coordinator.rs:1313-1335 | anyone but the owner is refused untouched; the owner gets exactly a recovery |
| `Coordinators.Coordinator.RecoverStale` | crates/usque-agent/src/coordinator.rs:413-429 | success leaves memory and disk Clean and no resource, from every reachable state |
| `Coordinators.Coordinator.RecoverGuarded` | crates/usque-agent/src/coordinator.rs:454-522 | a retry is refused, by its own error and without a question to the backend, exactly unless it names the current operation and generation, detached, unleased and waiting, for its own user; it then asks about the adapters not yet removed in order and recovers exactly when all questions were answered; it uses the pair up, so no pair below 2^64 - 1 is served twice |
| `Coordinators.Coordinator.InspectStartup` | crates/usque-agent/src/coordinator.rs:431-452 | refused untouched unless a detached, unleased tunnel is Active; else the backend is asked once, its answer is returned and changes nothing, and no answer quarantines the tunnel with its steps, whether or not that could be saved |
| `Coordinators.Coordinator.ReconcileRemoved` | crates/usque-agent/src/coordinator.rs:370-402 | acts exactly when recovery is required and some dependency of a removed adapter, or nothing at all, is left to settle; memory follows only a durable save; it settles exactly those dependencies, or publishes Clean with nothing left |
| `Coordinators.Coordinator.ReconcileAbsent` | crates/usque-agent/src/coordinator.rs:1337-1368 | publishes Clean, without touching the machine, exactly when the adapter is the last unrestored step of a detached transaction waiting for its user, the inspection finds it absent and the save works; otherwise it changes nothing |
| `Coordinators.Coordinator.ApplySystemProxy` | crates/usque-agent/src/coordinator.rs:1370-1545 | success leaves the proxy Applied, durable and on the machine; joining an Active tunnel never recovers it or leaves Active |
| `Coordinators.Coordinator.RestoreSystemProxy` | crates/usque-agent/src/coordinator.rs:1547-1611 | a tunnel loses only its proxy step and never recovers; a standalone proxy ends Clean with nothing left |
| `Lifetimes.Serve` | crates/usque-agent/src/coordinator.rs:370-1633 | any sequence of requests from any callers keeps the invariant, its views form a run, and no armed watchdog, used retry or lease event is forgotten |
| `Lifetimes.Watch` | crates/usque-agent/src/coordinator.rs:1054-1205 | a watchdog armed before any requests, carrying its epoch and tried twice with more requests in between: within one wrap it fires only with no lease event since it was armed and in its own transaction, and never twice |
| `Lifetimes.RetryTwice` | crates/usque-agent/src/coordinator.rs:454-522 | whatever is requested before and in between, and whoever asks, two guarded retries of one operation and generation below 2^64 - 1 recover at most once |
| `Lifetimes.Live` | crates/usque-agent/src/coordinator.rs:253-273 | a process that serves any requests and dies at any of its moments leaves a machine that every moment of its life, and the crash itself, kept crash safe, and a history of durable journals |
| `Lifetimes.Survive` | crates/usque-agent/src/coordinator.rs:1748-1793 | over any number of lives, requests, failures and crashes every moment was crash safe and every durable journal followed its predecessor (`History`), and a last recovery that reports success leaves nothing of the Agent's on the machine |
| `Srp.LittleEndianRoundTrip` | tool/proton_poc/srp.py:276-303 | a number that fits survives its little-endian bytes |
| `Srp.ProbablePrime` | tool/proton_poc/srp.py:198-220 | accepts exactly the small primes and the sieved numbers that pass the strong test for all 64 witnesses drawn; never rejects a prime, whatever was drawn |
| `Srp.PrimePasses` | tool/proton_poc/srp.py:204-219 | for a prime, every witness either raises to one or meets minus one while squaring |
| `Srp.PowerDecidesModulus` | tool/proton_poc/srp.py:228-231 | for a modulus that is 3 modulo 8 with a prime half, the one power checked is minus one exactly when the modulus is prime, and then 2 has order N - 1 |
| `Srp.ValidatedModulus` | tool/proton_poc/srp.py:224-231 | refuses by the right reason; given a prime half it accepts a well-formed modulus exactly when that is prime, whatever was drawn, and 2 then generates the whole group |
| `Srp.KeysAgree` | tool/proton_poc/srp.py:296-303 | the client's power with its exponent reduced modulo N - 1 equals the server's (A * v^u)^b modulo N |
| `Srp.Agreement` | tool/proton_poc/srp.py:276-310 | for a prime modulus and an honest server, whenever the client answers, both proofs are the ones made from the server's own key |
| `Srp.HonestRefusal` | tool/proton_poc/srp.py:296-302 | against an honest server of a safe group, the client refuses the base exactly when half the order divides the server's secret, and the exponent exactly when the order divides the client's |
| `Srp.GenerateProofs` | tool/proton_poc/srp.py:276-310 | every refusal and every answer, with the first usable of the drawn secrets; for a prime modulus each honest server accepts the client's proof and the client accepts that server's reply |
| `Parsing.ParsesExactly` | apps/usque_gui/native/proton_verification.h:39-110 | the parser returns a value exactly when the input is a JSON text of that value (sections 2 to 7 of RFC 8259, strings, natural numbers, objects and arrays) and the value is in the schema: 4 levels, 16 members with distinct names, printable strings up to 16384, at most 16 digits |
| `Parsing.ValueRead` | apps/usque_gui/native/proton_verification.h:75-107 | whatever a value parse consumed is one way of writing the value it returned, and the value is in the schema at that depth |
| `Parsing.ValueReads` | apps/usque_gui/native/proton_verification.h:75-107 | every way of writing a schema value, with any blanks and escapes, parses to that value and leaves the rest |
| `Parsing.CharsRead` | apps/usque_gui/native/proton_verification.h:49-74 | whatever a string parse consumed spells the text returned, escapes undone, within the length limit |
| `Printing.PrintThenParse` | apps/usque_gui/native/proton_verification.h:39-110 | every value of the schema survives printing and parsing |
| `Parsers.Parser.Space` | apps/usque_gui/native/proton_verification.h:44-48 | the cursor stops at the first character that is no blank |
| `Parsers.Parser.String` | apps/usque_gui/native/proton_verification.h:49-74 | the cursor form reads the same text as the function and stops where it does |
| `Parsers.Parser.Value` | apps/usque_gui/native/proton_verification.h:75-107 | the recursive cursor form terminates, reads the same value as the function and stops where it does |
| `Parsers.Parser.Run` | apps/usque_gui/native/proton_verification.h:41-42 | the whole parse accepts exactly the JSON texts of schema values |
| `Challenge.DecodesExactly` | apps/usque_gui/native/proton_verification.h:118-136 | decoding succeeds exactly on the percent-encodings of visible text, and returns that text |
| `Challenge.Decode` | apps/usque_gui/native/proton_verification.h:118-136 | the loop computes that decoding |
| `Challenge.PairsWrittenBack` | apps/usque_gui/native/proton_verification.h:169-183 | cutting a query at every ampersand loses nothing |
| `Challenge.RewritingKeepsMeaning` | apps/usque_gui/native/proton_verification.h:296-316 | the rewritten URL has the same token, the pairs of every other key unchanged and in order, exactly one methods=captcha and exactly one embed=true |
| `Challenge.RewrittenLength` | apps/usque_gui/native/proton_verification.h:296-316 | the rewritten URL is 27 bytes longer than the old one, less the pairs replaced with an ampersand each |
| `Challenge.LongestUrlIsLost` | apps/usque_gui/native/proton_verification.h:296-316 | a URL of 16384 bytes that carries its token is rewritten to one that is too long to match |
| `Challenge.Handoff.Matches` | apps/usque_gui/native/proton_verification.h:159-187 | true exactly before expiry, for a URL of the origin within the length whose keys all decode, which names one printable token whose digest is the handoff's |
| `Challenge.Handoff.CaptchaOnly` | apps/usque_gui/native/proton_verification.h:296-316 | succeeds exactly with the captcha method and a readable query, and otherwise changes nothing; a URL that matched still matches exactly when its length, plus 27, less the pairs replaced, is at most 16384 |
| `Flows.RunResolvesExactly` | tool/proton_poc/flow.py:154-197 | for every world: all requests of a run that may change a session are resolved exactly when the last one is and the log shows no stray repeat, a session request challenged outside 400 to 499 and repeated; at most one request is repeated |
| `Flows.StrayRunIsUnresolved` | tool/proton_poc/flow.py:175-207 | the log of the guest run against a server that challenges the first request with status 200 and code 9001 and answers its repeat: the flag is down and that request unresolved |
| `Flows.StrayRun` | tool/proton_poc/flow.py:330-401 | that run reports its sessions as revoked |
| `Flows.Flow.Send` | tool/proton_poc/flow.py:154-173 | one more request in the log with its reply; a session request leaves the flag up exactly unless it was refused by a client error |
| `Flows.Flow.Request` | tool/proton_poc/flow.py:175-197 | repeated exactly if challenged with code 9001, for the first time in an interactive run, and verified; the log and the reply are then the repeat's |
| `Flows.Flow.Accept` | tool/proton_poc/flow.py:128-152 | a complete reply becomes the session, a malformed one with a usable handle is kept for deletion only, and the handles held stay the identities taken in with their latest tokens |
| `Flows.Flow.Owned` | tool/proton_poc/flow.py:373-379 | exactly one handle for every identity held, the first in order |
| `Flows.Flow.Finish` | tool/proton_poc/flow.py:372-401 | one deletion for every identity taken in, with its latest token, and the report they and the flag determine; no handle is left |
| `Flows.Run` | tool/proton_poc/flow.py:330-401 | for every world, that is every server, user and local check: the log is the one the world determines, each identity taken in is deleted exactly once with its latest token, the report is Revoked exactly when there was one, all deletions worked and the last session request is resolved, and all of them are resolved exactly when also no stray one was repeated |
| `Diagnostics.OrderedIsAcyclic` | tool/generate_diagnostics_contract.py:59-74 | a topological order of every check excludes cycles |
| `Diagnostics.Search.Visit` | tool/generate_diagnostics_contract.py:62-71 | a visit terminates, finishes its check after all it depends on, and fails only on a cycle |
| `Diagnostics.CheckDependencies` | tool/generate_diagnostics_contract.py:59-74 | refused exactly when the dependencies have a cycle; otherwise the finish order is a topological order of all checks |
| `Diagnostics.Validate` | tool/generate_diagnostics_contract.py:32-74 | of any list of checks, refuses exactly the first fault: a repeated name, else a dependency that is no check, else a cycle |
| `Packaging.Finished` | tool/linux_package.py:170-196 | when the worklist is empty, the copied names are exactly those wanted and not provided, and every need is met |
| `Packaging.BundleLibraries` | tool/linux_package.py:146-196 | terminates; succeeds exactly when every library that belongs can be found and inspected; then copies exactly the reachable libraries that the host and the bundle lack, and every name needed by any bundled file is provided or copied; a failure names a library really missing |
| `TunSlab.Slab.Prepare` | crates/usque-android/src/tun_read_slab.rs:24-46 | refuses zero and overflow untouched; allocates exactly when the size changes or no slot is left; issued, free and dropped slots stay eight times the allocations |
| `TunSlab.Slab.ReadInto` | crates/usque-android/src/tun_read_slab.rs:48-50 | a read changes the next slot and no packet handed out |
| `TunSlab.Slab.TakePacket` | crates/usque-android/src/tun_read_slab.rs:52-62 | fails exactly on a bad length or no slot; otherwise hands out the bytes read as a packet apart from all others |
| `TunSlab.Slab.WritePacket` | crates/usque-android/src/tun_read_slab.rs:52-62 | the owner of a packet changes no other packet and no free slot |
| `TunSlab.Slab.Stream` | crates/usque-android/src/tun_read_slab.rs:24-62 | any number of packets of one size keep exactly the bytes read for them, at the cost of exactly one allocation for every eight packets beyond the free slots, rounded up |

## Left out

- Devices, replacements and egress guards of the Agent (`coordinator/device_lifecycle`, `coordinator/replacement`, `journal/replacement`): both are fixed to absent, so every save is the plain one.
- The contents of plans and of receipts beyond identities, kinds and states: plan validation and address, route and name checks are an arbitrary predicate (`Policy`) that the results hold for.
- File mechanics of the journal store, its JSON form, size limit and `remove_if_clean`: a save is atomic or changes nothing.
- Kill-switch protection is stated for plans that ask for the kill switch; a chain without that choice gains its guard in `begin_chain_transition` while routes may already exist.
- Diagnostics sampling, error texts, retry classification and logging of the Agent: no state that recovery depends on.
- Windows and Linux system calls: replaced by the backend contract of `Platform`.
- Coordinators.Coordinator.JoinProxy: also records a partially applied proxy, which the source rolls back without recording; both are then rolled back.
- The restore loop's check that skips a step already Restored: `OrderIsComplete` shows that each step is visited once, so it never fires.
- Hashes, bcrypt, signatures and random sources of SRP: an arbitrary function, or parameters; `_crc24`, `_read_mpi`, `_signature_packet` and `verify_signed_modulus` are packet field checks.
- Recovery's list of failures omits a lost transitional write when the pass itself had nothing to report and only publishing Clean failed, as the source does.
- Base64 framing of SRP values, the cache of validated moduli, and the error probability of the primality test: results about primes assume the half of the modulus really prime.
- JSON numbers with sign, fraction or exponent, and the literals true, false and null: the parser refuses them and the value type has none. The parsed object keeps its members in the order of the text, which the source's map forgets; names are distinct either way.
- `Handoff::Accept`, `CaptchaFrameMatches`, `Official`, the handoff's own field checks and the embedded scripts: field-by-field tests over the same parser and decoder.
- Wiping of secrets in memory: not observable in values.
- Transport of the account experiment, prompts, certificate and configuration steps: their outcomes are the replies and choices of the world; an interrupt inside the cleanup between two deletions is not modelled.
- The other checks of `generate_diagnostics_contract.py` and the rest of `linux_package.py`: comprehensions and external tools.
- Files that another process adds to the bundle while the worklist runs.
