/**
 * The account experiment's run: it takes in sessions as the server hands them out, and on every
 * exit deletes each of them once. What the server, the user and the local checks do is an input.
 */
module Flows {

  import opened Wrappers

  const MAX_FIELD: nat := 16384
  const VERIFICATION_REQUIRED: int := 9001

  datatype Session = Session(uid: string, accessToken: string, refreshToken: string)

  const NO_SESSION: Session := Session("", "", "")

  /** The session fields of a reply, absent when missing or not text. */
  datatype Response = Response(uid: Option<string>, accessToken: Option<string>, refreshToken: Option<string>)

  /** A complete success, a rejection with its status and code, or anything else that raises. */
  datatype Reply = Body(response: Response) | Rejected(status: int, code: int) | Broken

  datatype Cleanup =
    | NotNeeded
    | Revoked
    | RevocationFailed
    | UnknownWithoutHandle
    | RemoteStateUnknown
    | FailedAndUnknown

  /**
   * Everything outside the run: the reply to each request in turn, how each deletion ends, and
   * each choice in turn of the user and of the local checks. Any behaviour of them is some world.
   */
  datatype World = World(replies: nat -> Reply, choices: nat -> bool, deletions: nat -> bool)

  /** One line of the run's log: a request with its reply, or a reply handed to `Accept`. */
  datatype Entry = Asked(changes: bool, repeated: bool, reply: Reply) | Accepted(response: Response)

  /** What happened to sessions: a request that may change one, its refusal, or a session taken in. */
  datatype Event = Sent | Refused | TakenIn(uid: string, token: string)

  datatype Deletion = Deletion(uid: string, token: string, ok: bool)

  predicate UsableField(x: Option<string>) { x.Some? && x.value != "" && |x.value| <= MAX_FIELD }

  /** A client error whose code does not claim success. */
  predicate Refusal(reply: Reply) {
    reply.Rejected? && 400 <= reply.status < 500 && reply.code != 1000 && reply.code != 1001
  }

  predicate Complete(response: Response) {
    UsableField(response.uid) && UsableField(response.accessToken) && UsableField(response.refreshToken)
  }

  predicate Challenged(reply: Reply) { reply.Rejected? && reply.code == VERIFICATION_REQUIRED }

  // ------------------------------------------------------------ specification

  function EntryEvents(e: Entry): seq<Event> {
    match e
    case Asked(changes, _, reply) => if !changes then [] else if Refusal(reply) then [Sent, Refused] else [Sent]
    case Accepted(response) =>
      if UsableField(response.uid) && UsableField(response.accessToken)
      then [TakenIn(response.uid.value, response.accessToken.value)] else []
  }

  /** What a log did to sessions. */
  function EventsOf(log: seq<Entry>): seq<Event> {
    if log == [] then [] else EventsOf(log[..|log| - 1]) + EntryEvents(log[|log| - 1])
  }

  /** A request that may change a session, repeated although its challenge came outside 400 to 499. */
  predicate StrayPair(first: Entry, second: Entry) {
    && first.Asked? && first.changes && Challenged(first.reply) && !(400 <= first.reply.status < 500)
    && second.Asked? && second.repeated
  }

  predicate StrayRepeat(log: seq<Entry>) {
    exists i :: 0 <= i < |log| - 1 && StrayPair(log[i], log[i + 1])
  }

  /** The access token of the last handle with this identity. */
  function LastWith(handles: seq<Session>, uid: string): Option<string> {
    if handles == [] then None
    else if handles[|handles| - 1].uid == uid then Some(handles[|handles| - 1].accessToken)
    else LastWith(handles[..|handles| - 1], uid)
  }

  function FirstWith(handles: seq<Session>, uid: string): Option<string> {
    if handles == [] then None
    else if handles[0].uid == uid then Some(handles[0].accessToken)
    else FirstWith(handles[1..], uid)
  }

  function Reversed(handles: seq<Session>): seq<Session> {
    if handles == [] then [] else [handles[|handles| - 1]] + Reversed(handles[..|handles| - 1])
  }

  /** The latest access token seen for this identity. */
  function Latest(events: seq<Event>, uid: string): Option<string> {
    if events == [] then None
    else
      var last := events[|events| - 1];
      if last.TakenIn? && last.uid == uid then Some(last.token) else Latest(events[..|events| - 1], uid)
  }

  /** The last request that may have changed a session got neither a refusal nor a usable reply. */
  predicate Uncertain(events: seq<Event>) { events != [] && events[|events| - 1].Sent? }

  /** Every such request did. */
  predicate AllResolved(events: seq<Event>) {
    forall i :: 0 <= i < |events| && events[i].Sent? ==> i + 1 < |events| && !events[i + 1].Sent?
  }

  predicate SentTwice(events: seq<Event>) {
    exists i :: 0 <= i < |events| - 1 && events[i].Sent? && events[i + 1].Sent?
  }

  predicate DistinctUids(deletes: seq<Deletion>) {
    forall i, j :: 0 <= i < j < |deletes| ==> deletes[i].uid != deletes[j].uid
  }

  predicate AllDeleted(deletes: seq<Deletion>) { forall d :: d in deletes ==> d.ok }

  /** One deletion for every identity taken in, with its latest token, and no other. */
  ghost predicate Conserved(events: seq<Event>, deletes: seq<Deletion>) {
    && DistinctUids(deletes)
    && (forall d :: d in deletes ==> d.uid != "" && Latest(events, d.uid) == Some(d.token))
    && (forall uid :: uid != "" && Latest(events, uid).Some? ==> exists d :: d in deletes && d.uid == uid)
  }

  function Report(none: bool, ok: bool, uncertain: bool): Cleanup {
    if none then (if uncertain then UnknownWithoutHandle else NotNeeded)
    else if ok then (if uncertain then RemoteStateUnknown else Revoked)
    else (if uncertain then FailedAndUnknown else RevocationFailed)
  }

  // ------------------------------------------------------------------- lemmas

  lemma LastOfAppended(handles: seq<Session>, h: Session, uid: string)
    ensures LastWith(handles + [h], uid) == if h.uid == uid then Some(h.accessToken) else LastWith(handles, uid)
  {
    assert (handles + [h])[..|handles|] == handles;
  }

  lemma LatestOfAppended(events: seq<Event>, e: Event, uid: string)
    ensures Latest(events + [e], uid) == if e.TakenIn? && e.uid == uid then Some(e.token) else Latest(events, uid)
  {
    assert (events + [e])[..|events|] == events;
  }

  lemma {:induction false} FirstOfReversed(handles: seq<Session>, uid: string)
    ensures FirstWith(Reversed(handles), uid) == LastWith(handles, uid)
  {
    if handles != [] {
      FirstOfReversed(handles[..|handles| - 1], uid);
      assert Reversed(handles)[1..] == Reversed(handles[..|handles| - 1]);
    }
  }

  lemma {:induction false} FirstWithAppended(handles: seq<Session>, h: Session, uid: string)
    ensures FirstWith(handles + [h], uid) ==
      if FirstWith(handles, uid).Some? then FirstWith(handles, uid)
      else if h.uid == uid then Some(h.accessToken) else None
  {
    if handles == [] {
      assert handles + [h] == [h] && [h][1..] == [];
    } else {
      assert (handles + [h])[1..] == handles[1..] + [h];
      FirstWithAppended(handles[1..], h, uid);
    }
  }

  lemma ResolvedExactly(events: seq<Event>)
    ensures AllResolved(events) <==> !Uncertain(events) && !SentTwice(events)
  {
  }

  lemma SentTwiceAppended(events: seq<Event>, e: Event)
    ensures SentTwice(events + [e]) <==> SentTwice(events) || (Uncertain(events) && e.Sent?)
  {
    var all := events + [e];
    if i :| 0 <= i < |events| - 1 && events[i].Sent? && events[i + 1].Sent? {
      assert all[i] == events[i] && all[i + 1] == events[i + 1];
    }
    if Uncertain(events) && e.Sent? {
      var i := |events| - 1;
      assert all[i].Sent? && all[i + 1] == e;
    }
    if i :| 0 <= i < |all| - 1 && all[i].Sent? && all[i + 1].Sent? {
      if i + 1 < |events| {
        assert events[i] == all[i] && events[i + 1] == all[i + 1];
      }
    }
  }

  /** The handles held are the identities taken in, each with its latest token. */
  ghost predicate Held(retired: seq<Session>, session: Session, events: seq<Event>) {
    forall uid :: uid != "" ==> LastWith(retired + [session], uid) == Latest(events, uid)
  }

  lemma HeldAtFirst()
    ensures Held([], NO_SESSION, [])
  {
    forall uid | uid != ""
      ensures LastWith([] + [NO_SESSION], uid) == None
    {
      LastOfAppended([], NO_SESSION, uid);
    }
  }

  lemma HeldThroughout(retired: seq<Session>, session: Session, events: seq<Event>, e: Event)
    requires Held(retired, session, events) && !e.TakenIn?
    ensures Held(retired, session, events + [e])
  {
    forall uid | uid != ""
      ensures LastWith(retired + [session], uid) == Latest(events + [e], uid)
    {
      LatestOfAppended(events, e, uid);
    }
  }

  lemma HeldLogged(retired: seq<Session>, session: Session, log: seq<Entry>, e: Entry)
    requires Held(retired, session, EventsOf(log)) && e.Asked?
    ensures Held(retired, session, EventsOf(log + [e]))
  {
    hide Held, EventsOf;
    var events := EventsOf(log);
    EventsAppended(log, e);
    if !e.changes {
      assert events + [] == events;
    } else {
      HeldThroughout(retired, session, events, Sent);
      HeldThroughout(retired, session, events + [Sent], Refused);
      assert (events + [Sent]) + [Refused] == events + [Sent, Refused];
    }
  }

  lemma HeldAfterReplacing(retired: seq<Session>, before: Session, next: Session, events: seq<Event>)
    requires Held(retired, before, events) && next.uid != ""
    ensures var kept := if before.uid != "" && before.uid != next.uid then retired + [before] else retired;
      Held(kept, next, events + [TakenIn(next.uid, next.accessToken)])
  {
    var kept := if before.uid != "" && before.uid != next.uid then retired + [before] else retired;
    var e := TakenIn(next.uid, next.accessToken);
    forall uid | uid != ""
      ensures LastWith(kept + [next], uid) == Latest(events + [e], uid)
    {
      LatestOfAppended(events, e, uid);
      LastOfAppended(kept, next, uid);
      LastOfAppended(retired, before, uid);
    }
  }

  lemma HeldAfterKeeping(retired: seq<Session>, session: Session, handle: Session, events: seq<Event>)
    requires Held(retired, session, events) && handle.uid != "" && handle.uid != session.uid
    ensures Held(retired + [handle], session, events + [TakenIn(handle.uid, handle.accessToken)])
  {
    var e := TakenIn(handle.uid, handle.accessToken);
    forall uid | uid != ""
      ensures LastWith(retired + [handle] + [session], uid) == Latest(events + [e], uid)
    {
      LatestOfAppended(events, e, uid);
      LastOfAppended(retired + [handle], session, uid);
      LastOfAppended(retired, handle, uid);
      LastOfAppended(retired, session, uid);
    }
  }

  // ---------------------------------------------------------- the run as a value

  /** How far a run has come: its log, the requests and choices used up, and the one challenge. */
  datatype Trace = Trace(log: seq<Entry>, asked: nat, chosen: nat, attempted: bool)

  const START: Trace := Trace([], 0, 0, false)

  function Asking(w: World, t: Trace, changes: bool, repeated: bool): Trace {
    t.(log := t.log + [Asked(changes, repeated, w.replies(t.asked))], asked := t.asked + 1)
  }

  function Choosing(t: Trace): Trace { t.(chosen := t.chosen + 1) }

  /** A request, repeated once if the server wants a human and the run has not asked one yet. */
  function Requesting(w: World, interactive: bool, t: Trace, changes: bool): (Trace, Reply) {
    var first := Asking(w, t, changes, false);
    var reply := w.replies(t.asked);
    if !Challenged(reply) || !interactive || t.attempted then (first, reply)
    else
      var verified := Choosing(first).(attempted := true);
      if !w.choices(first.chosen) then (verified, Broken)
      else (Asking(w, verified, changes, true), w.replies(verified.asked))
  }

  /** A request that hands out a session, and its reply taken in unless the user interrupts. */
  function Obtaining(w: World, interactive: bool, t: Trace): (Trace, bool) {
    var (after, reply) := Requesting(w, interactive, t, true);
    if !reply.Body? || !w.choices(after.chosen) then (Choosing(after), false)
    else (Choosing(after).(log := after.log + [Accepted(reply.response)]), Complete(reply.response))
  }

  /** Requests that change no session, each followed by a local check. */
  function Consulting(w: World, interactive: bool, t: Trace, times: nat): (Trace, bool)
    decreases times
  {
    if times == 0 then (t, true)
    else
      var (after, reply) := Requesting(w, interactive, t, false);
      if !reply.Body? || !w.choices(after.chosen) then (Choosing(after), false)
      else Consulting(w, interactive, Choosing(after), times - 1)
  }

  function SigningIn(w: World, interactive: bool, t: Trace): (Trace, bool) {
    if !interactive || !w.choices(t.chosen) then (Choosing(t), false)
    else
      var (info, known) := Consulting(w, interactive, Choosing(t), 1);
      if !known then (info, false)
      else
        var (taken, ok) := Obtaining(w, interactive, info);
        if !ok || !w.choices(taken.chosen) then (Choosing(taken), false)
        else Consulting(w, interactive, Choosing(Choosing(taken)), if w.choices(taken.chosen + 1) then 1 else 0)
  }

  function SigningUp(w: World, interactive: bool, t: Trace): (Trace, bool) {
    var (anonymous, begun) := Obtaining(w, interactive, t);
    if !begun then (anonymous, false)
    else
      var (guest, ok) := Obtaining(w, interactive, anonymous);
      (Choosing(guest), ok && w.choices(guest.chosen))
  }

  /** The run up to its first failure. */
  function Attempting(w: World, interactive: bool, login: bool): Trace {
    var (identity, identified) := if login then SigningIn(w, interactive, START) else SigningUp(w, interactive, START);
    if !identified then identity
    else
      var (user, allowed) := Consulting(w, interactive, identity, 2);
      if !allowed then user
      else
        var (refreshed, ok) := Obtaining(w, interactive, user);
        if !ok then refreshed else Consulting(w, interactive, refreshed, 4).0
  }

  function RunLog(w: World, interactive: bool, login: bool): seq<Entry> {
    Attempting(w, interactive, login).log
  }

  // ------------------------------------------------- which requests are resolved

  function Repeats(log: seq<Entry>): nat {
    if log == [] then 0
    else Repeats(log[..|log| - 1]) + if log[|log| - 1].Asked? && log[|log| - 1].repeated then 1 else 0
  }

  /** A request was sent over an unresolved one exactly where the log shows a stray repeat. */
  ghost predicate Linked(t: Trace) {
    && (SentTwice(EventsOf(t.log)) <==> StrayRepeat(t.log))
    && Repeats(t.log) <= if t.attempted then 1 else 0
  }

  ghost predicate Idle(t: Trace) { Linked(t) && !Uncertain(EventsOf(t.log)) }

  lemma EventsAppended(log: seq<Entry>, e: Entry)
    ensures EventsOf(log + [e]) == EventsOf(log) + EntryEvents(e)
    ensures Repeats(log + [e]) == Repeats(log) + if e.Asked? && e.repeated then 1 else 0
  {
    assert (log + [e])[..|log|] == log;
  }

  lemma StrayAppended(log: seq<Entry>, e: Entry)
    ensures StrayRepeat(log + [e]) <==> StrayRepeat(log) || (log != [] && StrayPair(log[|log| - 1], e))
  {
    var all := log + [e];
    if i :| 0 <= i < |log| - 1 && StrayPair(log[i], log[i + 1]) {
      assert all[i] == log[i] && all[i + 1] == log[i + 1];
    }
    if log != [] && StrayPair(log[|log| - 1], e) {
      var i := |log| - 1;
      assert all[i] == log[i] && all[i + 1] == e;
    }
    if i :| 0 <= i < |all| - 1 && StrayPair(all[i], all[i + 1]) {
      if i + 1 < |log| {
        assert log[i] == all[i] && log[i + 1] == all[i + 1];
      }
    }
  }

  lemma EventsSentTwice(events: seq<Event>, e: Entry)
    ensures SentTwice(events + EntryEvents(e)) <==>
      SentTwice(events) || (Uncertain(events) && e.Asked? && e.changes)
    ensures Uncertain(events + EntryEvents(e)) <==>
      if EntryEvents(e) == [] then Uncertain(events) else e.Asked? && !Refusal(e.reply)
  {
    var more := EntryEvents(e);
    if |more| == 0 {
      assert events + more == events;
    } else if |more| == 1 {
      SentTwiceAppended(events, more[0]);
      assert more == [more[0]];
    } else {
      SentTwiceAppended(events, Sent);
      SentTwiceAppended(events + [Sent], Refused);
      assert events + more == (events + [Sent]) + [Refused];
    }
  }

  /** What one more entry does to all that is claimed of a log. */
  lemma Logged(log: seq<Entry>, e: Entry)
    ensures SentTwice(EventsOf(log + [e])) <==>
      SentTwice(EventsOf(log)) || (Uncertain(EventsOf(log)) && e.Asked? && e.changes)
    ensures Uncertain(EventsOf(log + [e])) <==>
      if EntryEvents(e) == [] then Uncertain(EventsOf(log)) else e.Asked? && !Refusal(e.reply)
    ensures StrayRepeat(log + [e]) <==> StrayRepeat(log) || (log != [] && StrayPair(log[|log| - 1], e))
    ensures Repeats(log + [e]) == Repeats(log) + if e.Asked? && e.repeated then 1 else 0
  {
    EventsAppended(log, e);
    StrayAppended(log, e);
    EventsSentTwice(EventsOf(log), e);
  }

  lemma RequestingLinked(w: World, interactive: bool, t: Trace, changes: bool)
    requires Idle(t)
    ensures Linked(Requesting(w, interactive, t, changes).0)
    ensures !changes ==> Idle(Requesting(w, interactive, t, changes).0)
  {
    hide SentTwice, Uncertain, StrayRepeat, EventsOf, Repeats;
    var first := Asking(w, t, changes, false);
    Logged(t.log, first.log[|t.log|]);
    if Challenged(w.replies(t.asked)) && interactive && !t.attempted && w.choices(first.chosen) {
      Logged(first.log, Asked(changes, true, w.replies(first.asked)));
    }
  }

  lemma ObtainingLinked(w: World, interactive: bool, t: Trace)
    requires Idle(t)
    ensures Linked(Obtaining(w, interactive, t).0)
    ensures Obtaining(w, interactive, t).1 ==> Idle(Obtaining(w, interactive, t).0)
  {
    hide SentTwice, Uncertain, StrayRepeat, EventsOf, Repeats, Requesting;
    RequestingLinked(w, interactive, t, true);
    var (after, reply) := Requesting(w, interactive, t, true);
    if reply.Body? {
      Logged(after.log, Accepted(reply.response));
    }
  }

  lemma {:induction false} ConsultingLinked(w: World, interactive: bool, t: Trace, times: nat)
    requires Idle(t)
    ensures Idle(Consulting(w, interactive, t, times).0)
    decreases times
  {
    hide Requesting, Linked, Uncertain, EventsOf;
    if times > 0 {
      RequestingLinked(w, interactive, t, false);
      var after := Requesting(w, interactive, t, false).0;
      ChoosingLinked(after);
      if Requesting(w, interactive, t, false).1.Body? && w.choices(after.chosen) {
        ConsultingLinked(w, interactive, Choosing(after), times - 1);
      }
    }
  }

  lemma ChoosingLinked(t: Trace)
    ensures Linked(t) ==> Linked(Choosing(t))
    ensures Idle(t) ==> Idle(Choosing(t))
  {
  }

  lemma SigningInLinked(w: World, interactive: bool, t: Trace)
    requires Idle(t)
    ensures Linked(SigningIn(w, interactive, t).0)
    ensures SigningIn(w, interactive, t).1 ==> Idle(SigningIn(w, interactive, t).0)
  {
    hide Consulting, Obtaining, Linked, Uncertain, EventsOf;
    ChoosingLinked(t);
    ConsultingLinked(w, interactive, Choosing(t), 1);
    var info := Consulting(w, interactive, Choosing(t), 1).0;
    ObtainingLinked(w, interactive, info);
    var (taken, ok) := Obtaining(w, interactive, info);
    ChoosingLinked(taken);
    ChoosingLinked(Choosing(taken));
    if ok {
      ConsultingLinked(w, interactive, Choosing(Choosing(taken)), if w.choices(taken.chosen + 1) then 1 else 0);
    }
  }

  lemma SigningUpLinked(w: World, interactive: bool, t: Trace)
    requires Idle(t)
    ensures Linked(SigningUp(w, interactive, t).0)
    ensures SigningUp(w, interactive, t).1 ==> Idle(SigningUp(w, interactive, t).0)
  {
    hide Obtaining, Linked, Uncertain, EventsOf;
    ObtainingLinked(w, interactive, t);
    var (anonymous, begun) := Obtaining(w, interactive, t);
    if begun {
      ObtainingLinked(w, interactive, anonymous);
      ChoosingLinked(Obtaining(w, interactive, anonymous).0);
    }
  }

  lemma AttemptingLinked(w: World, interactive: bool, login: bool)
    ensures Linked(Attempting(w, interactive, login))
  {
    hide Consulting, Obtaining, SigningIn, SigningUp, Linked, Idle;
    StartIsIdle();
    SigningInLinked(w, interactive, START);
    SigningUpLinked(w, interactive, START);
    var (identity, identified) := if login then SigningIn(w, interactive, START) else SigningUp(w, interactive, START);
    if identified {
      ConsultingLinked(w, interactive, identity, 2);
      var user := Consulting(w, interactive, identity, 2).0;
      ObtainingLinked(w, interactive, user);
      var (refreshed, ok) := Obtaining(w, interactive, user);
      if ok {
        ConsultingLinked(w, interactive, refreshed, 4);
        IdleIsLinked(Consulting(w, interactive, refreshed, 4).0);
      }
      IdleIsLinked(user);
    }
  }

  lemma StartIsIdle()
    ensures Idle(START)
  {
  }

  lemma IdleIsLinked(t: Trace)
    requires Idle(t)
    ensures Linked(t)
  {
  }

  /**
   * In every run, every request that may change a session is resolved exactly when the last one
   * is and none was repeated after a challenge outside 400 to 499; and at most one is repeated.
   */
  lemma RunResolvesExactly(w: World, interactive: bool, login: bool)
    ensures var log := RunLog(w, interactive, login);
      && (AllResolved(EventsOf(log)) <==> !Uncertain(EventsOf(log)) && !StrayRepeat(log))
      && Repeats(log) <= 1
  {
    AttemptingLinked(w, interactive, login);
    ResolvedExactly(EventsOf(RunLog(w, interactive, login)));
  }

  /** A server that challenges a session request with success status 200, then answers its repeat. */
  function StrayReply(n: nat): Reply {
    if n == 0 then Rejected(200, VERIFICATION_REQUIRED)
    else if n == 1 then Body(Response(Some("uid"), Some("token"), Some("refresh")))
    else Rejected(400, 2000)
  }

  const STRAY: World := World(StrayReply, _ => true, _ => true)

  const STRAY_LOG: seq<Entry> := [
    Asked(true, false, Rejected(200, VERIFICATION_REQUIRED)),
    Asked(true, true, StrayReply(1)),
    Accepted(Response(Some("uid"), Some("token"), Some("refresh"))),
    Asked(true, false, Rejected(400, 2000))
  ]

  lemma StrayEvents()
    ensures EventsOf(STRAY_LOG) == [Sent, Sent, TakenIn("uid", "token"), Sent, Refused]
  {
    var log := STRAY_LOG;
    assert EventsOf(log[..0]) == [];
    EventsAppended(log[..0], log[0]);
    EventsAppended(log[..1], log[1]);
    EventsAppended(log[..2], log[2]);
    EventsAppended(log[..3], log[3]);
    assert log[..0] + [log[0]] == log[..1] && log[..1] + [log[1]] == log[..2];
    assert log[..2] + [log[2]] == log[..3] && log[..3] + [log[3]] == log;
  }

  /** Against it the guest run ends with its flag down and its first request unresolved. */
  lemma StrayRunIsUnresolved()
    ensures RunLog(STRAY, true, false) == STRAY_LOG
    ensures var events := EventsOf(RunLog(STRAY, true, false));
      !Uncertain(events) && !AllResolved(events) && Latest(events, "uid") == Some("token")
  {
    var first := Asking(STRAY, START, true, false);
    var verified := Choosing(first).(attempted := true);
    var second := Asking(STRAY, verified, true, true);
    assert Requesting(STRAY, true, START, true) == (second, StrayReply(1));
    var taken := Choosing(second).(log := second.log + [STRAY_LOG[2]]);
    assert Obtaining(STRAY, true, START) == (taken, true);
    var third := Asking(STRAY, taken, true, false);
    assert Requesting(STRAY, true, taken, true) == (third, StrayReply(2));
    assert Obtaining(STRAY, true, taken) == (Choosing(third), false);
    assert third.log == STRAY_LOG;
    StrayEvents();
    var events := [Sent, Sent, TakenIn("uid", "token"), Sent, Refused];
    assert events[0].Sent? && events[0 + 1].Sent?;
    assert events[..4][..3] == [Sent, Sent, TakenIn("uid", "token")];
  }

  // ----------------------------------------------------------------- the flow

  class Flow {
    var session: Session
    var retired: seq<Session>
    var uncertain: bool
    var verificationAttempted: bool
    var cleanup: Cleanup
    var deletes: seq<Deletion>
    const interactive: bool

    // The world, and how much of it is used up.
    const world: World
    var asked: nat
    var chosen: nat
    ghost var log: seq<Entry>

    ghost function Past(): Trace
      reads this
    {
      Trace(log, asked, chosen, verificationAttempted)
    }

    ghost predicate Inv()
      reads `session, `retired, `uncertain, `cleanup, `deletes, `log
    {
      && Held(retired, session, EventsOf(log))
      && (uncertain <==> Uncertain(EventsOf(log)))
      && deletes == []
      && cleanup == NotNeeded
    }

    constructor (world: World, interactive: bool)
      ensures Inv() && Past() == START && this.world == world && this.interactive == interactive
    {
      session, retired, uncertain := NO_SESSION, [], false;
      verificationAttempted, cleanup, deletes := false, NotNeeded, [];
      this.world, this.interactive, asked, chosen, log := world, interactive, 0, 0, [];
      new;
      HeldAtFirst();
    }

    /** The next choice of the user or of a local check. */
    method Choose() returns (choice: bool)
      modifies `chosen
      ensures choice == world.choices(old(chosen)) && chosen == old(chosen) + 1
    {
      choice := world.choices(chosen);
      chosen := chosen + 1;
    }

    /** One request; `changes` marks the four that create or rotate a session. */
    method Send(changes: bool, ghost repeated: bool) returns (reply: Reply)
      requires Inv()
      modifies `uncertain, `asked, `log
      ensures Inv() && Past() == Asking(world, old(Past()), changes, repeated) && reply == world.replies(old(asked))
      ensures uncertain <==> if changes then !Refusal(reply) else old(uncertain)
    {
      hide Held, EventsOf, Uncertain, SentTwice, StrayRepeat, Repeats, Refusal;
      if changes {
        uncertain := true;
      }
      reply := world.replies(asked);
      asked := asked + 1;
      if changes && Refusal(reply) {
        uncertain := false;
      }
      HeldLogged(retired, session, log, Asked(changes, repeated, reply));
      Logged(log, Asked(changes, repeated, reply));
      log := log + [Asked(changes, repeated, reply)];
    }

    method Request(changes: bool) returns (reply: Reply)
      requires Inv()
      modifies `uncertain, `asked, `chosen, `log, `verificationAttempted
      ensures Inv() && (Past(), reply) == Requesting(world, interactive, old(Past()), changes)
    {
      hide Inv, Uncertain;
      reply := Send(changes, false);
      if !Challenged(reply) || !interactive || verificationAttempted {
        return;
      }
      verificationAttempted := true;
      var verified := Choose();
      if !verified {
        return Broken;
      }
      reply := Send(changes, true);
    }

    /** Take in the session of a reply; a malformed one is kept only to be deleted. */
    method Accept(response: Response) returns (ok: bool)
      requires Inv()
      modifies `session, `retired, `uncertain, `log
      ensures Inv() && log == old(log) + [Accepted(response)]
      ensures ok <==> Complete(response)
      ensures ok ==> session == Session(response.uid.value, response.accessToken.value, response.refreshToken.value)
      ensures !ok ==> session.uid == old(session.uid)
    {
      ok := Complete(response);
      EventsAppended(log, Accepted(response));
      Logged(log, Accepted(response));
      hide Held, EventsOf, Uncertain;
      ghost var events := EventsOf(log);
      log := log + [Accepted(response)];
      if !UsableField(response.uid) || !UsableField(response.accessToken) {
        assert events + [] == events;
        return;
      }
      if ok {
        var replacement := Session(response.uid.value, response.accessToken.value, response.refreshToken.value);
        HeldAfterReplacing(retired, session, replacement, events);
        if session.uid != "" && session.uid != replacement.uid {
          retired := retired + [session];
        }
        session := replacement;
      } else {
        var handle := Session(response.uid.value, response.accessToken.value, "");
        if session.uid == handle.uid {
          HeldAfterReplacing(retired, session, handle, events);
          session := handle;
        } else {
          HeldAfterKeeping(retired, session, handle, events);
          retired := retired + [handle];
        }
      }
      uncertain := false;
    }

    method Obtain() returns (ok: bool)
      requires Inv()
      modifies `session, `retired, `uncertain, `asked, `chosen, `log, `verificationAttempted
      ensures Inv() && (Past(), ok) == Obtaining(world, interactive, old(Past()))
    {
      hide Inv, Requesting;
      var reply := Request(true);
      var uninterrupted := Choose();
      if !reply.Body? || !uninterrupted {
        return false;
      }
      ok := Accept(reply.response);
    }

    method Consult(times: nat) returns (ok: bool)
      requires Inv()
      modifies `uncertain, `asked, `chosen, `log, `verificationAttempted
      ensures Inv() && (Past(), ok) == Consulting(world, interactive, old(Past()), times)
    {
      hide Inv, Requesting;
      var i := 0;
      while i < times
        invariant 0 <= i <= times && Inv()
        invariant Consulting(world, interactive, Past(), times - i) == Consulting(world, interactive, old(Past()), times)
      {
        var reply := Request(false);
        var passed := Choose();
        if !reply.Body? || !passed {
          return false;
        }
        i := i + 1;
      }
      return true;
    }

    method SignIn() returns (ok: bool)
      requires Inv()
      modifies `session, `retired, `uncertain, `asked, `chosen, `log, `verificationAttempted
      ensures Inv() && (Past(), ok) == SigningIn(world, interactive, old(Past()))
    {
      hide Inv, Obtaining, Consulting;
      var entered := Choose();
      if !interactive || !entered {
        return false;
      }
      ok := Consult(1);
      if !ok {
        return;
      }
      ok := Obtain();
      var proven := Choose();
      if !ok || !proven {
        return false;
      }
      var secondFactor := Choose();
      ok := Consult(if secondFactor then 1 else 0);
    }

    method SignUp() returns (ok: bool)
      requires Inv()
      modifies `session, `retired, `uncertain, `asked, `chosen, `log, `verificationAttempted
      ensures Inv() && (Past(), ok) == SigningUp(world, interactive, old(Past()))
    {
      hide Inv, Obtaining;
      ok := Obtain();
      if !ok {
        return;
      }
      ok := Obtain();
      var named := Choose();
      ok := ok && named;
    }

    /** The run up to its first failure. */
    method Attempt(login: bool)
      requires Inv() && Past() == START
      modifies `session, `retired, `uncertain, `asked, `chosen, `log, `verificationAttempted
      ensures Inv() && Past() == Attempting(world, interactive, login)
    {
      hide Inv, Obtaining, Consulting, SigningIn, SigningUp;
      var ok: bool;
      if login {
        ok := SignIn();
      } else {
        ok := SignUp();
      }
      if ok {
        ok := Consult(2);
        if ok {
          ok := Obtain();
          if ok {
            ok := Consult(4);
          }
        }
      }
    }

    /** The handles to delete: the first of every identity. */
    static method Owned(handles: seq<Session>) returns (owned: seq<Session>)
      ensures forall i, j :: 0 <= i < j < |owned| ==> owned[i].uid != owned[j].uid
      ensures forall h :: h in owned ==> h.uid != "" && FirstWith(handles, h.uid) == Some(h.accessToken)
      ensures forall uid :: uid != "" && FirstWith(handles, uid).Some? ==> exists h :: h in owned && h.uid == uid
    {
      var seen: set<string> := {};
      owned := [];
      for i := 0 to |handles|
        invariant forall h :: h in owned ==> h.uid in seen
        invariant forall uid :: uid in seen ==> exists h :: h in owned && h.uid == uid
        invariant forall i, j :: 0 <= i < j < |owned| ==> owned[i].uid != owned[j].uid
        invariant forall h :: h in owned ==> h.uid != "" && FirstWith(handles[..i], h.uid) == Some(h.accessToken)
        invariant forall uid :: uid != "" && FirstWith(handles[..i], uid).Some? ==> uid in seen
      {
        var h := handles[i];
        assert handles[..i + 1] == handles[..i] + [h];
        forall uid
          ensures FirstWith(handles[..i + 1], uid) ==
            if FirstWith(handles[..i], uid).Some? then FirstWith(handles[..i], uid)
            else if h.uid == uid then Some(h.accessToken) else None
        {
          FirstWithAppended(handles[..i], h, uid);
        }
        if h.uid != "" && h.uid !in seen {
          ghost var before := owned;
          owned := owned + [h];
          seen := seen + {h.uid};
          forall uid | uid in seen
            ensures exists g :: g in owned && g.uid == uid
          {
            if uid == h.uid {
              assert h in owned;
            } else {
              var g :| g in before && g.uid == uid;
              assert g in owned;
            }
          }
        }
      }
      assert handles[..|handles|] == handles;
    }

    /** One deletion for every owned handle, each under that handle's identity. */
    method DeleteAll(owned: seq<Session>)
      requires deletes == [] && cleanup == NotNeeded
      modifies `session, `cleanup, `deletes
      ensures |deletes| == |owned|
      ensures forall k :: 0 <= k < |deletes| ==> deletes[k].ok == world.deletions(k)
      ensures forall k :: 0 <= k < |owned| ==> deletes[k].uid == owned[k].uid && deletes[k].token == owned[k].accessToken
      ensures cleanup == if owned == [] then NotNeeded else if AllDeleted(deletes) then Revoked else RevocationFailed
      ensures session == if owned == [] then old(session) else NO_SESSION
    {
      if owned != [] {
        cleanup := Revoked;
      }
      for i := 0 to |owned|
        invariant |deletes| == i && session == if i == 0 then old(session) else NO_SESSION
        invariant forall k :: 0 <= k < i ==> deletes[k].uid == owned[k].uid && deletes[k].token == owned[k].accessToken
        invariant forall k :: 0 <= k < i ==> deletes[k].ok == world.deletions(k)
        invariant cleanup == if owned == [] then NotNeeded else if AllDeleted(deletes) then Revoked else RevocationFailed
      {
        session := owned[i];
        var deleted := world.deletions(i);
        ghost var before := deletes;
        var deletion := Deletion(session.uid, session.accessToken, deleted);
        deletes := deletes + [deletion];
        assert AllDeleted(deletes) <==> AllDeleted(before) && deleted by {
          assert deletion in deletes;
          assert forall d :: d in before ==> d in deletes;
        }
        if !deleted {
          cleanup := RevocationFailed;
        }
        session := NO_SESSION;
      }
    }

    /** What every exit of the run does. */
    method Finish()
      requires Inv()
      modifies `session, `retired, `cleanup, `deletes
      ensures Conserved(EventsOf(log), deletes)
      ensures forall k :: 0 <= k < |deletes| ==> deletes[k].ok == world.deletions(k)
      ensures cleanup == Report(deletes == [], AllDeleted(deletes), Uncertain(EventsOf(log)))
      ensures session.uid == "" && retired == []
    {
      hide Held, FirstWith, LastWith, Reversed, AllDeleted, Uncertain, EventsOf;
      ghost var events := EventsOf(log);
      var handles := [session] + Reversed(retired);
      HandlesAreLatest(retired, session, events);
      SessionIsOwned(session, Reversed(retired));
      var owned := Owned(handles);
      DeleteAll(owned);
      retired := [];
      if uncertain {
        if owned == [] {
          cleanup := UnknownWithoutHandle;
        } else if cleanup == Revoked {
          cleanup := RemoteStateUnknown;
        } else {
          cleanup := FailedAndUnknown;
        }
      }
      ConservedByOwned(events, handles, owned, deletes);
    }
  }

  lemma HandlesAreLatest(retired: seq<Session>, session: Session, events: seq<Event>)
    requires Held(retired, session, events)
    ensures forall uid :: uid != "" ==> FirstWith([session] + Reversed(retired), uid) == Latest(events, uid)
  {
    var all := retired + [session];
    assert all[..|retired|] == retired;
    assert Reversed(all) == [session] + Reversed(retired);
    forall uid | uid != ""
      ensures FirstWith(Reversed(all), uid) == Latest(events, uid)
    {
      FirstOfReversed(all, uid);
    }
  }

  lemma SessionIsOwned(session: Session, more: seq<Session>)
    ensures FirstWith([session] + more, session.uid) == Some(session.accessToken)
  {
  }

  lemma ConservedByOwned(events: seq<Event>, handles: seq<Session>, owned: seq<Session>, deletes: seq<Deletion>)
    requires forall uid :: uid != "" ==> FirstWith(handles, uid) == Latest(events, uid)
    requires forall i, j :: 0 <= i < j < |owned| ==> owned[i].uid != owned[j].uid
    requires forall h :: h in owned ==> h.uid != "" && FirstWith(handles, h.uid) == Some(h.accessToken)
    requires forall uid :: uid != "" && FirstWith(handles, uid).Some? ==> exists h :: h in owned && h.uid == uid
    requires |deletes| == |owned|
    requires forall k :: 0 <= k < |owned| ==> deletes[k].uid == owned[k].uid && deletes[k].token == owned[k].accessToken
    ensures Conserved(events, deletes)
  {
    hide FirstWith, Latest;
    forall d | d in deletes
      ensures d.uid != "" && Latest(events, d.uid) == Some(d.token)
    {
      var k :| 0 <= k < |deletes| && deletes[k] == d;
      assert owned[k] in owned;
    }
    forall uid | uid != "" && Latest(events, uid).Some?
      ensures exists d :: d in deletes && d.uid == uid
    {
      var h :| h in owned && h.uid == uid;
      var k :| 0 <= k < |owned| && owned[k] == h;
      assert deletes[k] in deletes;
    }
  }

  /**
   * A whole run: its log is the world's, every session taken in is deleted once, the report says
   * how that and the last request ended, and all requests are resolved exactly when the last one
   * is and no stray one was repeated.
   */
  method Run(world: World, interactive: bool, login: bool)
    returns (cleanup: Cleanup, deletes: seq<Deletion>, ghost log: seq<Entry>)
    ensures log == RunLog(world, interactive, login)
    ensures Conserved(EventsOf(log), deletes)
    ensures forall k :: 0 <= k < |deletes| ==> deletes[k].ok == world.deletions(k)
    ensures cleanup == Report(deletes == [], AllDeleted(deletes), Uncertain(EventsOf(log)))
    ensures AllResolved(EventsOf(log)) <==> !Uncertain(EventsOf(log)) && !StrayRepeat(log)
    ensures Repeats(log) <= 1
  {
    hide EventsOf, Attempting, Conserved;
    var flow := new Flow(world, interactive);
    flow.Attempt(login);
    flow.Finish();
    RunResolvesExactly(world, interactive, login);
    cleanup, deletes, log := flow.cleanup, flow.deletes, flow.log;
  }

  /** The concrete failing run: reported as revoked, with a session request unresolved. */
  method StrayRun() returns (cleanup: Cleanup, ghost log: seq<Entry>)
    ensures cleanup == Revoked && log == RunLog(STRAY, true, false) && !AllResolved(EventsOf(log))
  {
    StrayRunIsUnresolved();
    hide RunLog, EventsOf, Uncertain, AllResolved, Latest;
    var deletes;
    cleanup, deletes, log := Run(STRAY, true, false);
    assert exists d :: d in deletes && d.uid == "uid";
  }
}
