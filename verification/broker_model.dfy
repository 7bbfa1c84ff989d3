/** The broker's tables and handlers as functions on values (broker/broker.js). The mail type
    `M` is a parameter: the handlers move envelopes about and never look inside one, so the
    same functions serve the real envelopes and the numbered pushes of module World. */
module BrokerModel {
  import opened Wrappers
  import opened Text
  import opened Identity

  const LEASE_TTL_MS: nat := 75 * 1000
  const STALE_GC_MS: nat := 10 * 60 * 1000
  const MAILBOX_TTL_MS: nat := 5 * 60 * 1000

  type Token = nat

  /** sha256 of a session id, taken to be injective. */
  datatype SessionHash = SessionHash(sessionId: string)

  datatype Envelope = Envelope(id: string, from: string, to: string, body: string,
                               replyTo: Option<string>, conversationId: Option<string>,
                               source: string, sentAt: string)

  /** A JSON value where the code asks only: is it null or absent, and is it a string? */
  datatype Field = Absent | NotText | Text(text: string)

  function TextOf(f: Field): string { if f.Text? then f.text else "" }

  // ---- register request validation ---------------------------------------------------

  datatype SocketPath = NoPath | Untrusted | Trusted(resolved: string)
  datatype DeliveryField = NoDelivery | DeliveryField(socketPath: SocketPath, adapterToken: Field)
  datatype Delivery = Delivery(socketPath: Option<string>, adapterToken: Option<string>)

  datatype RegisterRequest = RegisterRequest(kind: Field, sessionId: Field, displayName: Field,
                                             description: Field, delivery: DeliveryField, short: ShortId)

  /** What a register request says once it has passed every check that needs no table. */
  datatype Profile = Profile(kind: string, sessionId: string, displayName: Option<string>,
                             description: Option<string>, name: Option<string>,
                             delivery: Option<Delivery>, short: ShortId)

  function ParseOptionalText(field: Field, maxLength: nat, invalid: string, tooLong: string)
    : Result<Option<string>, string> {
    match field
    case Absent => Success(None)
    case NotText => Failure(invalid)
    case Text(value) =>
      var normalized := Trim(CollapseSpaces(value));
      if normalized == "" then Success(None)
      else if JsLength(normalized) > maxLength then Failure(tooLong)
      else Success(Some(normalized))
  }

  function ParseDelivery(field: DeliveryField): Result<Option<Delivery>, string> {
    match field
    case NoDelivery => Success(None)
    case DeliveryField(path, token) =>
      if path.Untrusted? then Failure("invalid_delivery_socket_path")
      else if token.NotText? || (token.Text? && !(16 <= JsLength(token.text) <= 256))
        then Failure("invalid_adapter_token")
      else Success(Some(Delivery(if path.Trusted? then Some(path.resolved) else None,
                                 if token.Text? then Some(token.text) else None)))
  }

  function Validate(req: RegisterRequest): Result<Profile, string> {
    if !(req.kind.Text? && IsKind(req.kind.text)) then Failure("invalid_kind")
    else if !(req.sessionId.Text? && 1 <= JsLength(req.sessionId.text) <= 256) then Failure("invalid_sessionId")
    else
      var displayName := ParseOptionalText(req.displayName, 64, "invalid_display_name", "display_name_too_long");
      if displayName.Failure? then Failure(displayName.error) else
      var description := ParseOptionalText(req.description, 200, "invalid_description", "description_too_long");
      if description.Failure? then Failure(description.error) else
      var name := NormalizeName(displayName.value);
      if name.Failure? then Failure(name.error) else
      var delivery := ParseDelivery(req.delivery);
      if delivery.Failure? then Failure(delivery.error) else
      Success(Profile(req.kind.text, req.sessionId.text, displayName.value, description.value,
                      name.value, delivery.value, req.short))
  }

  predicate ProfileOk(p: Profile) {
    IsKind(p.kind) && p.sessionId != "" && (p.name.Some? ==> IsNamedId(p.name.value))
  }

  lemma ValidateGivesGoodProfile(req: RegisterRequest)
    ensures Validate(req).Success? ==> ProfileOk(Validate(req).value)
  {
  }

  // ---- tables ------------------------------------------------------------------------

  datatype Record = Record(participantId: string, kind: string, sessionId: string,
                           displayName: Option<string>, description: Option<string>,
                           delivery: Option<Delivery>,
                           registeredAt: nat, lastHeartbeat: nat, leaseExpiresAt: nat)

  datatype Recent = Recent(sessionId: string, kind: string, lastSeenAt: nat)

  datatype Entry<M> = Entry(participantId: string, mail: M, queuedAt: nat)

  /** One link of a delivery chain: a push whose sender waits, or a flushed mailbox entry. */
  datatype Slot<M> = Live(to: string, mail: M) | Flushed(to: string, mail: M)

  /** The delivery chain of one registration. It hangs on the participant record, so it goes on
      running when the record has left the tables. `inFlight`: the head has been dialled. */
  datatype Chain<M> = Chain(participantId: string, sessionId: string, reachable: bool,
                            slots: seq<Slot<M>>, inFlight: bool)

  datatype State<M> = State(participants: map<Token, Record>, byId: map<string, Token>,
                            recent: map<string, Recent>,
                            mailbox: map<SessionHash, seq<Entry<M>>>,
                            chains: map<Token, Chain<M>>)

  datatype Response =
    | Error(code: string)
    | Registered(participantId: string, token: Token, expiresAt: nat, reclaimed: bool)
    | Renewed(expiresAt: nat)
    | Unregistered
    | Delivered(from: string)
    | Queued(from: string, reason: string)
    | Failed(from: string, reason: string)

  predicate LeaseValid(r: Record, now: nat) { now < r.leaseExpiresAt }

  function Queue<M>(mailbox: map<SessionHash, seq<Entry<M>>>, h: SessionHash): seq<Entry<M>> {
    if h in mailbox then mailbox[h] else []
  }

  predicate IsFresh<M>(e: Entry<M>, now: nat) { now - e.queuedAt < MAILBOX_TTL_MS }

  /** The entries still inside their time to live, in order. */
  function Unexpired<M>(q: seq<Entry<M>>, now: nat): seq<Entry<M>> {
    if q == [] then []
    else
      var kept := Unexpired(q[..|q| - 1], now);
      if IsFresh(q[|q| - 1], now) then kept + [q[|q| - 1]] else kept
  }

  function FlushSlots<M>(q: seq<Entry<M>>): seq<Slot<M>> {
    seq(|q|, k requires 0 <= k < |q| => Flushed(q[k].participantId, q[k].mail))
  }

  function WithoutAliases(recent: map<string, Recent>, sessionId: string, keep: string): map<string, Recent> {
    map id | id in recent && (recent[id].sessionId != sessionId || id == keep) :: recent[id]
  }

  function MarkRecent(recent: map<string, Recent>, r: Record, now: nat): map<string, Recent> {
    recent[r.participantId := Recent(r.sessionId, r.kind, now)]
  }

  function Enqueue<M>(s: State<M>, h: SessionHash, e: Entry<M>): State<M> {
    s.(mailbox := s.mailbox[h := Queue(s.mailbox, h) + [e]])
  }

  ghost function FindBySession(participants: map<Token, Record>, sessionId: string): (r: Option<Token>)
    ensures r.Some? ==> r.value in participants && participants[r.value].sessionId == sessionId
    ensures r.None? ==> forall t :: t in participants ==> participants[t].sessionId != sessionId
  {
    if t :| t in participants && participants[t].sessionId == sessionId then Some(t) else None
  }

  // ---- handlers ----------------------------------------------------------------------

  function NewRecord(p: Profile, id: string, now: nat): Record {
    Record(id, p.kind, p.sessionId, p.displayName, p.description, p.delivery, now, now, now + LEASE_TTL_MS)
  }

  predicate Reachable(d: Option<Delivery>) { d.Some? && d.value.socketPath.Some? && d.value.socketPath.value != "" }

  /** The second half of handleRegister, with the mailbox flush it ends in. */
  function Install<M>(s: State<M>, now: nat, token: Token, p: Profile, id: string, reclaimed: bool)
    : (State<M>, Response) {
    if id in s.byId then (s, Error("participant_id_in_use"))
    else
      var r := NewRecord(p, id, now);
      var h := SessionHash(p.sessionId);
      var mail := Unexpired(Queue(s.mailbox, h), now);
      (State(s.participants[token := r], s.byId[id := token],
             MarkRecent(WithoutAliases(s.recent, p.sessionId, id), r, now),
             s.mailbox - {h},
             s.chains[token := Chain(id, p.sessionId, Reachable(p.delivery), FlushSlots(mail), false)]),
       Registered(id, token, r.leaseExpiresAt, reclaimed))
  }

  /** A session that has a record asks again: refused while the lease is live, else the record is
      deleted first and its id reused unless a name is given. */
  function Reclaim<M>(s: State<M>, now: nat, token: Token, p: Profile, t: Token): (State<M>, Response)
    requires t in s.participants
  {
    var prior := s.participants[t];
    if prior.kind != p.kind then (s, Error("kind_mismatch_for_sessionId"))
    else if LeaseValid(prior, now) then (s, Error("session_lease_active"))
    else
      var cleared := s.(participants := s.participants - {t}, byId := s.byId - {prior.participantId});
      var id := p.name.GetOr(prior.participantId);
      Install(cleared, now, token, p, id, id == prior.participantId)
  }

  /** A session without a record registers; `internal` is the thrown collision error. */
  function Enroll<M>(s: State<M>, now: nat, token: Token, p: Profile): (State<M>, Response) {
    match if p.name.Some? then p.name else BuildParticipantId(s.byId.Keys, p.kind, p.short)
    case None => (s, Error("internal"))
    case Some(id) => Install(s, now, token, p, id, false)
  }

  /** handleRegister after validation. */
  ghost function Admit<M>(s: State<M>, now: nat, token: Token, p: Profile): (State<M>, Response) {
    match FindBySession(s.participants, p.sessionId)
    case Some(t) => Reclaim(s, now, token, p, t)
    case None => Enroll(s, now, token, p)
  }

  ghost function Register<M>(s: State<M>, now: nat, token: Token, req: RegisterRequest): (State<M>, Response) {
    match Validate(req)
    case Failure(code) => (s, Error(code))
    case Success(p) => Admit(s, now, token, p)
  }

  function Heartbeat<M>(s: State<M>, now: nat, lease: Token): (State<M>, Response) {
    if lease !in s.participants then (s, Error("invalid_lease"))
    else
      var r := s.participants[lease];
      if !LeaseValid(r, now) then (s, Error("lease_expired"))
      else
        var renewed := r.(leaseExpiresAt := now + LEASE_TTL_MS, lastHeartbeat := now);
        (s.(participants := s.participants[lease := renewed], recent := MarkRecent(s.recent, renewed, now)),
         Renewed(renewed.leaseExpiresAt))
  }

  function Unregister<M>(s: State<M>, now: nat, lease: Token): (State<M>, Response) {
    if lease !in s.participants then (s, Error("invalid_lease"))
    else
      var r := s.participants[lease];
      (s.(participants := s.participants - {lease},
          byId := if r.participantId in s.byId && s.byId[r.participantId] == lease
                  then s.byId - {r.participantId} else s.byId,
          recent := MarkRecent(s.recent, r, now)),
       Unregistered)
  }

  datatype PushRequest = PushRequest(lease: Token, to: Field, id: Field, body: Field,
                                     replyTo: Option<string>, conversationId: Option<string>,
                                     source: Option<string>, sentAt: Option<string>)

  /** The checks at the head of handlePush; Success carries the sender's bound id. */
  function CheckPush(participants: map<Token, Record>, now: nat, req: PushRequest): Result<string, string> {
    if req.lease !in participants || !LeaseValid(participants[req.lease], now) then Failure("invalid_or_expired_lease")
    else if !(req.to.Text? && IsParticipantId(req.to.text)) then Failure("invalid_to_participant_id")
    else if !(req.id.Text? && 1 <= JsLength(req.id.text) <= 128) then Failure("invalid_message_id")
    else if !(req.body.Text? && req.body.text != "") then Failure("invalid_message_body")
    else Success(participants[req.lease].participantId)
  }

  function NonEmpty(o: Option<string>): Option<string> {
    if o == Some("") then None else o
  }

  function MakeEnvelope(from: string, req: PushRequest, nowIso: string): Envelope
    requires req.to.Text? && req.id.Text? && req.body.Text?
  {
    Envelope(req.id.text, from, req.to.text, req.body.text, NonEmpty(req.replyTo), NonEmpty(req.conversationId),
             NonEmpty(req.source).GetOr("participant"), NonEmpty(req.sentAt).GetOr(nowIso))
  }

  /** A message arrives as it was sent, under the sender's bound id; what was left out or empty gets
      its default. */
  lemma EnvelopeSaysWhatWasSent(from: string, req: PushRequest, nowIso: string)
    requires req.to.Text? && req.id.Text? && req.body.Text?
    ensures var e := MakeEnvelope(from, req, nowIso);
            && req.(to := Text(e.to), id := Text(e.id), body := Text(e.body)) == req && e.from == from
            && (forall x :: x != "" ==>
                  && (req.replyTo == Some(x) <==> e.replyTo == Some(x))
                  && (req.conversationId == Some(x) <==> e.conversationId == Some(x))
                  && (req.source == Some(x) ==> e.source == x) && (req.sentAt == Some(x) ==> e.sentAt == x))
            && (req.source in {None, Some("")} ==> e.source == "participant")
            && (req.sentAt in {None, Some("")} ==> e.sentAt == nowIso)
  {
  }

  /** Where a validated push goes: onto a live recipient's chain, into the mailbox of the session
      that was last seen under the id, or nowhere. */
  datatype Destination = Online(token: Token) | Offline(sessionId: string) | Unknown

  function Route<M>(s: State<M>, now: nat, to: string): Destination {
    if to in s.byId && s.byId[to] in s.participants && LeaseValid(s.participants[s.byId[to]], now)
    then Online(s.byId[to])
    else if to in s.recent then Offline(s.recent[to].sessionId)
    else Unknown
  }

  /** The effect of handlePush up to its `await`. */
  function Dispatch<M>(s: State<M>, now: nat, to: string, mail: M, dest: Destination): State<M> {
    match dest
    case Online(t) =>
      if t in s.chains then s.(chains := s.chains[t := s.chains[t].(slots := s.chains[t].slots + [Live(to, mail)])])
      else s
    case Offline(sessionId) => Enqueue(s, SessionHash(sessionId), Entry(to, mail, now))
    case Unknown => s
  }

  /** What the sender is told at once; a sender routed to a live chain waits. */
  function RouteAnswer(from: string, dest: Destination): Option<Response> {
    match dest
    case Online(_) => None
    case Offline(_) => Some(Queued(from, "recipient_offline"))
    case Unknown => Some(Failed(from, "no_such_participant"))
  }

  predicate CanStart<M>(s: State<M>, r: Token) {
    r in s.chains && s.chains[r].slots != [] && !s.chains[r].inFlight
  }

  predicate CanComplete<M>(s: State<M>, r: Token) {
    r in s.chains && s.chains[r].slots != [] && s.chains[r].inFlight
  }

  /** The chain reaches its next link and dials the adapter. */
  function Start<M>(s: State<M>, r: Token): State<M>
    requires CanStart(s, r)
  {
    s.(chains := s.chains[r := s.chains[r].(inFlight := true)])
  }

  /** The head forward settles. A rejected message goes back to the mailbox of the session the
      chain belongs to, before the next link runs. */
  function Complete<M>(s: State<M>, now: nat, r: Token, accepted: bool): State<M>
    requires CanComplete(s, r)
  {
    var c := s.chains[r];
    var popped := s.(chains := s.chains[r := c.(slots := c.slots[1..], inFlight := false)]);
    if accepted then popped
    else Enqueue(popped, SessionHash(c.sessionId), Entry(c.slots[0].to, c.slots[0].mail, now))
  }

  /** What the sender of the settled link is told, if it still waits: handlePush after `await`. */
  function ForwardAnswer(head: Slot<Envelope>, accepted: bool, reason: string): Option<Response> {
    match head
    case Flushed(_, _) => None
    case Live(_, envelope) => Some(if accepted then Delivered(envelope.from) else Queued(envelope.from, reason))
  }

  predicate Collectable(r: Record, now: nat) { now >= r.leaseExpiresAt + STALE_GC_MS }

  function PruneMailbox<M>(mailbox: map<SessionHash, seq<Entry<M>>>, now: nat): map<SessionHash, seq<Entry<M>>> {
    map h | h in mailbox && Unexpired(mailbox[h], now) != [] :: Unexpired(mailbox[h], now)
  }

  function KeptRecords(participants: map<Token, Record>, now: nat): map<Token, Record> {
    map t | t in participants && !Collectable(participants[t], now) :: participants[t]
  }

  /** The ids whose own record is not collected. */
  function KeptIds(participants: map<Token, Record>, byId: map<string, Token>, now: nat): map<string, Token> {
    map id | id in byId && !(byId[id] in participants && participants[byId[id]].participantId == id
                             && Collectable(participants[byId[id]], now)) :: byId[id]
  }

  function KeptRecent(recent: map<string, Recent>, now: nat): map<string, Recent> {
    map id | id in recent && now - recent[id].lastSeenAt < STALE_GC_MS :: recent[id]
  }

  function GcTick<M>(s: State<M>, now: nat): State<M> {
    State(KeptRecords(s.participants, now), KeptIds(s.participants, s.byId, now), KeptRecent(s.recent, now),
          PruneMailbox(s.mailbox, now), s.chains)
  }

  /** The state of a broker that has just loaded the mailbox directory at start-up. */
  function Reload<M>(s: State<M>, now: nat): State<M> {
    State(map[], map[], map[], PruneMailbox(s.mailbox, now), map[])
  }

  function Init<M>(): State<M> { State(map[], map[], map[], map[], map[]) }

  // ---- facts about the time-to-live filter --------------------------------------------

  lemma {:induction false} UnexpiredMembers<M>(q: seq<Entry<M>>, now: nat)
    ensures forall e :: e in Unexpired(q, now) <==> e in q && IsFresh(e, now)
    ensures |Unexpired(q, now)| <= |q|
    ensures |Unexpired(q, now)| == |q| ==> Unexpired(q, now) == q
  {
    if q != [] {
      UnexpiredMembers(q[..|q| - 1], now);
      assert q == q[..|q| - 1] + [q[|q| - 1]];
    }
  }

  lemma {:induction false} UnexpiredAppend<M>(a: seq<Entry<M>>, b: seq<Entry<M>>, now: nat)
    ensures Unexpired(a + b, now) == Unexpired(a, now) + Unexpired(b, now)
  {
    if b == [] {
      assert a + b == a;
    } else {
      assert (a + b)[..|a + b| - 1] == a + b[..|b| - 1];
      UnexpiredAppend(a, b[..|b| - 1], now);
    }
  }

  /** Filtering early drops nothing that a later filter would keep. */
  lemma {:induction false} UnexpiredTwice<M>(q: seq<Entry<M>>, now: nat, later: nat)
    requires now <= later
    ensures Unexpired(Unexpired(q, now), later) == Unexpired(q, later)
  {
    if q != [] {
      var init, last := q[..|q| - 1], q[|q| - 1];
      UnexpiredTwice(init, now, later);
      if IsFresh(last, now) {
        UnexpiredAppend(Unexpired(init, now), [last], later);
        assert Unexpired([last], later) == if IsFresh(last, later) then [last] else [];
      }
    }
  }
}
