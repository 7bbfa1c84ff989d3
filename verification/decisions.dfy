/** How the broker decides, as decision tables: the first line that applies is the answer. */
module Decisions {
  import opened Wrappers
  import opened Text
  import opened Identity
  import opened BrokerModel
  import opened BrokerTables

  /** A refusal and when it applies. */
  datatype Row = Row(applies: bool, code: string)

  function FirstOf(rows: seq<Row>): Option<string> {
    if rows == [] then None else if rows[0].applies then Some(rows[0].code) else FirstOf(rows[1..])
  }

  lemma FirstOfCons(row: Row, rows: seq<Row>)
    ensures FirstOf([row] + rows) == if row.applies then Some(row.code) else FirstOf(rows)
  {
    assert ([row] + rows)[1..] == rows;
  }

  lemma FirstOfNone()
    ensures FirstOf([]) == None
  {
  }

  // ---- leases ------------------------------------------------------------------------------------------

  predicate IsLive(participants: map<Token, Record>, t: Token, now: nat) {
    t in participants && now < participants[t].leaseExpiresAt
  }

  function HeartbeatRows(participants: map<Token, Record>, now: nat, lease: Token): seq<Row> {
    [Row(lease !in participants, "invalid_lease")] + [Row(!IsLive(participants, lease, now), "lease_expired")]
  }

  /** A heartbeat is refused or buys 75 s from now. */
  lemma HeartbeatDecides<M>(s: State<M>, now: nat, lease: Token)
    ensures var refusal := FirstOf(HeartbeatRows(s.participants, now, lease));
            Heartbeat(s, now, lease).1 == if refusal.Some? then Error(refusal.value) else Renewed(now + 75_000)
    ensures FirstOf(HeartbeatRows(s.participants, now, lease)).Some? ==> Heartbeat(s, now, lease).0 == s
    ensures FirstOf(HeartbeatRows(s.participants, now, lease)).None? ==>
              var r := s.participants[lease]; var s1 := Heartbeat(s, now, lease).0;
              && s1 == s.(participants := s1.participants, recent := s1.recent)
              && s1.participants == s.participants[lease := r.(leaseExpiresAt := now + 75_000, lastHeartbeat := now)]
              && s1.recent == s.recent[r.participantId := Recent(r.sessionId, r.kind, now)]
  {
    FirstOfCons(Row(lease !in s.participants, "invalid_lease"),
                [Row(!IsLive(s.participants, lease, now), "lease_expired")]);
    FirstOfOne(Row(!IsLive(s.participants, lease, now), "lease_expired"));
  }

  lemma FirstOfOne(row: Row)
    ensures FirstOf([row]) == if row.applies then Some(row.code) else None
  {
  }

  /** Only an unknown token cannot unregister. */
  lemma UnregisterDecides<M>(s: State<M>, now: nat, lease: Token)
    ensures Unregister(s, now, lease).1 == if lease in s.participants then Unregistered else Error("invalid_lease")
    ensures lease !in Unregister(s, now, lease).0.participants
    ensures lease in s.participants ==>
              var r := s.participants[lease]; var s1 := Unregister(s, now, lease).0;
              && s1 == s.(participants := s.participants - {lease}, byId := s1.byId, recent := s1.recent)
              && s1.recent == s.recent[r.participantId := Recent(r.sessionId, r.kind, now)]
  {
  }

  // ---- push ----------------------------------------------------------------------------------------------

  function PushRows(participants: map<Token, Record>, now: nat, req: PushRequest): seq<Row> {
    [Row(!IsLive(participants, req.lease, now), "invalid_or_expired_lease")]
    + ([Row(!(req.to.Text? && IsParticipantId(req.to.text)), "invalid_to_participant_id")]
       + ([Row(!(req.id.Text? && 1 <= JsLength(req.id.text) <= 128), "invalid_message_id")]
          + [Row(!(req.body.Text? && req.body.text != ""), "invalid_message_body")]))
  }

  /** A push is refused by the first line that applies, or goes out under the id bound to its lease. */
  lemma PushDecides(participants: map<Token, Record>, now: nat, req: PushRequest)
    ensures var refusal := FirstOf(PushRows(participants, now, req));
            CheckPush(participants, now, req)
            == if refusal.Some? then Failure(refusal.value) else Success(participants[req.lease].participantId)
    ensures FirstOf(PushRows(participants, now, req)).None? ==>
              && IsLive(participants, req.lease, now) && req.to.Text? && IsParticipantId(req.to.text)
              && req.id.Text? && 1 <= JsLength(req.id.text) <= 128 && req.body.Text? && req.body.text != ""
  {
    hide IsParticipantId, JsLength, FirstOf;
    var a := Row(!IsLive(participants, req.lease, now), "invalid_or_expired_lease");
    var b := Row(!(req.to.Text? && IsParticipantId(req.to.text)), "invalid_to_participant_id");
    var c := Row(!(req.id.Text? && 1 <= JsLength(req.id.text) <= 128), "invalid_message_id");
    var d := Row(!(req.body.Text? && req.body.text != ""), "invalid_message_body");
    FirstOfCons(a, [b] + ([c] + [d]));
    FirstOfCons(b, [c] + [d]);
    FirstOfCons(c, [d]);
    FirstOfOne(d);
  }

  /** Whoever holds the id with a lease that has not expired is dialled; otherwise the mail waits for the
      session last seen under the id, if there is one, and the sender is told so at once. */
  lemma RouteDecides<M>(s: State<M>, now: nat, from: string, to: string)
    requires Inverse(s)
    ensures var dest := Route(s, now, to);
            if t :| IsLive(s.participants, t, now) && s.participants[t].participantId == to
            then dest == Online(t) && RouteAnswer(from, dest) == None
            else if to in s.recent
            then dest == Offline(s.recent[to].sessionId)
                 && RouteAnswer(from, dest) == Some(Queued(from, "recipient_offline"))
            else dest == Unknown && RouteAnswer(from, dest) == Some(Failed(from, "no_such_participant"))
  {
  }

  // ---- register ------------------------------------------------------------------------------------------

  function FirstOr(a: Option<string>, b: Option<string>): Option<string> { if a.Some? then a else b }

  lemma {:induction false} FirstOfAppend(a: seq<Row>, b: seq<Row>)
    ensures FirstOf(a + b) == FirstOr(FirstOf(a), FirstOf(b))
  {
    if a == [] {
      assert a + b == b;
    } else {
      assert (a + b)[1..] == a[1..] + b;
      FirstOfAppend(a[1..], b);
    }
  }

  lemma FirstOfTwo(a: Row, b: Row)
    ensures FirstOf([a, b]) == if a.applies then Some(a.code) else if b.applies then Some(b.code) else None
  {
    assert [a, b] == [a] + [b];
    FirstOfCons(a, [b]);
    FirstOfOne(b);
  }

  /** A text as it is shown: every run of white space a single space, none at the ends. */
  function Shown(f: Field): string { if f.Text? then Trim(CollapseSpaces(f.text)) else "" }

  function IfShown(f: Field): Option<string> { if Shown(f) == "" then None else Some(Shown(f)) }

  /** The id a display name asks for. */
  function WantedName(req: RegisterRequest): Option<string> {
    if Shown(req.displayName) == "" then None else Some(Slug(Shown(req.displayName)))
  }

  function WhoRows(req: RegisterRequest): seq<Row> {
    [Row(!(req.kind.Text? && IsKind(req.kind.text)), "invalid_kind"),
     Row(!(req.sessionId.Text? && 1 <= JsLength(req.sessionId.text) <= 256), "invalid_sessionId")]
  }

  function DisplayNameRows(req: RegisterRequest): seq<Row> {
    [Row(req.displayName.NotText?, "invalid_display_name"),
     Row(JsLength(Shown(req.displayName)) > 64, "display_name_too_long")]
  }

  function DescriptionRows(req: RegisterRequest): seq<Row> {
    [Row(req.description.NotText?, "invalid_description"),
     Row(JsLength(Shown(req.description)) > 200, "description_too_long")]
  }

  function NameRows(req: RegisterRequest): seq<Row> {
    [Row(WantedName(req).Some? && !IsNamedId(WantedName(req).value), "invalid_display_name")]
  }

  function DeliveryRows(d: DeliveryField): seq<Row> {
    [Row(d.DeliveryField? && d.socketPath.Untrusted?, "invalid_delivery_socket_path"),
     Row(d.DeliveryField? && !d.adapterToken.Absent?
         && !(d.adapterToken.Text? && 16 <= JsLength(d.adapterToken.text) <= 256), "invalid_adapter_token")]
  }

  function ProfileRows(req: RegisterRequest): seq<Row> {
    WhoRows(req) + (DisplayNameRows(req) + (DescriptionRows(req) + (NameRows(req) + DeliveryRows(req.delivery))))
  }

  /** What an accepted request says. */
  function Says(d: DeliveryField): Option<Delivery> {
    match d
    case NoDelivery => None
    case DeliveryField(path, token) =>
      Some(Delivery(match path case Trusted(resolved) => Some(resolved) case _ => None,
                    match token case Text(text) => Some(text) case _ => None))
  }

  lemma TextDecides(f: Field, max: nat, invalid: string, tooLong: string)
    ensures ParseOptionalText(f, max, invalid, tooLong)
            == if f.NotText? then Failure(invalid)
               else if JsLength(Shown(f)) > max then Failure(tooLong)
               else Success(IfShown(f))
  {
  }

  lemma DeliveryDecides(d: DeliveryField)
    ensures var refusal := FirstOf(DeliveryRows(d));
            ParseDelivery(d) == if refusal.Some? then Failure(refusal.value) else Success(Says(d))
  {
    var rows := DeliveryRows(d);
    FirstOfTwo(rows[0], rows[1]);
  }

  lemma RowsInOrder(req: RegisterRequest)
    ensures FirstOf(ProfileRows(req))
            == FirstOr(FirstOf(WhoRows(req)),
                       FirstOr(FirstOf(DisplayNameRows(req)),
                               FirstOr(FirstOf(DescriptionRows(req)),
                                       FirstOr(FirstOf(NameRows(req)), FirstOf(DeliveryRows(req.delivery))))))
  {
    hide FirstOf, WhoRows, DisplayNameRows, DescriptionRows, NameRows, DeliveryRows;
    var d := DeliveryRows(req.delivery);
    FirstOfAppend(NameRows(req), d);
    FirstOfAppend(DescriptionRows(req), NameRows(req) + d);
    FirstOfAppend(DisplayNameRows(req), DescriptionRows(req) + (NameRows(req) + d));
    FirstOfAppend(WhoRows(req), DisplayNameRows(req) + (DescriptionRows(req) + (NameRows(req) + d)));
  }

  /** The checks of a register that need no table. */
  lemma ProfileDecides(req: RegisterRequest)
    ensures var refusal := FirstOf(ProfileRows(req));
            && (refusal.Some? ==> Validate(req) == Failure(refusal.value))
            && (refusal.None? ==>
                  req.kind.Text? && IsKind(req.kind.text) && req.sessionId.Text?
                  && Validate(req) == Success(Profile(req.kind.text, req.sessionId.text, IfShown(req.displayName),
                                                      IfShown(req.description), WantedName(req), Says(req.delivery),
                                                      req.short)))
  {
    hide FirstOf, IsKind, JsLength, Shown, Slug, IsNamedId, ParseOptionalText, ParseDelivery, DeliveryRows, Says;
    RowsInOrder(req);
    FirstOfTwo(WhoRows(req)[0], WhoRows(req)[1]);
    FirstOfTwo(DisplayNameRows(req)[0], DisplayNameRows(req)[1]);
    FirstOfTwo(DescriptionRows(req)[0], DescriptionRows(req)[1]);
    FirstOfOne(NameRows(req)[0]);
    TextDecides(req.displayName, 64, "invalid_display_name", "display_name_too_long");
    TextDecides(req.description, 200, "invalid_description", "description_too_long");
    DeliveryDecides(req.delivery);
  }

  /** The record of a session. */
  predicate IsOf(participants: map<Token, Record>, t: Token, session: string) {
    t in participants && participants[t].sessionId == session
  }

  function SessionText(req: RegisterRequest): string { TextOf(req.sessionId) }

  /** All eleven default ids are taken. */
  predicate NoneFree(used: set<string>, kind: string, short: ShortId) {
    forall k :: 0 <= k < 11 ==> Candidate(kind, short, k) in used
  }

  /** The refusals that depend on the tables. */
  ghost function SessionRows<M>(s: State<M>, now: nat, req: RegisterRequest): seq<Row> {
    var session := SessionText(req);
    [Row(exists t :: IsOf(s.participants, t, session) && Text(s.participants[t].kind) != req.kind,
         "kind_mismatch_for_sessionId"),
     Row(exists t :: IsOf(s.participants, t, session) && now < s.participants[t].leaseExpiresAt,
         "session_lease_active"),
     Row(WantedName(req).None? && (forall t :: !IsOf(s.participants, t, session))
         && req.kind.Text? && NoneFree(s.byId.Keys, req.kind.text, req.short), "internal"),
     Row(WantedName(req).Some? && exists t :: t in s.participants && s.participants[t].sessionId != session
                                              && s.participants[t].participantId == WantedName(req).value,
         "participant_id_in_use")]
  }

  /** Default id number `k` is the first one that is free. */
  predicate IsFirstFree(used: set<string>, kind: string, short: ShortId, k: nat, id: string)
    requires k < 11
  {
    id == Candidate(kind, short, k) && id !in used && forall j :: 0 <= j < k ==> Candidate(kind, short, j) in used
  }

  /** The id of a register that is not refused: the name asked for, or the one the session had, or the
      first default id that is free. */
  ghost predicate Gets<M>(s: State<M>, req: RegisterRequest, id: string) {
    var session := SessionText(req);
    if WantedName(req).Some? then id == WantedName(req).value
    else if t :| IsOf(s.participants, t, session) then id == s.participants[t].participantId
    else req.kind.Text? && exists k: nat :: k < 11 && IsFirstFree(s.byId.Keys, req.kind.text, req.short, k, id)
  }

  lemma FirstOfFour(a: Row, b: Row, c: Row, d: Row)
    ensures FirstOf([a, b, c, d])
            == if a.applies then Some(a.code) else if b.applies then Some(b.code)
               else if c.applies then Some(c.code) else if d.applies then Some(d.code) else None
  {
    assert [a, b, c, d] == [a] + [b, c, d] && [b, c, d] == [b] + [c, d];
    FirstOfCons(a, [b, c, d]);
    FirstOfCons(b, [c, d]);
    FirstOfTwo(c, d);
  }

  ghost predicate HadId<M>(s: State<M>, session: string, id: string) {
    exists t :: IsOf(s.participants, t, session) && s.participants[t].participantId == id
  }

  /** What a register that passes the first checks is answered. */
  ghost predicate Decided<M>(s: State<M>, now: nat, token: Token, req: RegisterRequest, response: Response) {
    var refusal := FirstOf(SessionRows(s, now, req));
    if refusal.Some? then response == Error(refusal.value)
    else exists id ::
           Gets(s, req, id) && response == Registered(id, token, now + 75_000, HadId(s, SessionText(req), id))
  }

  lemma SessionRowsInOrder<M>(s: State<M>, now: nat, req: RegisterRequest)
    ensures var rows := SessionRows(s, now, req);
            && |rows| == 4
            && FirstOf(rows)
               == if rows[0].applies then Some(rows[0].code) else if rows[1].applies then Some(rows[1].code)
                  else if rows[2].applies then Some(rows[2].code)
                  else if rows[3].applies then Some(rows[3].code) else None
  {
    var rows := SessionRows(s, now, req);
    FirstOfFour(rows[0], rows[1], rows[2], rows[3]);
  }

  lemma ReclaimDecides<M>(s: State<M>, now: nat, token: Token, req: RegisterRequest, t: Token)
    requires Inverse(s) && OneRecordPerSession(s) && FirstOf(ProfileRows(req)).None?
    requires IsOf(s.participants, t, SessionText(req))
    ensures Decided(s, now, token, req, Register(s, now, token, req).1)
  {
    hide FirstOf, ProfileRows, Slug, Shown, IsNamedId, BuildParticipantId, IsKind, Says, Validate, Reclaim;
    ProfileDecides(req);
    SessionRowsInOrder(s, now, req);
    var p := Validate(req).value;
    assert FindBySession(s.participants, p.sessionId) == Some(t);
    assert forall u :: IsOf(s.participants, u, p.sessionId) ==> u == t;
    assert Register(s, now, token, req) == Reclaim(s, now, token, p, t);
    ReclaimAnswers(s, now, token, p, t);
    var id := p.name.GetOr(s.participants[t].participantId);
    assert Gets(s, req, id);
  }

  /** A name is free for a session when no other session has it. */
  lemma ReclaimAnswers<M>(s: State<M>, now: nat, token: Token, p: Profile, t: Token)
    requires Inverse(s) && OneRecordPerSession(s) && IsOf(s.participants, t, p.sessionId)
    ensures var prior := s.participants[t]; var id := p.name.GetOr(prior.participantId);
            Reclaim(s, now, token, p, t).1
            == if prior.kind != p.kind then Error("kind_mismatch_for_sessionId")
               else if now < prior.leaseExpiresAt then Error("session_lease_active")
               else if exists u :: u in s.participants && s.participants[u].sessionId != p.sessionId
                                   && s.participants[u].participantId == id then Error("participant_id_in_use")
               else Registered(id, token, now + 75_000, id == prior.participantId)
  {
  }

  lemma NobodyFound(participants: map<Token, Record>, session: string)
    requires forall t :: !IsOf(participants, t, session)
    ensures FindBySession(participants, session) == None
  {
    var r := FindBySession(participants, session);
    assert r.Some? ==> IsOf(participants, r.value, session);
  }

  lemma EnrollDecides<M>(s: State<M>, now: nat, token: Token, req: RegisterRequest)
    requires Inverse(s) && OneRecordPerSession(s) && FirstOf(ProfileRows(req)).None?
    requires forall t :: !IsOf(s.participants, t, SessionText(req))
    ensures Decided(s, now, token, req, Register(s, now, token, req).1)
  {
    hide FirstOf, ProfileRows, Slug, Shown, IsNamedId, IsKind, Says, Candidate, FirstFree, Validate;
    ProfileDecides(req);
    SessionRowsInOrder(s, now, req);
    var p := Validate(req).value;
    NobodyFound(s.participants, p.sessionId);
    assert Register(s, now, token, req) == Enroll(s, now, token, p);
    DefaultDecides(s.byId.Keys, p.kind, p.short);
    var choice := if p.name.Some? then p.name else BuildParticipantId(s.byId.Keys, p.kind, p.short);
    if choice.Some? {
      assert Gets(s, req, choice.value);
    }
  }

  lemma DefaultDecides(used: set<string>, kind: string, short: ShortId)
    ensures var r := BuildParticipantId(used, kind, short);
            && (r.None? <==> NoneFree(used, kind, short))
            && (r.Some? ==> exists k: nat :: k < 11 && IsFirstFree(used, kind, short, k, r.value))
  {
    var r := BuildParticipantId(used, kind, short);
    if r.Some? {
      var k: nat :| k < 11 && r.value == Candidate(kind, short, k)
                    && forall j :: 0 <= j < k ==> Candidate(kind, short, j) in used;
      assert IsFirstFree(used, kind, short, k, r.value);
    }
  }

  /** A register is refused by the first line that applies, in the order of the two tables, or answered
      with an id, a lease of 75 s, and whether that is the id the session had. */
  lemma RegisterDecides<M>(s: State<M>, now: nat, token: Token, req: RegisterRequest)
    requires Inverse(s) && OneRecordPerSession(s)
    ensures var refusal := FirstOf(ProfileRows(req)); var response := Register(s, now, token, req).1;
            if refusal.Some? then response == Error(refusal.value) else Decided(s, now, token, req, response)
  {
    hide FirstOf, ProfileRows, Decided, SessionRows;
    ProfileDecides(req);
    if FirstOf(ProfileRows(req)).None? {
      if t :| IsOf(s.participants, t, SessionText(req)) {
        ReclaimDecides(s, now, token, req, t);
      } else {
        EnrollDecides(s, now, token, req);
      }
    }
  }

  /** A sender that waits for a forward hears how it ended; nobody waits for flushed mail. */
  lemma SettledDecides(to: string, envelope: Envelope, reason: string)
    ensures ForwardAnswer(BrokerModel.Live(to, envelope), true, reason) == Some(Delivered(envelope.from))
    ensures ForwardAnswer(BrokerModel.Live(to, envelope), false, reason) == Some(Queued(envelope.from, reason))
    ensures forall accepted :: ForwardAnswer(Flushed(to, envelope), accepted, reason) == None
  {
  }

  /** The new record, recent id and chain hold what the profile says. */
  ghost predicate Recorded<M>(s1: State<M>, now: nat, token: Token, p: Profile, id: string) {
    && token in s1.participants && token in s1.chains && id in s1.recent
    && s1.participants[token]
       == Record(id, p.kind, p.sessionId, p.displayName, p.description, p.delivery, now, now, now + 75_000)
    && s1.recent[id] == Recent(p.sessionId, p.kind, now)
    && s1.chains[token].participantId == id && !s1.chains[token].inFlight
    && (s1.chains[token].reachable
        <==> p.delivery.Some? && p.delivery.value.socketPath.Some? && p.delivery.value.socketPath.value != "")
  }

  lemma InstallRecords<M>(s: State<M>, now: nat, token: Token, p: Profile, id: string, reclaimed: bool)
    ensures var (s1, response) := Install(s, now, token, p, id, reclaimed);
            response.Registered? ==> response.participantId == id && Recorded(s1, now, token, p, id)
  {
  }

  lemma AdmitRecords<M>(s: State<M>, now: nat, token: Token, p: Profile)
    ensures var (s1, response) := Admit(s, now, token, p);
            response.Registered? ==> Recorded(s1, now, token, p, response.participantId)
  {
    hide Install, Recorded, BuildParticipantId;
    match FindBySession(s.participants, p.sessionId)
    case Some(t) =>
      var prior := s.participants[t];
      var cleared := s.(participants := s.participants - {t}, byId := s.byId - {prior.participantId});
      var id := p.name.GetOr(prior.participantId);
      InstallRecords(cleared, now, token, p, id, id == prior.participantId);
    case None =>
      var choice := if p.name.Some? then p.name else BuildParticipantId(s.byId.Keys, p.kind, p.short);
      if choice.Some? {
        InstallRecords(s, now, token, p, choice.value, false);
      }
  }

  /** The record and the chain of a register that is not refused hold what its request says, and the chain
      can reach an adapter exactly when a trusted socket path was given. */
  lemma RegisterRecords<M>(s: State<M>, now: nat, token: Token, req: RegisterRequest)
    ensures var (s1, response) := Register(s, now, token, req);
            response.Registered? ==>
              && token in s1.participants && token in s1.chains
              && s1.participants[token]
                 == Record(response.participantId, TextOf(req.kind), SessionText(req), IfShown(req.displayName),
                           IfShown(req.description), Says(req.delivery), now, now, now + 75_000)
              && response.participantId in s1.recent
              && s1.recent[response.participantId] == Recent(SessionText(req), TextOf(req.kind), now)
              && s1.chains[token].participantId == response.participantId && !s1.chains[token].inFlight
              && (s1.chains[token].reachable
                  <==> req.delivery.DeliveryField? && req.delivery.socketPath.Trusted?
                       && req.delivery.socketPath.resolved != "")
  {
    hide FirstOf, Slug, Shown, IsNamedId, IsKind, ProfileRows, Validate, Admit;
    ProfileDecides(req);
    if Validate(req).Success? {
      AdmitRecords(s, now, token, Validate(req).value);
    }
  }
}
