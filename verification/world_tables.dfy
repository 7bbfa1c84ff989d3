/** Table agreement, leases and eligibility over every run of the broker. */
module WorldTables {
  import opened Identity
  import opened BrokerModel
  import opened BrokerTables
  import opened World

  /** Tokens are handed out once. */
  ghost predicate TokensOk(w: World) {
    && (forall t :: t in w.st.participants ==> t in w.st.chains)
    && (forall t :: t in w.st.chains ==> t in w.registrations)
    && (forall t: Token :: t in w.registrations <==> t < w.nextToken)
  }

  /** The recent table is exactly what the latest registrations say. */
  ghost predicate RecentFollowsHolder(w: World) {
    && (forall x :: x in w.st.recent ==>
          && x in w.holder && x in w.seenAt
          && w.st.recent[x].sessionId == w.holder[x]
          && w.st.recent[x].lastSeenAt == w.seenAt[x])
    && (forall x :: x in w.holder ==> x in w.seenAt && w.seenAt[x] <= w.now && w.holder[x] in w.idOf)
    && (forall x :: x in w.st.recent ==> w.holder[x] in w.idOf && w.idOf[w.holder[x]] == x)
  }

  /** A registered record is the latest registration of its id and of its session. */
  ghost predicate RecordIsLatest(w: World) {
    forall t :: t in w.st.participants ==>
      var r := w.st.participants[t];
      && r.participantId in w.holder && w.holder[r.participantId] == r.sessionId
      && r.sessionId in w.idOf && w.idOf[r.sessionId] == r.participantId
      && r.participantId in w.seenAt && r.lastHeartbeat <= w.seenAt[r.participantId]
      && r.leaseExpiresAt == r.lastHeartbeat + LEASE_TTL_MS
  }

  /** An id stays eligible for ten minutes after its latest holder was last seen, unless that
      session has since registered under another id. */
  ghost predicate EligibleWhileRecent(w: World) {
    forall x :: x in w.holder ==>
      && x in w.seenAt && w.holder[x] in w.idOf
      && (w.idOf[w.holder[x]] == x && w.now < w.seenAt[x] + STALE_GC_MS ==> x in w.st.recent)
  }

  ghost predicate TablesInv(w: World) {
    TablesOk(w.st) && TokensOk(w) && RecentFollowsHolder(w) && RecordIsLatest(w) && EligibleWhileRecent(w)
  }

  /** What a successful register does to the tables, whichever way its id was chosen. */
  ghost predicate Installed(s: State<nat>, s1: State<nat>, now: nat, token: Token, p: Profile, id: string) {
    && token in s1.participants && s1.participants[token] == NewRecord(p, id, now)
    && (forall t :: t in s1.participants && t != token ==>
          t in s.participants && s1.participants[t] == s.participants[t])
    && (forall t :: t in s1.participants && t != token ==>
          s1.participants[t].participantId != id && s1.participants[t].sessionId != p.sessionId)
    && s1.recent == MarkRecent(WithoutAliases(s.recent, p.sessionId, id), NewRecord(p, id, now), now)
    && s1.mailbox == s.mailbox - {SessionHash(p.sessionId)}
    && s1.chains == s.chains[token := Chain(id, p.sessionId, Reachable(p.delivery),
                                            FlushSlots(Unexpired(Queue(s.mailbox, SessionHash(p.sessionId)), now)),
                                            false)]
  }

  /** A register that fails leaves everything but, possibly, one expired record. */
  ghost predicate OnlyExpiredGone(s: State<nat>, s1: State<nat>, now: nat) {
    && (forall t :: t in s1.participants ==> t in s.participants && s1.participants[t] == s.participants[t])
    && (forall t :: t in s.participants && LeaseValid(s.participants[t], now) ==> t in s1.participants)
    && s1.recent == s.recent && s1.mailbox == s.mailbox && s1.chains == s.chains
  }

  lemma InstallEffect(s: State<nat>, now: nat, token: Token, p: Profile, id: string, reclaimed: bool)
    requires Inverse(s) && token !in s.participants && NotRegistered(s, p.sessionId) && id !in s.byId
    ensures Installed(s, Install(s, now, token, p, id, reclaimed).0, now, token, p, id)
    ensures Install(s, now, token, p, id, reclaimed).1 == Registered(id, token, now + LEASE_TTL_MS, reclaimed)
  {
  }

  ghost predicate RegisterOutcome(s: State<nat>, s1: State<nat>, response: Response, now: nat, token: Token,
                                  req: RegisterRequest) {
    && (forall t :: t in s.participants && LeaseValid(s.participants[t], now) ==> t in s1.participants)
    && if response.Registered?
       then Validate(req).Success? && response.token == token
            && Installed(s, s1, now, token, Validate(req).value, response.participantId)
       else OnlyExpiredGone(s, s1, now)
  }

  lemma RegisterEffect(s: State<nat>, now: nat, token: Token, req: RegisterRequest)
    requires Inverse(s) && OneRecordPerSession(s) && token !in s.participants
    ensures RegisterOutcome(s, Register(s, now, token, req).0, Register(s, now, token, req).1, now, token, req)
  {
    hide Reclaim, Enroll, Validate, RegisterOutcome;
    if Validate(req).Success? {
      var p := Validate(req).value;
      match FindBySession(s.participants, p.sessionId)
      case Some(t) =>
        ReclaimEffect(s, now, token, p, t);
        OutcomeFrom(s, Reclaim(s, now, token, p, t).0, Reclaim(s, now, token, p, t).1, now, token, req);
      case None =>
        EnrollEffect(s, now, token, p);
        OutcomeFrom(s, Enroll(s, now, token, p).0, Enroll(s, now, token, p).1, now, token, req);
    } else {
      OutcomeFrom(s, s, Error(Validate(req).error), now, token, req);
    }
  }

  /** The outcome of a register whose request says `p`. */
  ghost predicate AdmitOutcome(s: State<nat>, s1: State<nat>, response: Response, now: nat, token: Token, p: Profile) {
    && (forall t :: t in s.participants && LeaseValid(s.participants[t], now) ==> t in s1.participants)
    && if response.Registered?
       then response.token == token && Installed(s, s1, now, token, p, response.participantId)
       else OnlyExpiredGone(s, s1, now)
  }

  lemma OutcomeFrom(s: State<nat>, s1: State<nat>, response: Response, now: nat, token: Token, req: RegisterRequest)
    requires Validate(req).Success? ==> AdmitOutcome(s, s1, response, now, token, Validate(req).value)
    requires Validate(req).Failure? ==> s1 == s && !response.Registered?
    ensures RegisterOutcome(s, s1, response, now, token, req)
  {
    hide Validate, Installed;
  }

  lemma ReclaimEffect(s: State<nat>, now: nat, token: Token, p: Profile, t: Token)
    requires Inverse(s) && OneRecordPerSession(s) && token !in s.participants
    requires t in s.participants && s.participants[t].sessionId == p.sessionId
    ensures AdmitOutcome(s, Reclaim(s, now, token, p, t).0, Reclaim(s, now, token, p, t).1, now, token, p)
  {
    var prior := s.participants[t];
    var cleared := s.(participants := s.participants - {t}, byId := s.byId - {prior.participantId});
    ClearKeepsInverse(s, t);
    var id := p.name.GetOr(prior.participantId);
    if prior.kind == p.kind && !LeaseValid(prior, now) && id !in cleared.byId {
      InstallEffect(cleared, now, token, p, id, id == prior.participantId);
    }
  }

  lemma EnrollEffect(s: State<nat>, now: nat, token: Token, p: Profile)
    requires Inverse(s) && token !in s.participants && NotRegistered(s, p.sessionId)
    ensures AdmitOutcome(s, Enroll(s, now, token, p).0, Enroll(s, now, token, p).1, now, token, p)
  {
    var choice := if p.name.Some? then p.name else BuildParticipantId(s.byId.Keys, p.kind, p.short);
    if choice.Some? && choice.value !in s.byId {
      InstallEffect(s, now, token, p, choice.value, false);
    }
  }

  lemma ClearKeepsInverse(s: State<nat>, t: Token)
    requires Inverse(s) && OneRecordPerSession(s) && t in s.participants
    ensures var cleared := s.(participants := s.participants - {t}, byId := s.byId - {s.participants[t].participantId});
            Inverse(cleared) && NotRegistered(cleared, s.participants[t].sessionId)
  {
  }

  // ---- steps that register, and steps that only mark a record as seen -------------------

  ghost predicate NamesRegistered(w: World, w1: World, token: Token, p: Profile, id: string) {
    && w1.now == w.now
    && Installed(w.st, w1.st, w.now, token, p, id)
    && w1.holder == w.holder[id := p.sessionId]
    && w1.idOf == w.idOf[p.sessionId := id]
    && w1.seenAt == w.seenAt[id := w.now]
  }

  lemma RegisteredRecent(w: World, w1: World, token: Token, p: Profile, id: string)
    requires RecentFollowsHolder(w) && NamesRegistered(w, w1, token, p, id)
    ensures RecentFollowsHolder(w1)
  {
  }

  lemma RegisteredLatest(w: World, w1: World, token: Token, p: Profile, id: string)
    requires RecordIsLatest(w) && NamesRegistered(w, w1, token, p, id)
    ensures RecordIsLatest(w1)
  {
  }

  lemma RegisteredEligible(w: World, w1: World, token: Token, p: Profile, id: string)
    requires RecentFollowsHolder(w) && EligibleWhileRecent(w) && NamesRegistered(w, w1, token, p, id)
    ensures EligibleWhileRecent(w1)
  {
  }

  lemma RegisterTables(w: World, req: RegisterRequest)
    requires TablesInv(w)
    ensures TablesInv(RegisterStep(w, req))
  {
    RegisterKeepsTables(w.st, w.now, w.nextToken, req);
    RegisterEffect(w.st, w.now, w.nextToken, req);
    hide TablesInv, TablesOk, AfterRegister, RegisterOutcome, Register;
    var (st, response) := Register(w.st, w.now, w.nextToken, req);
    AfterRegisterTables(w, req, st, response);
  }

  lemma AfterRegisterTables(w: World, req: RegisterRequest, st: State<nat>, response: Response)
    requires TablesInv(w) && TablesOk(st)
    requires RegisterOutcome(w.st, st, response, w.now, w.nextToken, req)
    ensures TablesInv(AfterRegister(w, req, st, response))
  {
    var w1 := AfterRegister(w, req, st, response);
    AfterRegisterNames(w, req, st, response);
    hide TablesInv, TablesOk, AfterRegister, NamesRegistered, RegisterOutcome;
    if response.Registered? {
      NamesRegisteredTables(w, w1, w.nextToken, Validate(req).value, response.participantId);
    } else {
      ShrunkTables(w, w1);
    }
  }

  lemma AfterRegisterNames(w: World, req: RegisterRequest, st: State<nat>, response: Response)
    requires RegisterOutcome(w.st, st, response, w.now, w.nextToken, req)
    ensures var w1 := AfterRegister(w, req, st, response);
            && w1.st == st
            && (response.Registered? ==>
                  && Validate(req).Success?
                  && NamesRegistered(w, w1, w.nextToken, Validate(req).value, response.participantId)
                  && w1.nextToken == w.nextToken + 1
                  && w1.registrations.Keys == w.registrations.Keys + {w.nextToken})
            && (!response.Registered? ==> w1 == w.(st := st) && OnlyExpiredGone(w.st, st, w.now))
  {
  }

  lemma NamesRegisteredTables(w: World, w1: World, token: Token, p: Profile, id: string)
    requires TokensOk(w) && RecentFollowsHolder(w) && RecordIsLatest(w) && EligibleWhileRecent(w)
    requires NamesRegistered(w, w1, token, p, id) && TablesOk(w1.st)
    requires token == w.nextToken && w1.nextToken == token + 1
    requires w1.registrations.Keys == w.registrations.Keys + {token}
    ensures TablesInv(w1)
  {
    RegisteredRecent(w, w1, token, p, id);
    RegisteredLatest(w, w1, token, p, id);
    RegisteredEligible(w, w1, token, p, id);
    RegisteredTokens(w, w1, token, p, id);
  }

  lemma RegisteredTokens(w: World, w1: World, token: Token, p: Profile, id: string)
    requires TokensOk(w) && NamesRegistered(w, w1, token, p, id)
    requires token == w.nextToken && w1.nextToken == token + 1
    requires w1.registrations.Keys == w.registrations.Keys + {token}
    ensures TokensOk(w1)
  {
  }

  lemma ShrunkTables(w: World, w1: World)
    requires TablesInv(w) && TablesOk(w1.st)
    requires OnlyExpiredGone(w.st, w1.st, w.now) && w1 == w.(st := w1.st)
    ensures TablesInv(w1)
  {
  }

  ghost predicate NamesSeen(w: World, w1: World, t: Token) {
    && t in w.st.participants
    && w1.now == w.now
    && w1.holder == w.holder && w1.idOf == w.idOf
    && w1.seenAt == w.seenAt[w.st.participants[t].participantId := w.now]
    && w1.st.recent == MarkRecent(w.st.recent, w.st.participants[t], w.now)
    && (forall u :: u in w1.st.participants ==> u in w.st.participants)
    && (forall u :: u in w1.st.participants && u != t ==> w1.st.participants[u] == w.st.participants[u])
    && (t in w1.st.participants ==>
          w1.st.participants[t] == w.st.participants[t]
            .(leaseExpiresAt := w.now + LEASE_TTL_MS, lastHeartbeat := w.now))
  }

  lemma SeenTables(w: World, w1: World, t: Token)
    requires RecentFollowsHolder(w) && RecordIsLatest(w) && EligibleWhileRecent(w) && NamesSeen(w, w1, t)
    ensures RecentFollowsHolder(w1) && RecordIsLatest(w1) && EligibleWhileRecent(w1)
  {
    var id := w.st.participants[t].participantId;
    assert w.holder[id] == w.st.participants[t].sessionId && w.idOf[w.holder[id]] == id;
  }

  lemma HeartbeatSeen(w: World, lease: Token)
    requires Heartbeat(w.st, w.now, lease).1.Renewed?
    ensures NamesSeen(w, HeartbeatStep(w, lease), lease)
  {
  }

  lemma HeartbeatTables(w: World, lease: Token)
    requires TablesInv(w)
    ensures TablesInv(HeartbeatStep(w, lease))
  {
    HeartbeatKeepsTables(w.st, w.now, lease);
    if Heartbeat(w.st, w.now, lease).1.Renewed? {
      HeartbeatSeen(w, lease);
      SeenTables(w, HeartbeatStep(w, lease), lease);
    }
  }

  lemma UnregisterTables(w: World, lease: Token)
    requires TablesInv(w)
    ensures TablesInv(UnregisterStep(w, lease))
  {
    UnregisterKeepsTables(w.st, w.now, lease);
    if lease in w.st.participants {
      SeenTables(w, UnregisterStep(w, lease), lease);
    }
  }

  // ---- the other steps ------------------------------------------------------------------

  /** Names, records and recent ids are as before. */
  ghost predicate SameNames(w: World, w1: World) {
    && w1.st.participants == w.st.participants && w1.st.recent == w.st.recent
    && w1.now == w.now && w1.holder == w.holder && w1.idOf == w.idOf && w1.seenAt == w.seenAt
  }

  lemma SameNamesTables(w: World, w1: World)
    requires TablesInv(w) && SameNames(w, w1) && TablesOk(w1.st) && TokensOk(w1)
    ensures TablesInv(w1)
  {
  }

  lemma PushTables(w: World, req: PushRequest, nowIso: string)
    requires TablesInv(w)
    ensures TablesInv(PushStep(w, req, nowIso))
  {
    var checked := CheckPush(w.st.participants, w.now, req);
    if checked.Success? {
      AfterPushTables(w, req.lease, MakeEnvelope(checked.value, req, nowIso), Route(w.st, w.now, req.to.text));
    }
  }

  lemma AfterPushTables(w: World, lease: Token, envelope: Envelope, dest: Destination)
    requires TablesInv(w)
    ensures TablesInv(AfterPush(w, lease, envelope, dest))
  {
    DispatchKeepsTables(w.st, w.now, envelope.to, |w.pushes|, dest);
    AfterPushNames(w, lease, envelope, dest);
    hide AfterPush, Dispatch, TablesOk, TokensOk, SameNames;
    SameNamesTables(w, AfterPush(w, lease, envelope, dest));
  }

  lemma AfterPushNames(w: World, lease: Token, envelope: Envelope, dest: Destination)
    requires TokensOk(w)
    ensures var w1 := AfterPush(w, lease, envelope, dest);
            w1.st == Dispatch(w.st, w.now, envelope.to, |w.pushes|, dest) && SameNames(w, w1) && TokensOk(w1)
  {
  }

  lemma StartTables(w: World, r: Token)
    requires TablesInv(w)
    ensures TablesInv(StartStep(w, r))
  {
    if CanStart(w.st, r) {
      StartKeepsTables(w.st, r);
      SameNamesTables(w, StartStep(w, r));
    }
  }

  lemma CompleteTables(w: World, r: Token, reply: bool)
    requires TablesInv(w)
    ensures TablesInv(CompleteStep(w, r, reply))
  {
    if CanComplete(w.st, r) {
      CompleteKeepsTables(w.st, w.now, r, reply && w.st.chains[r].reachable);
      SameNamesTables(w, CompleteStep(w, r, reply));
    }
  }

  lemma GcTables(w: World)
    requires TablesInv(w)
    ensures TablesInv(GcStep(w))
  {
    GcKeepsTables(w.st, w.now);
  }

  lemma CrashTables(w: World)
    requires TablesInv(w)
    ensures TablesInv(CrashStep(w))
  {
    ReloadKeepsTables(w.st, w.now);
  }

  lemma AdvanceTables(w: World, ms: nat)
    requires TablesInv(w)
    ensures TablesInv(w.(now := w.now + ms))
  {
  }

  lemma StepKeepsTables(w: World, a: Action)
    requires TablesInv(w)
    ensures TablesInv(Step(w, a))
  {
    hide TablesInv, RegisterStep, HeartbeatStep, UnregisterStep, PushStep, StartStep, CompleteStep, GcStep, CrashStep;
    match a
    case DoRegister(req) => RegisterTables(w, req);
    case DoHeartbeat(lease) => HeartbeatTables(w, lease);
    case DoUnregister(lease) => UnregisterTables(w, lease);
    case DoPush(req, nowIso) => PushTables(w, req, nowIso);
    case DoStart(r) => StartTables(w, r);
    case DoComplete(r, accepted) => CompleteTables(w, r, accepted);
    case DoGc => GcTables(w);
    case Advance(ms) => AdvanceTables(w, ms);
    case Crash => CrashTables(w);
  }

  /** Table agreement in every reachable state. */
  lemma {:induction false} TablesAgreeInEveryRun(now: nat, run: seq<Action>)
    ensures TablesInv(Run(Start0(now), run))
  {
    if run != [] {
      TablesAgreeInEveryRun(now, run[..|run| - 1]);
      StepKeepsTables(Run(Start0(now), run[..|run| - 1]), run[|run| - 1]);
    }
  }
}
