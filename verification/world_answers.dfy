/** What the broker answers in every run, and how long an id stays with its session. */
module WorldAnswers {
  import opened Wrappers
  import opened Identity
  import opened BrokerModel
  import opened BrokerTables
  import opened Decisions
  import opened World
  import opened WorldTables
  import opened WorldLeases

  // ---- push --------------------------------------------------------------------------------------------

  /** Where a push to an id goes, and what its sender is told at once. */
  ghost predicate Lands(w: World, to: string, place: Place, told: Option<Answer>) {
    if t :| IsLive(w.st.participants, t, w.now) && w.st.participants[t].participantId == to
    then place == InChain(t) && told == None
    else if to in w.st.recent then place == InMail(SessionHash(w.st.recent[to].sessionId)) && told == Some(ToldQueued)
    else place == Refused && told == Some(ToldFailed)
  }

  /** In every run a push that no line of the table refuses becomes one more record, as it was sent and
      under the id of its lease, at exactly one place; any other leaves everything as it was. */
  lemma PushIsLetThrough(now: nat, run: seq<Action>, req: PushRequest, nowIso: string)
    ensures var w := Run(Start0(now), run); var w1 := Step(w, DoPush(req, nowIso)); var i := |w.pushes|;
            if FirstOf(PushRows(w.st.participants, w.now, req)).Some? then w1 == w
            else
              && |w1.pushes| == i + 1 && w1.pushes[..i] == w.pushes && w1.pushes[i].lease == req.lease
              && req.to == Text(w1.pushes[i].envelope.to) && req.id == Text(w1.pushes[i].envelope.id)
              && req.body == Text(w1.pushes[i].envelope.body)
              && w1.pushes[i].envelope.from == w.st.participants[req.lease].participantId
              && exists place, told ::
                   && Lands(w, req.to.text, place, told) && w1.place == w.place[i := place]
                   && w1.answers == if told.Some? then w.answers[i := told.value] else w.answers
  {
    hide FirstOf, PushRows, Run, AfterPush, TablesInv, Lands, CheckPush, Route;
    var w := Run(Start0(now), run);
    TablesAgreeInEveryRun(now, run);
    PushDecides(w.st.participants, w.now, req);
    if FirstOf(PushRows(w.st.participants, w.now, req)).None? {
      var from := w.st.participants[req.lease].participantId;
      LetThrough(w, req, MakeEnvelope(from, req, nowIso));
    }
  }

  lemma LetThrough(w: World, req: PushRequest, envelope: Envelope)
    requires TablesInv(w)
    ensures var w1 := AfterPush(w, req.lease, envelope, Route(w.st, w.now, envelope.to)); var i := |w.pushes|;
            && |w1.pushes| == i + 1 && w1.pushes[..i] == w.pushes
            && w1.pushes[i].lease == req.lease && w1.pushes[i].envelope == envelope
            && exists place, told ::
                 && Lands(w, envelope.to, place, told) && w1.place == w.place[i := place]
                 && w1.answers == if told.Some? then w.answers[i := told.value] else w.answers
  {
    hide Route, AfterPush, Lands;
    var dest := Route(w.st, w.now, envelope.to);
    PushEffect(w, req.lease, envelope, dest);
    LandsThere(w, envelope);
  }

  function PlaceOf(dest: Destination): Place {
    match dest
    case Online(t) => InChain(t)
    case Offline(session) => InMail(SessionHash(session))
    case Unknown => Refused
  }

  function ToldOf(dest: Destination): Option<Answer> {
    match dest
    case Online(_) => None
    case Offline(_) => Some(ToldQueued)
    case Unknown => Some(ToldFailed)
  }

  lemma LandsThere(w: World, envelope: Envelope)
    requires TablesInv(w)
    ensures var dest := Route(w.st, w.now, envelope.to); Lands(w, envelope.to, PlaceOf(dest), ToldOf(dest))
  {
    hide Route;
    RouteDecides(w.st, w.now, envelope.from, envelope.to);
  }

  lemma PushEffect(w: World, lease: Token, envelope: Envelope, dest: Destination)
    ensures var w1 := AfterPush(w, lease, envelope, dest); var i := |w.pushes|;
            && |w1.pushes| == i + 1 && w1.pushes[..i] == w.pushes
            && w1.pushes[i].lease == lease && w1.pushes[i].envelope == envelope
            && w1.place == w.place[i := PlaceOf(dest)]
            && w1.answers == if ToldOf(dest).Some? then w.answers[i := ToldOf(dest).value] else w.answers
  {
  }

  // ---- one lease term --------------------------------------------------------------------------------------

  /** A register buys 75 s: so long the id is reached live and the lease authenticates; then mail waits. */
  lemma RegisterBuysOneTerm(w: World, req: RegisterRequest, ms: nat)
    requires TablesInv(w) && Register(w.st, w.now, w.nextToken, req).1.Registered?
    ensures var id := Register(w.st, w.now, w.nextToken, req).1.participantId;
            var w1 := Step(Step(w, DoRegister(req)), Advance(ms));
            && Route(w1.st, w1.now, id) == (if ms < 75_000 then Online(w.nextToken) else Offline(SessionText(req)))
            && (IsLive(w1.st.participants, w.nextToken, w1.now) <==> ms < 75_000)
  {
    hide Register, Route, TablesInv, Validate, RegisterOutcome, AfterRegister, FirstOf, ProfileRows;
    var (st, response) := Register(w.st, w.now, w.nextToken, req);
    RegisterLeaves(w, req, st, response);
    RouteByLease(st, w.now + ms, response.participantId, w.nextToken, SessionText(req));
  }

  lemma RegisterLeaves(w: World, req: RegisterRequest, st: State<nat>, response: Response)
    requires TablesInv(w) && (st, response) == Register(w.st, w.now, w.nextToken, req) && response.Registered?
    ensures Step(w, DoRegister(req)).st == st && Step(w, DoRegister(req)).now == w.now
    ensures w.nextToken in st.participants && st.participants[w.nextToken].leaseExpiresAt == w.now + 75_000
    ensures response.participantId in st.byId && st.byId[response.participantId] == w.nextToken
    ensures response.participantId in st.recent && st.recent[response.participantId].sessionId == SessionText(req)
  {
    hide Register, Validate, FirstOf, ProfileRows;
    RegisterEffect(w.st, w.now, w.nextToken, req);
    RegisterKeepsTables(w.st, w.now, w.nextToken, req);
    SessionIsText(req);
  }

  lemma SessionIsText(req: RegisterRequest)
    ensures Validate(req).Success? ==> Validate(req).value.sessionId == SessionText(req)
  {
    hide FirstOf;
    ProfileDecides(req);
  }

  /** So does a heartbeat. */
  lemma HeartbeatKeepsAlive(w: World, t: Token, ms: nat)
    requires TablesInv(w) && IsLive(w.st.participants, t, w.now)
    ensures var w1 := Step(Step(w, DoHeartbeat(t)), Advance(ms));
            && Heartbeat(w.st, w.now, t).1 == Renewed(w.now + 75_000)
            && (IsLive(w1.st.participants, t, w1.now) <==> ms < 75_000)
  {
    hide TablesInv, Heartbeat, HeartbeatStep, FirstOf, HeartbeatRows;
    HeartbeatLeaves(w, t);
    HeartbeatDecides(w.st, w.now, t);
    NoHeartbeatRow(w.st.participants, w.now, t);
  }

  lemma NoHeartbeatRow(participants: map<Token, Record>, now: nat, t: Token)
    requires IsLive(participants, t, now)
    ensures FirstOf(HeartbeatRows(participants, now, t)) == None
  {
    FirstOfCons(Row(t !in participants, "invalid_lease"), [Row(!IsLive(participants, t, now), "lease_expired")]);
    FirstOfOne(Row(!IsLive(participants, t, now), "lease_expired"));
  }

  // ---- how long an id stays with its session -------------------------------------------------------------------

  /** A record that binds the id to the session and whose lease does not end before `until`. */
  ghost predicate Binds(w: World, id: string, session: string, until: nat) {
    exists t :: IsOf(w.st.participants, t, session) && w.st.participants[t].participantId == id
                && until <= w.st.participants[t].leaseExpiresAt
  }

  /** What the session itself can do to give its id away, and the death of the process. */
  ghost predicate Frees(w: World, a: Action, session: string, id: string) {
    match a
    case Crash => true
    case DoUnregister(lease) => IsOf(w.st.participants, lease, session)
    case DoRegister(req) => SessionText(req) == session && WantedName(req) !in {None, Some(id)}
    case _ => false
  }

  /** A register touches no record of another session. */
  lemma RegisterSparesOthers(s: State<nat>, now: nat, token: Token, req: RegisterRequest, t: Token)
    requires Inverse(s) && t in s.participants && token !in s.participants
    requires s.participants[t].sessionId != SessionText(req)
    ensures var s1 := Register(s, now, token, req).0; t in s1.participants && s1.participants[t] == s.participants[t]
  {
    hide Validate;
    SessionIsText(req);
  }

  /** A session that asks again for the id it has, or for none, keeps it. */
  lemma OwnRegisterKeeps(s: State<nat>, now: nat, token: Token, req: RegisterRequest, t: Token)
    requires TablesOk(s) && IsOf(s.participants, t, SessionText(req)) && token !in s.participants
    requires WantedName(req) in {None, Some(s.participants[t].participantId)}
    requires s.participants[t].leaseExpiresAt <= now + LEASE_TTL_MS
    ensures var s1 := Register(s, now, token, req).0;
            exists u :: IsOf(s1.participants, u, SessionText(req))
                        && s1.participants[u].participantId == s.participants[t].participantId
                        && s.participants[t].leaseExpiresAt <= s1.participants[u].leaseExpiresAt
  {
    hide Validate, FirstOf, ProfileRows, TablesOk;
    ProfileDecides(req);
    var s1 := Register(s, now, token, req).0;
    if Validate(req).Success? && Validate(req).value.kind == s.participants[t].kind
       && !LeaseValid(s.participants[t], now) {
      OwnReclaim(s, now, token, req, t);
      assert IsOf(s1.participants, token, SessionText(req));
    } else {
      OwnRefusal(s, now, token, req, t);
      assert IsOf(s1.participants, t, SessionText(req));
    }
  }

  lemma OwnReclaim(s: State<nat>, now: nat, token: Token, req: RegisterRequest, t: Token)
    requires TablesOk(s) && IsOf(s.participants, t, SessionText(req)) && token !in s.participants
    requires Validate(req).Success? && Validate(req).value.sessionId == SessionText(req)
    requires Validate(req).value.name in {None, Some(s.participants[t].participantId)}
    requires Validate(req).value.kind == s.participants[t].kind && !LeaseValid(s.participants[t], now)
    ensures var s1 := Register(s, now, token, req).0;
            && token in s1.participants && s1.participants[token].sessionId == SessionText(req)
            && s1.participants[token].participantId == s.participants[t].participantId
            && s1.participants[token].leaseExpiresAt == now + LEASE_TTL_MS
  {
    hide Validate;
    ReclaimKeepsId(s, now, token, t, req);
    RegisterEffect(s, now, token, req);
  }

  lemma OwnRefusal(s: State<nat>, now: nat, token: Token, req: RegisterRequest, t: Token)
    requires TablesOk(s) && IsOf(s.participants, t, SessionText(req))
    requires Validate(req).Success? ==>
               Validate(req).value.sessionId == SessionText(req)
               && (Validate(req).value.kind != s.participants[t].kind || LeaseValid(s.participants[t], now))
    ensures Register(s, now, token, req).0 == s
  {
    hide Validate;
    if Validate(req).Success? {
      assert FindBySession(s.participants, Validate(req).value.sessionId) == Some(t);
    }
  }

  lemma RegisterBinds(w: World, req: RegisterRequest, session: string, id: string, until: nat)
    requires TablesInv(w) && Binds(w, id, session, until) && !Frees(w, DoRegister(req), session, id)
    ensures Binds(RegisterStep(w, req), id, session, until)
  {
    hide Register, TablesOk, RecentFollowsHolder, RecordIsLatest, EligibleWhileRecent;
    var t :| IsOf(w.st.participants, t, session) && w.st.participants[t].participantId == id
             && until <= w.st.participants[t].leaseExpiresAt;
    StateOfRegister(w, req);
    FreshToken(w);
    LeaseEndsSoon(w, t);
    if SessionText(req) == session {
      OwnRegisterKeeps(w.st, w.now, w.nextToken, req, t);
    } else {
      TablesAreInverse(w.st);
      RegisterSparesOthers(w.st, w.now, w.nextToken, req, t);
      assert IsOf(RegisterStep(w, req).st.participants, t, session);
    }
  }

  lemma StateOfRegister(w: World, req: RegisterRequest)
    ensures RegisterStep(w, req).st == Register(w.st, w.now, w.nextToken, req).0
  {
    hide Register;
  }

  lemma TablesAreInverse(s: State<nat>)
    requires TablesOk(s)
    ensures Inverse(s)
  {
  }

  lemma FreshToken(w: World)
    requires TokensOk(w)
    ensures w.nextToken !in w.st.participants
  {
  }

  lemma LeaseEndsSoon(w: World, t: Token)
    requires TablesInv(w) && t in w.st.participants
    ensures w.st.participants[t].leaseExpiresAt <= w.now + LEASE_TTL_MS
  {
  }

  lemma NamesStay(w: World, w1: World, t: Token, id: string, session: string, until: nat)
    requires IsOf(w.st.participants, t, session) && w.st.participants[t].participantId == id
    requires until <= w.st.participants[t].leaseExpiresAt
    requires t in w1.st.participants && w1.st.participants[t].participantId == id
    requires w1.st.participants[t].sessionId == session
    requires w.st.participants[t].leaseExpiresAt <= w1.st.participants[t].leaseExpiresAt
    ensures Binds(w1, id, session, until)
  {
    assert IsOf(w1.st.participants, t, session);
  }

  lemma HeartbeatSpares(s: State<nat>, now: nat, lease: Token, t: Token)
    requires t in s.participants && s.participants[t].leaseExpiresAt <= now + LEASE_TTL_MS
    ensures var s1 := Heartbeat(s, now, lease).0;
            && t in s1.participants && s1.participants[t].participantId == s.participants[t].participantId
            && s1.participants[t].sessionId == s.participants[t].sessionId
            && s.participants[t].leaseExpiresAt <= s1.participants[t].leaseExpiresAt
  {
  }

  lemma UnregisterSpares(s: State<nat>, now: nat, lease: Token, t: Token)
    requires t in s.participants && t != lease
    ensures var p := Unregister(s, now, lease).0.participants; t in p && p[t] == s.participants[t]
  {
  }

  lemma TickSpares(s: State<nat>, now: nat, t: Token)
    requires t in s.participants && now < s.participants[t].leaseExpiresAt + 600_000
    ensures var p := GcTick(s, now).participants; t in p && p[t] == s.participants[t]
  {
  }

  lemma LeaseStepSpares(w: World, a: Action, t: Token)
    requires a.DoHeartbeat? || a.DoUnregister? || a.DoGc? || a.Advance?
    requires TablesInv(w) && t in w.st.participants && a != DoUnregister(t)
    requires w.now < w.st.participants[t].leaseExpiresAt + 600_000
    ensures var p := Step(w, a).st.participants;
            && t in p && p[t].participantId == w.st.participants[t].participantId
            && p[t].sessionId == w.st.participants[t].sessionId
            && w.st.participants[t].leaseExpiresAt <= p[t].leaseExpiresAt
  {
    hide TablesInv, Heartbeat, Unregister, GcTick, MarkSeen;
    LeaseEndsSoon(w, t);
    match a
    case DoHeartbeat(lease) =>
      HeartbeatSpares(w.st, w.now, lease, t);
      var (st, response) := Heartbeat(w.st, w.now, lease);
      MarkSeenRests(w, st, IdBoundTo(w.st, lease), response.Renewed?);
    case DoUnregister(lease) =>
      UnregisterSpares(w.st, w.now, lease, t);
      var (st, response) := Unregister(w.st, w.now, lease);
      MarkSeenRests(w, st, IdBoundTo(w.st, lease), response.Unregistered?);
    case DoGc => TickSpares(w.st, w.now, t);
    case Advance(_) =>
  }

  lemma LeaseStepBinds(w: World, a: Action, session: string, id: string, until: nat)
    requires a.DoHeartbeat? || a.DoUnregister? || a.DoGc? || a.Advance?
    requires TablesInv(w) && Binds(w, id, session, until) && !Frees(w, a, session, id)
    requires w.now < until + 600_000
    ensures Binds(Step(w, a), id, session, until)
  {
    hide TablesInv, Step;
    var t :| IsOf(w.st.participants, t, session) && w.st.participants[t].participantId == id
             && until <= w.st.participants[t].leaseExpiresAt;
    LeaseStepSpares(w, a, t);
    NamesStay(w, Step(w, a), t, id, session, until);
  }

  lemma StepBinds(w: World, a: Action, session: string, id: string, until: nat)
    requires TablesInv(w) && Binds(w, id, session, until) && !Frees(w, a, session, id)
    requires w.now < until + 600_000
    ensures Binds(Step(w, a), id, session, until)
  {
    hide TablesInv, Binds, Frees;
    match a
    case DoRegister(req) => RegisterBinds(w, req, session, id, until);
    case DoPush(_, _) => MailStepBinds(w, a, session, id, until);
    case DoStart(_) => MailStepBinds(w, a, session, id, until);
    case DoComplete(_, _) => MailStepBinds(w, a, session, id, until);
    case Crash => CrashFrees(w, session, id);
    case _ => LeaseStepBinds(w, a, session, id, until);
  }

  lemma CrashFrees(w: World, session: string, id: string)
    ensures Frees(w, Crash, session, id)
  {
  }

  lemma MailStepBinds(w: World, a: Action, session: string, id: string, until: nat)
    requires Binds(w, id, session, until) && (a.DoPush? || a.DoStart? || a.DoComplete?)
    ensures Binds(Step(w, a), id, session, until)
  {
    hide Step;
    MailStepsKeepParticipants(w, a);
  }

  /** Over runs: until ten minutes after its lease has ended, an id stays with the session that has it,
      unless that session unregisters or asks for another name, or the broker dies. */
  lemma {:induction false} IdStaysWithSession(w: World, run: seq<Action>, session: string, id: string, until: nat)
    requires TablesInv(w) && Binds(w, id, session, until) && Run(w, run).now < until + 600_000
    requires forall k :: 0 <= k < |run| ==> !Frees(Run(w, run[..k]), run[k], session, id)
    ensures TablesInv(Run(w, run)) && Binds(Run(w, run), id, session, until)
  {
    hide TablesInv, Step, Binds, Frees;
    if run != [] {
      var init, a := run[..|run| - 1], run[|run| - 1];
      assert forall k :: 0 <= k < |init| ==> init[..k] == run[..k] && init[k] == run[k];
      StepKeepsClock(Run(w, init), a);
      IdStaysWithSession(w, init, session, id, until);
      StepBinds(Run(w, init), a, session, id, until);
      StepKeepsTables(Run(w, init), a);
    }
  }

  /** And so long no other session is given it. */
  lemma BoundIdIsNotGiven(w: World, req: RegisterRequest, session: string, id: string, until: nat)
    requires TablesInv(w) && Binds(w, id, session, until) && SessionText(req) != session
    ensures var response := Register(w.st, w.now, w.nextToken, req).1;
            && (response.Registered? ==> response.participantId != id)
            && (FirstOf(ProfileRows(req)).None? && WantedName(req) == Some(id) ==> response.Error?)
  {
    hide FirstOf, ProfileRows, Register, Slug, Shown;
    RegisterDecides(w.st, w.now, w.nextToken, req);
    SessionRowsInOrder(w.st, w.now, req);
  }

  /** From that moment on a tick frees it, for whoever asks first. */
  lemma TickFreesId(w: World, req: RegisterRequest, t: Token)
    requires TablesInv(w) && t in w.st.participants && w.st.participants[t].leaseExpiresAt + 600_000 <= w.now
    requires FirstOf(ProfileRows(req)).None? && WantedName(req) == Some(w.st.participants[t].participantId)
    requires forall u :: !IsOf(w.st.participants, u, SessionText(req))
    ensures var w1 := GcStep(w);
            Register(w1.st, w1.now, w1.nextToken, req).1
            == Registered(w.st.participants[t].participantId, w.nextToken, w.now + 75_000, false)
  {
    hide FirstOf, ProfileRows, Register, Slug, Shown, TablesInv, GcStep, SessionRows;
    var w1 := GcStep(w);
    StepKeepsTables(w, DoGc);
    TickRemoves(w, t, SessionText(req));
    NamesAreInverse(w1);
    FreeNameIsGiven(w1.st, w1.now, w1.nextToken, req, w.st.participants[t].participantId);
  }

  lemma NamesAreInverse(w: World)
    requires TablesInv(w)
    ensures Inverse(w.st) && OneRecordPerSession(w.st)
  {
  }

  lemma TickRemoves(w: World, t: Token, session: string)
    requires TablesInv(w) && t in w.st.participants && w.st.participants[t].leaseExpiresAt + 600_000 <= w.now
    requires forall u :: !IsOf(w.st.participants, u, session)
    ensures var w1 := GcStep(w);
            && w1.now == w.now && w1.nextToken == w.nextToken
            && (forall u :: !IsOf(w1.st.participants, u, session))
            && forall u :: u in w1.st.participants ==>
                 w1.st.participants[u].participantId != w.st.participants[t].participantId
  {
    hide TablesInv;
    NamesAreInverse(w);
    var p1 := GcStep(w).st.participants;
    assert forall u :: u in p1 ==> u in w.st.participants && p1[u] == w.st.participants[u];
    assert t !in p1;
    assert forall u :: IsOf(p1, u, session) ==> IsOf(w.st.participants, u, session);
  }

  lemma FreeNameIsGiven(s: State<nat>, now: nat, token: Token, req: RegisterRequest, id: string)
    requires Inverse(s) && OneRecordPerSession(s) && FirstOf(ProfileRows(req)).None? && WantedName(req) == Some(id)
    requires forall u :: !IsOf(s.participants, u, SessionText(req))
    requires forall u :: u in s.participants ==> s.participants[u].participantId != id
    ensures Register(s, now, token, req).1 == Registered(id, token, now + 75_000, false)
  {
    hide FirstOf, ProfileRows, Register, Slug, Shown;
    RegisterDecides(s, now, token, req);
    SessionRowsInOrder(s, now, req);
  }
}
