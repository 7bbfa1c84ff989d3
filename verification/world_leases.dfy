/** Leases, eligibility and addressing, over runs of the broker. */
module WorldLeases {
  import opened Wrappers
  import opened Identity
  import opened BrokerModel
  import opened BrokerTables
  import opened World
  import opened WorldTables

  ghost predicate HoldsLease(w: World, t: Token) {
    t in w.st.participants && LeaseValid(w.st.participants[t], w.now)
  }

  /** The record of `t` is still there, under the same id and session, with no earlier expiry. */
  ghost predicate RecordKept(w: World, w1: World, t: Token) {
    && t in w.st.participants && t in w1.st.participants
    && w1.st.participants[t].participantId == w.st.participants[t].participantId
    && w1.st.participants[t].sessionId == w.st.participants[t].sessionId
    && w.st.participants[t].leaseExpiresAt <= w1.st.participants[t].leaseExpiresAt
  }

  /** How any step moves the participant table. */
  ghost predicate Moved(p: map<Token, Record>, p1: map<Token, Record>, now: nat, next: Token, spared: Option<Token>) {
    && (forall t :: t in p1 && t < next ==>
          && t in p
          && p1[t].participantId == p[t].participantId && p1[t].sessionId == p[t].sessionId
          && (p1[t].leaseExpiresAt == p[t].leaseExpiresAt
              || (LeaseValid(p[t], now) && p1[t].leaseExpiresAt == now + LEASE_TTL_MS)))
    && (forall t :: t in p && LeaseValid(p[t], now) && spared != Some(t) ==> t in p1)
  }

  ghost predicate ParticipantsMove(w: World, w1: World, spared: Option<Token>) {
    && w1.nextToken >= w.nextToken && w1.now >= w.now
    && Moved(w.st.participants, w1.st.participants, w.now, w.nextToken, spared)
  }

  lemma RegisterMoves(w: World, req: RegisterRequest)
    requires TablesInv(w)
    ensures ParticipantsMove(w, RegisterStep(w, req), None)
  {
    RegisterEffect(w.st, w.now, w.nextToken, req);
    var (st, response) := Register(w.st, w.now, w.nextToken, req);
    AfterRegisterMoves(w, req, st, response);
  }

  lemma AfterRegisterMoves(w: World, req: RegisterRequest, st: State<nat>, response: Response)
    requires TokensOk(w) && RegisterOutcome(w.st, st, response, w.now, w.nextToken, req)
    ensures ParticipantsMove(w, AfterRegister(w, req, st, response), None)
  {
  }

  /** Steps on mail and chains leave the participant table alone. */
  lemma MailStepsKeepParticipants(w: World, a: Action)
    requires a.DoPush? || a.DoStart? || a.DoComplete?
    ensures var w1 := Step(w, a);
            w1.st.participants == w.st.participants && w1.nextToken == w.nextToken && w1.now == w.now
  {
    if a.DoPush? && CheckPush(w.st.participants, w.now, a.request).Success? {
      var checked := CheckPush(w.st.participants, w.now, a.request);
      PushKeepsParticipants(w, a.request.lease, MakeEnvelope(checked.value, a.request, a.nowIso),
                            Route(w.st, w.now, a.request.to.text));
    }
  }

  lemma PushKeepsParticipants(w: World, lease: Token, envelope: Envelope, dest: Destination)
    ensures var w1 := AfterPush(w, lease, envelope, dest);
            w1.st.participants == w.st.participants && w1.nextToken == w.nextToken && w1.now == w.now
  {
  }

  lemma HeartbeatMovesRecords(s: State<nat>, now: nat, next: Token, lease: Token)
    ensures Moved(s.participants, Heartbeat(s, now, lease).0.participants, now, next, None)
  {
  }

  lemma UnregisterMovesRecords(s: State<nat>, now: nat, next: Token, lease: Token)
    ensures Moved(s.participants, Unregister(s, now, lease).0.participants, now, next, Some(lease))
  {
  }

  lemma HeartbeatMoves(w: World, lease: Token)
    ensures ParticipantsMove(w, HeartbeatStep(w, lease), None)
  {
    hide Moved, Heartbeat, MarkSeen;
    HeartbeatMovesRecords(w.st, w.now, w.nextToken, lease);
    var (st, response) := Heartbeat(w.st, w.now, lease);
    MarkSeenRests(w, st, IdBoundTo(w.st, lease), response.Renewed?);
  }

  lemma UnregisterMoves(w: World, lease: Token)
    ensures ParticipantsMove(w, UnregisterStep(w, lease), Some(lease))
  {
    hide Moved, Unregister, MarkSeen;
    UnregisterMovesRecords(w.st, w.now, w.nextToken, lease);
    var (st, response) := Unregister(w.st, w.now, lease);
    MarkSeenRests(w, st, IdBoundTo(w.st, lease), response.Unregistered?);
  }

  lemma GcMoves(w: World)
    ensures ParticipantsMove(w, GcStep(w), None)
  {
  }

  lemma AdvanceMoves(w: World, ms: nat)
    ensures ParticipantsMove(w, w.(now := w.now + ms), None)
  {
  }

  lemma StepMoves(w: World, a: Action)
    requires TablesInv(w) && a != Crash
    ensures ParticipantsMove(w, Step(w, a), if a.DoUnregister? then Some(a.lease) else None)
  {
    hide RegisterStep, HeartbeatStep, UnregisterStep, PushStep, StartStep, CompleteStep, GcStep, Moved;
    match a
    case DoRegister(req) => RegisterMoves(w, req);
    case DoHeartbeat(lease) => HeartbeatMoves(w, lease);
    case DoUnregister(lease) => UnregisterMoves(w, lease);
    case DoGc => GcMoves(w);
    case Advance(ms) => AdvanceMoves(w, ms);
    case _ =>
      MailStepsKeepParticipants(w, a);
      NobodyMoves(w, Step(w, a));
  }

  lemma NobodyMoves(w: World, w1: World)
    requires w1.st.participants == w.st.participants && w1.nextToken == w.nextToken && w1.now == w.now
    ensures ParticipantsMove(w, w1, None)
  {
  }

  /** One step: while a lease is valid only its own unregister (or the death of the process)
      touches its record, whatever any other session asks for. */
  lemma StepKeepsValidLease(w: World, a: Action, t: Token)
    requires TablesInv(w) && HoldsLease(w, t) && a != DoUnregister(t) && a != Crash
    ensures RecordKept(w, Step(w, a), t)
  {
    StepMoves(w, a);
    assert w.st.participants[t].lastHeartbeat <= w.now;
  }

  /** The clock never goes back. */
  lemma {:induction false} ClockOnlyGrows(w: World, run: seq<Action>)
    ensures w.now <= Run(w, run).now
  {
    if run != [] {
      ClockOnlyGrows(w, run[..|run| - 1]);
      StepKeepsClock(Run(w, run[..|run| - 1]), run[|run| - 1]);
    }
  }

  lemma StepKeepsClock(w: World, a: Action)
    ensures w.now <= Step(w, a).now
  {
    match a
    case DoRegister(_) =>
    case DoHeartbeat(lease) => HeartbeatRests(w, lease);
    case DoUnregister(lease) => UnregisterRests(w, lease);
    case DoGc =>
    case Advance(_) =>
    case Crash =>
    case _ => MailStepsKeepParticipants(w, a);
  }

  lemma KeptAtFirst(w: World, t: Token)
    requires HoldsLease(w, t)
    ensures RecordKept(w, w, t)
  {
  }

  lemma KeptOneMore(w: World, w1: World, w2: World, t: Token)
    requires RecordKept(w, w1, t) && RecordKept(w1, w2, t) && w2.now < w.st.participants[t].leaseExpiresAt
    ensures RecordKept(w, w2, t) && HoldsLease(w2, t)
  {
  }

  /** Over a whole run: a valid lease that nobody unregisters keeps its record, with its id and session,
      at least until its expiry, whatever everybody else does; and the expiry never moves back. */
  lemma {:induction false} ValidLeaseIsUntouched(w: World, run: seq<Action>, t: Token)
    requires TablesInv(w) && HoldsLease(w, t) && DoUnregister(t) !in run && Crash !in run
    requires Run(w, run).now < w.st.participants[t].leaseExpiresAt
    ensures TablesInv(Run(w, run)) && RecordKept(w, Run(w, run), t) && HoldsLease(Run(w, run), t)
  {
    hide TablesInv, Step, RecordKept, HoldsLease;
    if run == [] {
      KeptAtFirst(w, t);
    } else {
      var init, a := run[..|run| - 1], run[|run| - 1];
      assert run == init + [a];
      StepKeepsClock(Run(w, init), a);
      ValidLeaseIsUntouched(w, init, t);
      StepKeepsValidLease(Run(w, init), a, t);
      StepKeepsTables(Run(w, init), a);
      KeptOneMore(w, Run(w, init), Run(w, run), t);
    }
  }

  /** A token that was handed out and is no longer (or not yet again) valid. */
  ghost predicate IsDead(w: World, t: Token) {
    t < w.nextToken && !HoldsLease(w, t)
  }

  lemma StepKeepsDead(w: World, a: Action, t: Token)
    requires TablesInv(w) && IsDead(w, t)
    ensures IsDead(Step(w, a), t)
  {
    if a != Crash {
      StepMoves(w, a);
    }
  }

  /** Once a token fails validity it never again authenticates a heartbeat or a push. */
  lemma {:induction false} DeadTokenStaysDead(w: World, run: seq<Action>, t: Token, req: PushRequest)
    requires TablesInv(w) && IsDead(w, t) && req.lease == t
    ensures TablesInv(Run(w, run)) && IsDead(Run(w, run), t)
    ensures Heartbeat(Run(w, run).st, Run(w, run).now, t).1.Error?
    ensures CheckPush(Run(w, run).st.participants, Run(w, run).now, req) == Failure("invalid_or_expired_lease")
  {
    if run != [] {
      var init := run[..|run| - 1];
      DeadTokenStaysDead(w, init, t, req);
      StepKeepsDead(Run(w, init), run[|run| - 1], t);
      StepKeepsTables(Run(w, init), run[|run| - 1]);
    }
  }

  // ---- who a push reaches ----------------------------------------------------------------

  /** Every record with a valid lease is in the recent table. */
  lemma ValidLeaseIsRecent(w: World, t: Token)
    requires TablesInv(w) && HoldsLease(w, t)
    ensures w.st.participants[t].participantId in w.st.recent
  {
    var id := w.st.participants[t].participantId;
    assert w.idOf[w.holder[id]] == id;
  }

  /** A push is only ever routed to the session that last registered the target id. */
  lemma RouteReachesHolder(w: World, to: string)
    requires TablesInv(w)
    ensures match Route(w.st, w.now, to)
            case Online(t) => t in w.st.chains && to in w.holder && w.st.chains[t].sessionId == w.holder[to]
            case Offline(session) => to in w.holder && session == w.holder[to]
            case Unknown => true
  {
  }

  /** An unregister ends the lease for good, and mail for the id waits for the session. */
  lemma UnregisterEndsLease(w: World, t: Token)
    requires TablesInv(w) && t in w.st.participants
    ensures var w1 := UnregisterStep(w, t); var r := w.st.participants[t];
            IsDead(w1, t) && Route(w1.st, w1.now, r.participantId) == Offline(r.sessionId)
  {
    assert w.st.byId[w.st.participants[t].participantId] == t;
  }

  /** After a heartbeat the id is reached live for exactly 75 s, then through the mailbox. */
  lemma HeartbeatBuysOneTerm(w: World, t: Token, ms: nat)
    requires TablesInv(w) && HoldsLease(w, t)
    ensures var r := w.st.participants[t];
            var w1 := Step(HeartbeatStep(w, t), Advance(ms));
            Route(w1.st, w1.now, r.participantId) == if ms < 75_000 then Online(t) else Offline(r.sessionId)
  {
    hide HeartbeatStep, TablesInv, Route, UnregisterStep, PushStep, StartStep, CompleteStep, GcStep, CrashStep,
         RegisterStep;
    var r := w.st.participants[t];
    IdPointsHere(w, t);
    HeartbeatLeaves(w, t);
    RouteByLease(HeartbeatStep(w, t).st, w.now + ms, r.participantId, t, r.sessionId);
  }

  lemma IdPointsHere(w: World, t: Token)
    requires TablesInv(w) && t in w.st.participants
    ensures var id := w.st.participants[t].participantId; id in w.st.byId && w.st.byId[id] == t
  {
  }

  lemma RouteByLease(s: State<nat>, now: nat, to: string, t: Token, session: string)
    requires to in s.byId && s.byId[to] == t && t in s.participants
    requires to in s.recent && s.recent[to].sessionId == session
    ensures Route(s, now, to) == if LeaseValid(s.participants[t], now) then Online(t) else Offline(session)
  {
  }

  lemma HeartbeatLeaves(w: World, t: Token)
    requires HoldsLease(w, t)
    ensures var w1 := HeartbeatStep(w, t); var r := w.st.participants[t];
            && w1.now == w.now && w1.st.byId == w.st.byId
            && t in w1.st.participants && w1.st.participants[t].leaseExpiresAt == w.now + LEASE_TTL_MS
            && r.participantId in w1.st.recent && w1.st.recent[r.participantId].sessionId == r.sessionId
  {
  }

  /** `no_such_participant` is never the answer within ten minutes of the latest holder's last
      register, heartbeat or unregister, unless that session has taken another id since. */
  lemma EligibleForTenMinutes(now: nat, run: seq<Action>, to: string)
    ensures var w := Run(Start0(now), run);
            to in w.holder && w.holder[to] in w.idOf && to in w.seenAt
            && w.idOf[w.holder[to]] == to && w.now < w.seenAt[to] + 600_000
            ==> !Route(w.st, w.now, to).Unknown?
  {
    TablesAgreeInEveryRun(now, run);
  }

  ghost predicate SomeoneHolds(w: World, to: string) {
    exists t :: t in w.st.participants && HoldsLease(w, t) && w.st.participants[t].participantId == to
  }

  /** After a GC tick at or beyond ten minutes, with no valid lease on the id, it always is; and
      before the first registration of an id as well. */
  lemma IneligibleAfterGc(w: World, to: string)
    requires TablesInv(w) && !SomeoneHolds(w, to)
    requires to in w.holder ==> to in w.seenAt && w.seenAt[to] + 600_000 <= w.now
    ensures Route(GcStep(w).st, w.now, to) == Unknown
  {
    assert to !in KeptRecent(w.st.recent, w.now) by {
      if to in w.st.recent {
        assert w.st.recent[to].lastSeenAt == w.seenAt[to];
      }
    }
    if to in w.st.byId {
      assert !HoldsLease(w, w.st.byId[to]);
    }
  }

  /** Every id a register hands out is one that push validation accepts. */
  lemma RegisteredIdIsAddressable(w: World, req: RegisterRequest)
    requires TablesInv(w)
    ensures var (st, response) := Register(w.st, w.now, w.nextToken, req);
            response.Registered? ==>
              && IsParticipantId(response.participantId)
              && Route(st, w.now, response.participantId) == Online(w.nextToken)
  {
    RegisterKeepsTables(w.st, w.now, w.nextToken, req);
    RegisterEffect(w.st, w.now, w.nextToken, req);
  }
}
