/** Garbage collection: what a tick can and cannot change. */
module WorldGc {
  import opened Wrappers
  import opened Identity
  import opened BrokerModel
  import opened BrokerTables
  import opened World
  import opened WorldTables
  import opened WorldLeases

  /** Whatever time a session comes back, it finds the same unexpired mail in both. */
  ghost predicate SameFlush<M>(a: map<SessionHash, seq<Entry<M>>>, b: map<SessionHash, seq<Entry<M>>>, now: nat) {
    forall h, later: nat :: now <= later ==> Unexpired(Queue(a, h), later) == Unexpired(Queue(b, h), later)
  }

  /** A tick never changes what any register, now or later, would flush from the mailbox. */
  lemma GcKeepsFlush<M>(s: State<M>, now: nat)
    ensures SameFlush(s.mailbox, GcTick(s, now).mailbox, now)
  {
    forall h, later: nat | now <= later
      ensures Unexpired(Queue(s.mailbox, h), later) == Unexpired(Queue(PruneMailbox(s.mailbox, now), h), later)
    {
      UnexpiredTwice(Queue(s.mailbox, h), now, later);
    }
  }

  /** The same broker, but for expired mail that one of them has already dropped. */
  ghost predicate Twin(w: World, w1: World) {
    && w1 == w.(st := w1.st, place := w1.place)
    && w1.st == w.st.(mailbox := w1.st.mailbox)
    && SameFlush(w.st.mailbox, w1.st.mailbox, w.now)
  }

  lemma EnqueueKeepsFlush(a: map<SessionHash, seq<Entry<nat>>>, b: map<SessionHash, seq<Entry<nat>>>, now: nat,
                          h: SessionHash, e: Entry<nat>)
    requires SameFlush(a, b, now)
    ensures SameFlush(a[h := Queue(a, h) + [e]], b[h := Queue(b, h) + [e]], now)
  {
    var a1, b1 := a[h := Queue(a, h) + [e]], b[h := Queue(b, h) + [e]];
    forall g, later: nat | now <= later
      ensures Unexpired(Queue(a1, g), later) == Unexpired(Queue(b1, g), later)
    {
      assert Unexpired(Queue(a, g), later) == Unexpired(Queue(b, g), later);
      UnexpiredAppend(Queue(a, h), [e], later);
      UnexpiredAppend(Queue(b, h), [e], later);
    }
  }

  lemma RemoveKeepsFlush(a: map<SessionHash, seq<Entry<nat>>>, b: map<SessionHash, seq<Entry<nat>>>, now: nat,
                         h: SessionHash)
    requires SameFlush(a, b, now)
    ensures SameFlush(a - {h}, b - {h}, now)
  {
    forall g, later: nat | now <= later
      ensures Unexpired(Queue(a - {h}, g), later) == Unexpired(Queue(b - {h}, g), later)
    {
      assert Unexpired(Queue(a, g), later) == Unexpired(Queue(b, g), later);
    }
  }

  lemma PruneSame(a: map<SessionHash, seq<Entry<nat>>>, b: map<SessionHash, seq<Entry<nat>>>, now: nat)
    requires SameFlush(a, b, now)
    ensures PruneMailbox(a, now) == PruneMailbox(b, now)
  {
    forall h
      ensures h in PruneMailbox(a, now) <==> h in PruneMailbox(b, now)
      ensures h in PruneMailbox(a, now) ==> PruneMailbox(a, now)[h] == PruneMailbox(b, now)[h]
    {
      assert Unexpired(Queue(a, h), now) == Unexpired(Queue(b, h), now);
    }
  }

  lemma InstallTwin(s: State<nat>, s1: State<nat>, now: nat, token: Token, p: Profile, id: string, reclaimed: bool)
    requires s1 == s.(mailbox := s1.mailbox) && SameFlush(s.mailbox, s1.mailbox, now)
    ensures var (r, response) := Install(s, now, token, p, id, reclaimed);
            var (r1, response1) := Install(s1, now, token, p, id, reclaimed);
            response1 == response && r1 == r.(mailbox := r1.mailbox) && SameFlush(r.mailbox, r1.mailbox, now)
  {
    var h := SessionHash(p.sessionId);
    assert Unexpired(Queue(s.mailbox, h), now) == Unexpired(Queue(s1.mailbox, h), now);
    RemoveKeepsFlush(s.mailbox, s1.mailbox, now, h);
  }

  lemma ReclaimTwin(s: State<nat>, s1: State<nat>, now: nat, token: Token, p: Profile, t: Token)
    requires s1 == s.(mailbox := s1.mailbox) && SameFlush(s.mailbox, s1.mailbox, now) && t in s.participants
    ensures var (r, response) := Reclaim(s, now, token, p, t);
            var (r1, response1) := Reclaim(s1, now, token, p, t);
            response1 == response && r1 == r.(mailbox := r1.mailbox) && SameFlush(r.mailbox, r1.mailbox, now)
  {
    var prior := s.participants[t];
    var cleared := s.(participants := s.participants - {t}, byId := s.byId - {prior.participantId});
    var cleared1 := s1.(participants := s1.participants - {t}, byId := s1.byId - {prior.participantId});
    var id := p.name.GetOr(prior.participantId);
    InstallTwin(cleared, cleared1, now, token, p, id, id == prior.participantId);
  }

  lemma EnrollTwin(s: State<nat>, s1: State<nat>, now: nat, token: Token, p: Profile)
    requires s1 == s.(mailbox := s1.mailbox) && SameFlush(s.mailbox, s1.mailbox, now)
    ensures var (r, response) := Enroll(s, now, token, p);
            var (r1, response1) := Enroll(s1, now, token, p);
            response1 == response && r1 == r.(mailbox := r1.mailbox) && SameFlush(r.mailbox, r1.mailbox, now)
  {
    var choice := if p.name.Some? then p.name else BuildParticipantId(s.byId.Keys, p.kind, p.short);
    if choice.Some? {
      InstallTwin(s, s1, now, token, p, choice.value, false);
    }
  }

  lemma RegisterTwin(s: State<nat>, s1: State<nat>, now: nat, token: Token, req: RegisterRequest)
    requires s1 == s.(mailbox := s1.mailbox) && SameFlush(s.mailbox, s1.mailbox, now)
    ensures var (r, response) := Register(s, now, token, req);
            var (r1, response1) := Register(s1, now, token, req);
            response1 == response && r1 == r.(mailbox := r1.mailbox) && SameFlush(r.mailbox, r1.mailbox, now)
  {
    if Validate(req).Success? {
      var p := Validate(req).value;
      match FindBySession(s.participants, p.sessionId)
      case Some(t) => ReclaimTwin(s, s1, now, token, p, t);
      case None => EnrollTwin(s, s1, now, token, p);
    }
  }

  lemma TwinRegister(w: World, w1: World, req: RegisterRequest)
    requires Twin(w, w1)
    ensures Twin(RegisterStep(w, req), RegisterStep(w1, req))
  {
    RegisterTwin(w.st, w1.st, w.now, w.nextToken, req);
    TwinAfterRegister(w, w1, req, Register(w.st, w.now, w.nextToken, req).0, Register(w1.st, w.now, w.nextToken, req).0,
                      Register(w.st, w.now, w.nextToken, req).1);
  }

  lemma TwinAfterRegister(w: World, w1: World, req: RegisterRequest, st: State<nat>, st1: State<nat>,
                          response: Response)
    requires Twin(w, w1) && st1 == st.(mailbox := st1.mailbox) && SameFlush(st.mailbox, st1.mailbox, w.now)
    ensures Twin(AfterRegister(w, req, st, response), AfterRegister(w1, req, st1, response))
  {
    if Validate(req).Success? {
      var h := SessionHash(Validate(req).value.sessionId);
      assert Unexpired(Queue(w.st.mailbox, h), w.now) == Unexpired(Queue(w1.st.mailbox, h), w.now);
    }
  }

  lemma TwinPush(w: World, w1: World, lease: Token, envelope: Envelope, dest: Destination)
    requires Twin(w, w1)
    ensures Twin(AfterPush(w, lease, envelope, dest), AfterPush(w1, lease, envelope, dest))
  {
    hide Unexpired, SameFlush;
    if dest.Offline? {
      EnqueueKeepsFlush(w.st.mailbox, w1.st.mailbox, w.now, SessionHash(dest.sessionId),
        Entry(envelope.to, |w.pushes|, w.now));
    }
  }

  lemma TwinComplete(w: World, w1: World, r: Token, reply: bool)
    requires Twin(w, w1)
    ensures Twin(CompleteStep(w, r, reply), CompleteStep(w1, r, reply))
  {
    if CanComplete(w.st, r) && r in w.registrations {
      var c := w.st.chains[r];
      EnqueueKeepsFlush(w.st.mailbox, w1.st.mailbox, w.now, SessionHash(c.sessionId),
        Entry(c.slots[0].to, c.slots[0].mail, w.now));
    }
  }

  lemma NamesIgnoreMailbox(s: State<nat>, mailbox: map<SessionHash, seq<Entry<nat>>>, now: nat, lease: Token)
    ensures var other := s.(mailbox := mailbox);
            && Heartbeat(other, now, lease).0 == Heartbeat(s, now, lease).0.(mailbox := mailbox)
            && Heartbeat(other, now, lease).1 == Heartbeat(s, now, lease).1
            && Unregister(other, now, lease).0 == Unregister(s, now, lease).0.(mailbox := mailbox)
            && Unregister(other, now, lease).1 == Unregister(s, now, lease).1
            && Heartbeat(s, now, lease).0.mailbox == Unregister(s, now, lease).0.mailbox == s.mailbox
  {
  }

  lemma TwinHeartbeat(w: World, w1: World, lease: Token)
    requires Twin(w, w1)
    ensures Twin(HeartbeatStep(w, lease), HeartbeatStep(w1, lease))
  {
    NamesIgnoreMailbox(w.st, w1.st.mailbox, w.now, lease);
  }

  lemma TwinUnregister(w: World, w1: World, lease: Token)
    requires Twin(w, w1)
    ensures Twin(UnregisterStep(w, lease), UnregisterStep(w1, lease))
  {
    NamesIgnoreMailbox(w.st, w1.st.mailbox, w.now, lease);
  }

  lemma TwinPrune(w: World, w1: World, a: Action)
    requires Twin(w, w1) && (a.DoGc? || a.Crash?)
    ensures Twin(Step(w, a), Step(w1, a))
  {
    PruneSame(w.st.mailbox, w1.st.mailbox, w.now);
  }

  lemma TwinPushStep(w: World, w1: World, req: PushRequest, nowIso: string)
    requires Twin(w, w1)
    ensures Twin(PushStep(w, req, nowIso), PushStep(w1, req, nowIso))
  {
    hide AfterPush;
    var checked := CheckPush(w.st.participants, w.now, req);
    if checked.Success? {
      TwinPush(w, w1, req.lease, MakeEnvelope(checked.value, req, nowIso), Route(w.st, w.now, req.to.text));
    }
  }

  lemma TwinStart(w: World, w1: World, r: Token)
    requires Twin(w, w1)
    ensures Twin(StartStep(w, r), StartStep(w1, r))
  {
  }

  lemma TwinAdvance(w: World, w1: World, ms: nat)
    requires Twin(w, w1)
    ensures Twin(w.(now := w.now + ms), w1.(now := w1.now + ms))
  {
  }

  lemma TwinStep(w: World, w1: World, a: Action)
    requires Twin(w, w1)
    ensures Twin(Step(w, a), Step(w1, a))
  {
    hide Twin, RegisterStep, HeartbeatStep, UnregisterStep, PushStep, StartStep, CompleteStep, GcStep, CrashStep;
    match a
    case DoRegister(req) => TwinRegister(w, w1, req);
    case DoPush(req, nowIso) => TwinPushStep(w, w1, req, nowIso);
    case DoStart(r) => TwinStart(w, w1, r);
    case DoComplete(r, accepted) => TwinComplete(w, w1, r, accepted);
    case DoHeartbeat(lease) => TwinHeartbeat(w, w1, lease);
    case DoUnregister(lease) => TwinUnregister(w, w1, lease);
    case Advance(ms) => TwinAdvance(w, w1, ms);
    case _ => TwinPrune(w, w1, a);
  }

  lemma {:induction false} TwinRun(w: World, w1: World, run: seq<Action>)
    requires Twin(w, w1)
    ensures Twin(Run(w, run), Run(w1, run))
  {
    if run != [] {
      TwinRun(w, w1, run[..|run| - 1]);
      TwinStep(Run(w, run[..|run| - 1]), Run(w1, run[..|run| - 1]), run[|run| - 1]);
    }
  }

  /** After a tick the mailbox holds exactly the mail that is still fresh. */
  lemma GcLeavesFreshMail(s: State<nat>, now: nat, h: SessionHash, e: Entry<nat>)
    ensures e in Queue(GcTick(s, now).mailbox, h) <==> e in Queue(s.mailbox, h) && now < e.queuedAt + 300_000
  {
    UnexpiredMembers(Queue(s.mailbox, h), now);
    assert Queue(GcTick(s, now).mailbox, h) == Unexpired(Queue(s.mailbox, h), now);
  }

  // ---- when a tick can be seen at all ---------------------------------------------------------

  /** No record and no recent id has reached its collection time. */
  ghost predicate Calm(w: World) {
    && (forall t :: t in w.st.participants ==> w.now < w.st.participants[t].leaseExpiresAt + 600_000)
    && (forall x :: x in w.st.recent ==> w.now < w.st.recent[x].lastSeenAt + 600_000)
  }

  /** A tick keeps a record until ten minutes after its lease has expired, and a recent id until ten
      minutes after it was last seen. */
  lemma TickKeeps(w: World, t: Token, x: string)
    ensures t in GcStep(w).st.participants
            <==> t in w.st.participants && w.now < w.st.participants[t].leaseExpiresAt + 600_000
    ensures x in GcStep(w).st.recent <==> x in w.st.recent && w.now < w.st.recent[x].lastSeenAt + 600_000
    ensures t in GcStep(w).st.participants ==> GcStep(w).st.participants[t] == w.st.participants[t]
    ensures x in GcStep(w).st.recent ==> GcStep(w).st.recent[x] == w.st.recent[x]
  {
  }

  lemma CalmTickIsTwin(w: World)
    requires TablesInv(w) && Calm(w)
    ensures Twin(w, GcStep(w))
  {
    GcKeepsFlush(w.st, w.now);
    CalmTickKeepsNames(w.st, w.now);
  }

  lemma CalmTickKeepsNames(s: State<nat>, now: nat)
    requires Inverse(s)
    requires forall t :: t in s.participants ==> !Collectable(s.participants[t], now)
    requires forall x :: x in s.recent ==> now - s.recent[x].lastSeenAt < STALE_GC_MS
    ensures GcTick(s, now) == s.(mailbox := PruneMailbox(s.mailbox, now))
  {
    var g := GcTick(s, now);
    assert g.participants == s.participants;
    assert g.byId == s.byId;
    assert g.recent == s.recent;
  }

  /** Ticks at calm moments may be inserted anywhere in a run: every later answer, every plan a
      registration flushes, every table but for expired mail is as without the tick. */
  lemma CalmTicksChangeNothing(w: World, before: seq<Action>, after: seq<Action>)
    requires TablesInv(Run(w, before)) && Calm(Run(w, before))
    ensures Twin(Run(w, before + after), Run(w, before + [DoGc] + after))
  {
    RunAppend(w, before, after);
    RunAppend(w, before + [DoGc], after);
    RunOneTick(w, before);
    CalmTickIsTwin(Run(w, before));
    TwinRun(Run(w, before), GcStep(Run(w, before)), after);
  }

  lemma RunOneTick(w: World, before: seq<Action>)
    ensures Run(w, before + [DoGc]) == GcStep(Run(w, before))
  {
    assert (before + [DoGc])[..|before|] == before;
  }

  /** What a push, a register, a heartbeat and an unregister would be answered. */
  ghost predicate SameAnswers(w: World, w1: World) {
    && (forall to :: Route(w1.st, w1.now, to) == Route(w.st, w.now, to))
    && (forall req :: CheckPush(w1.st.participants, w1.now, req) == CheckPush(w.st.participants, w.now, req))
    && (forall req :: Register(w1.st, w1.now, w1.nextToken, req).1 == Register(w.st, w.now, w.nextToken, req).1)
    && (forall lease :: Heartbeat(w1.st, w1.now, lease).1 == Heartbeat(w.st, w.now, lease).1)
    && (forall lease :: Unregister(w1.st, w1.now, lease).1 == Unregister(w.st, w.now, lease).1)
  }

  /** Nobody who asks, now or after any further run, can tell a tick from no tick. */
  ghost predicate TickInvisible(w: World) {
    forall after :: SameAnswers(Run(w, after), Run(GcStep(w), after))
  }

  lemma TwinsAnswerAlike(w: World, w1: World)
    requires Twin(w, w1)
    ensures SameAnswers(w, w1)
  {
    forall req
      ensures Register(w1.st, w1.now, w1.nextToken, req).1 == Register(w.st, w.now, w.nextToken, req).1
    {
      RegisterTwin(w.st, w1.st, w.now, w.nextToken, req);
    }
    forall lease
      ensures Heartbeat(w1.st, w1.now, lease).1 == Heartbeat(w.st, w.now, lease).1
      ensures Unregister(w1.st, w1.now, lease).1 == Unregister(w.st, w.now, lease).1
    {
      NamesIgnoreMailbox(w.st, w1.st.mailbox, w.now, lease);
    }
  }

  /** A stale recent id makes a tick visible to a push: queued without it, refused after it. */
  lemma StaleIdIsVisible(w: World, x: string)
    requires TablesInv(w) && x in w.st.recent && w.now - w.st.recent[x].lastSeenAt >= 600_000
    ensures Route(w.st, w.now, x).Offline? && Route(GcStep(w).st, w.now, x) == Unknown
  {
    if x in w.st.byId {
      var t := w.st.byId[x];
      assert w.st.participants[t].lastHeartbeat <= w.seenAt[x];
    }
  }

  function OtherKind(kind: string): string {
    if kind == "a" then "b" else "a"
  }

  /** A record past its collection time makes a tick visible to its own session: asking again
      under another kind is a mismatch without the tick and not after it. */
  lemma StaleRecordIsVisible(w: World, t: Token) returns (req: RegisterRequest)
    requires TablesInv(w) && t in w.st.participants && Collectable(w.st.participants[t], w.now)
    requires 1 <= Text.JsLength(w.st.participants[t].sessionId) <= 256
    ensures Register(GcStep(w).st, w.now, w.nextToken, req).1 != Register(w.st, w.now, w.nextToken, req).1
  {
    var r := w.st.participants[t];
    req := KindRequest(OtherKind(r.kind), r.sessionId);
    KindRequestIsValid(r);
    assert FindBySession(w.st.participants, r.sessionId) == Some(t);
    assert FindBySession(GcStep(w).st.participants, r.sessionId) == None;
  }

  /** The plainest request of a session, under a given kind. */
  function KindRequest(kind: string, sessionId: string): RegisterRequest {
    RegisterRequest(BrokerModel.Text(kind), BrokerModel.Text(sessionId), Absent, Absent, NoDelivery, "000000000000")
  }

  lemma KindRequestIsValid(r: Record)
    requires 1 <= Text.JsLength(r.sessionId) <= 256
    ensures Validate(KindRequest(OtherKind(r.kind), r.sessionId)).Success?
    ensures var p := Validate(KindRequest(OtherKind(r.kind), r.sessionId)).value;
            p.kind != r.kind && p.sessionId == r.sessionId
  {
  }

  /** Registered sessions have ids of legal length. */
  ghost predicate SessionsLegal(w: World) {
    forall t :: t in w.st.participants ==> 1 <= Text.JsLength(w.st.participants[t].sessionId) <= 256
  }

  lemma StepKeepsSessionsLegal(w: World, a: Action)
    requires TablesInv(w) && SessionsLegal(w)
    ensures SessionsLegal(Step(w, a))
  {
    if a.DoRegister? {
      RegisterKeepsSessionsLegal(w, a.req);
    } else if !a.Crash? {
      StepMoves(w, a);
      StepKeepsTables(w, a);
      OnlyRegisterIssuesTokens(w, a);
      MovedKeepsLegal(w, Step(w, a), if a.DoUnregister? then Some(a.lease) else None);
    }
  }

  lemma RegisterKeepsSessionsLegal(w: World, req: RegisterRequest)
    requires TablesInv(w) && SessionsLegal(w)
    ensures SessionsLegal(RegisterStep(w, req))
  {
    RegisterEffect(w.st, w.now, w.nextToken, req);
    var (st, response) := Register(w.st, w.now, w.nextToken, req);
    RegisteredSessionLegal(w, req, st, response);
  }

  lemma RegisteredSessionLegal(w: World, req: RegisterRequest, st: State<nat>, response: Response)
    requires SessionsLegal(w) && RegisterOutcome(w.st, st, response, w.now, w.nextToken, req)
    ensures SessionsLegal(AfterRegister(w, req, st, response))
  {
  }

  lemma MovedKeepsLegal(w: World, w1: World, spared: Option<Token>)
    requires SessionsLegal(w) && ParticipantsMove(w, w1, spared) && TokensOk(w1) && w1.nextToken == w.nextToken
    ensures SessionsLegal(w1)
  {
  }

  lemma OnlyRegisterIssuesTokens(w: World, a: Action)
    requires !a.DoRegister?
    ensures Step(w, a).nextToken == w.nextToken
  {
    if a.DoPush? || a.DoStart? || a.DoComplete? {
      hide Step;
      MailStepsKeepParticipants(w, a);
    } else {
      hide Step;
      QuietSteps(w, a);
    }
  }

  lemma CalmTickIsInvisible(w: World)
    requires TablesInv(w) && Calm(w)
    ensures TickInvisible(w)
  {
    CalmTickIsTwin(w);
    forall after
      ensures SameAnswers(Run(w, after), Run(GcStep(w), after))
    {
      TwinRun(w, GcStep(w), after);
      TwinsAnswerAlike(Run(w, after), Run(GcStep(w), after));
    }
  }

  lemma StaleTickIsVisible(w: World)
    requires TablesInv(w) && SessionsLegal(w) && !Calm(w)
    ensures !SameAnswers(w, GcStep(w))
  {
    if t :| t in w.st.participants && Collectable(w.st.participants[t], w.now) {
      var req := StaleRecordIsVisible(w, t);
    } else {
      var x :| x in w.st.recent && w.now - w.st.recent[x].lastSeenAt >= 600_000;
      StaleIdIsVisible(w, x);
    }
  }

  /** Exactly when a tick is transparent: no answer to any request, then or after any later run,
      depends on it if and only if it collects no record and no recent id. */
  lemma TickInvisibleIffCalm(w: World)
    requires TablesInv(w) && SessionsLegal(w)
    ensures TickInvisible(w) <==> Calm(w)
  {
    if Calm(w) {
      CalmTickIsInvisible(w);
    } else {
      StaleTickIsVisible(w);
      assert Run(w, []) == w && Run(GcStep(w), []) == GcStep(w);
    }
  }

  lemma RunTwo(w: World, a: Action, b: Action)
    ensures Run(w, [a, b]) == Step(Step(w, a), b)
  {
    assert [a][..0] == [] && [a, b][..1] == [a];
    assert Run(w, [a]) == Step(Run(w, []), a);
  }

  lemma SilenceIsNotCalm(w: World, x: string)
    requires x in w.st.recent && w.now - w.st.recent[x].lastSeenAt >= 600_000
    ensures !Calm(w)
  {
  }

  lemma VisibleAtOnce(w: World)
    requires !SameAnswers(w, GcStep(w))
    ensures !TickInvisible(w)
  {
    hide SameAnswers, GcStep;
    assert Run(w, []) == w && Run(GcStep(w), []) == GcStep(w);
  }

  /** And ticks that can be told do occur: one registration and ten minutes of silence are enough. */
  lemma StaleStateIsReached(now: nat)
    ensures var w := Run(Start0(now), [DoRegister(KindRequest("a", "s")), Advance(600_000)]);
            TablesInv(w) && !Calm(w) && !TickInvisible(w)
  {
    hide TablesInv, Calm, TickInvisible, SameAnswers, RegisterStep, GcStep, Run, Route;
    var join, wait := DoRegister(KindRequest("a", "s")), Advance(600_000);
    RunTwo(Start0(now), join, wait);
    TablesAgreeInEveryRun(now, [join, wait]);
    FirstRegister(now);
    var w := Run(Start0(now), [join, wait]);
    SilenceIsNotCalm(w, "a:000000000000");
    StaleIdIsVisible(w, "a:000000000000");
    DifferentRoutes(w, "a:000000000000");
    VisibleAtOnce(w);
  }

  lemma DifferentRoutes(w: World, to: string)
    requires Route(GcStep(w).st, w.now, to) != Route(w.st, w.now, to)
    ensures !SameAnswers(w, GcStep(w))
  {
    assert GcStep(w).now == w.now;
    hide Route;
  }

  lemma FirstRegister(now: nat)
    ensures var w1 := RegisterStep(Start0(now), KindRequest("a", "s"));
            "a:000000000000" in w1.st.recent && w1.st.recent["a:000000000000"].lastSeenAt == now && w1.now == now
  {
    var req := KindRequest("a", "s");
    var s := Init<nat>();
    assert IsKind("a");
    assert Validate(req).Success?;
    var p := Validate(req).value;
    assert FindBySession(s.participants, p.sessionId) == None;
    assert Candidate("a", "000000000000", 0) == "a:000000000000";
    assert BuildParticipantId(s.byId.Keys, "a", "000000000000") == Some("a:000000000000");
    assert Enroll(s, now, 0, p) == Install(s, now, 0, p, "a:000000000000", false);
  }
}
