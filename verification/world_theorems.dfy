/** The main results about the broker: where mail is, who owns it and who sent it. */
module WorldTheorems {
  import opened Wrappers
  import opened BrokerModel
  import opened BrokerTables
  import opened World
  import opened WorldTables
  import opened WorldLeases
  import opened WorldOrder
  import opened WorldPlaces

  // ---- ownership and sender identity ---------------------------------------------------------

  /** The session push `i` was meant for: the latest registrant of its target when it was pushed. */
  ghost predicate OwnedBy(w: World, i: nat, session: string) {
    i < |w.pushes| && w.pushes[i].owner == Some(session)
  }

  ghost predicate PlacesOwned(w: World) {
    && (forall i :: i in w.place && w.place[i].InChain? ==>
          w.place[i].token in w.registrations && OwnedBy(w, i, w.registrations[w.place[i].token].sessionId))
    && (forall i :: i in w.place && w.place[i].InMail? ==> OwnedBy(w, i, w.place[i].hash.sessionId))
  }

  ghost predicate PlansOwned(w: World) {
    forall r, i :: r in w.registrations && i in w.registrations[r].plan ==> OwnedBy(w, i, w.registrations[r].sessionId)
  }

  /** Every push carries the id its lease was bound to by register. */
  ghost predicate SendersStamped(w: World) {
    && (forall i :: 0 <= i < |w.pushes| ==>
          w.pushes[i].lease in w.registrations
          && w.pushes[i].envelope.from == w.registrations[w.pushes[i].lease].participantId)
    && (forall t :: t in w.st.participants ==>
          t in w.registrations && w.registrations[t].participantId == w.st.participants[t].participantId)
  }

  ghost predicate OwnersInv(w: World) { PlacesOwned(w) && PlansOwned(w) && SendersStamped(w) }

  /** Pushes are only added, registrations keep their names. */
  ghost predicate Extends(w: World, w1: World) {
    && w.pushes <= w1.pushes
    && (forall r :: r in w.registrations ==>
          && r in w1.registrations
          && w1.registrations[r].sessionId == w.registrations[r].sessionId
          && w1.registrations[r].participantId == w.registrations[r].participantId)
  }

  lemma RegisterOwners(w: World, req: RegisterRequest, st: State<nat>, response: Response)
    requires TokensOk(w) && PlacesInv(w) && OwnersInv(w) && response.Registered?
    requires RegisterOutcome(w.st, st, response, w.now, w.nextToken, req)
    ensures OwnersInv(AfterRegister(w, req, st, response))
  {
    var session := Validate(req).value.sessionId;
    var w1 := AfterRegister(w, req, st, response);
    UnexpiredMails(Queue(w.st.mailbox, SessionHash(session)), w.now);
    forall i | i in Flushable(w, SessionHash(session))
      ensures i in w.place && w.place[i] == InMail(SessionHash(session)) && OwnedBy(w, i, session)
    {
    }
    RegisterPlacesOwned(w, w1, session, response.participantId);
    RegisterStamped(w, w1, session, response.participantId);
  }

  lemma RegisterPlacesOwned(w: World, w1: World, session: string, id: string)
    requires PlacesOwned(w) && PlansOwned(w) && w.nextToken !in w.registrations
    requires forall i :: i in Flushable(w, SessionHash(session)) ==> OwnedBy(w, i, session)
    requires w1.pushes == w.pushes
    requires w1.registrations == w.registrations[w.nextToken :=
               Registration(id, session, Flushable(w, SessionHash(session)), [], [])]
    requires w1.place == Drained(w.place, SessionHash(session), Flushable(w, SessionHash(session)),
             InChain(w.nextToken))
    ensures PlacesOwned(w1) && PlansOwned(w1)
  {
  }

  lemma RegisterStamped(w: World, w1: World, session: string, id: string)
    requires SendersStamped(w) && w.nextToken !in w.registrations && w1.pushes == w.pushes
    requires w1.registrations == w.registrations[w.nextToken :=
               Registration(id, session, Flushable(w, SessionHash(session)), [], [])]
    requires forall t :: t in w1.st.participants && t != w.nextToken ==>
               t in w.st.participants && w1.st.participants[t] == w.st.participants[t]
    requires w.nextToken in w1.st.participants ==> w1.st.participants[w.nextToken].participantId == id
    ensures SendersStamped(w1)
  {
  }

  lemma PushOwners(w: World, lease: Token, envelope: Envelope, dest: Destination)
    requires PlacesInv(w) && OwnersInv(w)
    requires lease in w.st.participants && envelope.from == w.st.participants[lease].participantId
    requires match dest
             case Online(t) => t in w.registrations && envelope.to in w.holder
                               && w.registrations[t].sessionId == w.holder[envelope.to]
             case Offline(session) => envelope.to in w.holder && session == w.holder[envelope.to]
             case Unknown => true
    ensures OwnersInv(AfterPush(w, lease, envelope, dest))
  {
    var w1 := AfterPush(w, lease, envelope, dest);
    PushKeepsParticipants(w, lease, envelope, dest);
    PushPlacesOwned(w, w1, lease, envelope, dest);
    PushPlansOwned(w, w1, dest);
    PushStamped(w, w1, lease);
  }

  lemma PushPlacesOwned(w: World, w1: World, lease: Token, envelope: Envelope, dest: Destination)
    requires PlacesOwned(w) && w1 == AfterPush(w, lease, envelope, dest)
    requires forall i :: i in w.place ==> i < |w.pushes|
    requires dest.Online? ==> dest.token in w.registrations && envelope.to in w.holder
                              && w.registrations[dest.token].sessionId == w.holder[envelope.to]
    requires dest.Offline? ==> envelope.to in w.holder && dest.sessionId == w.holder[envelope.to]
    ensures PlacesOwned(w1)
    ensures Extends(w, w1) && |w1.pushes| == |w.pushes| + 1 && w1.pushes[|w.pushes|].lease == lease
    ensures w1.pushes[|w.pushes|].envelope == envelope
    ensures dest.Online? ==> OwnedBy(w1, |w.pushes|, w.registrations[dest.token].sessionId)
    ensures w1.registrations == if dest.Online?
                                then w.registrations[dest.token := w.registrations[dest.token].(
                                       plan := w.registrations[dest.token].plan + [|w.pushes|])]
                                else w.registrations
  {
  }

  lemma PushPlansOwned(w: World, w1: World, dest: Destination)
    requires PlansOwned(w) && Extends(w, w1)
    requires dest.Online? ==>
             dest.token in w.registrations && OwnedBy(w1, |w.pushes|, w.registrations[dest.token].sessionId)
    requires w1.registrations == if dest.Online?
                                 then w.registrations[dest.token := w.registrations[dest.token].(
                                        plan := w.registrations[dest.token].plan + [|w.pushes|])]
                                 else w.registrations
    ensures PlansOwned(w1)
  {
    forall r, i | r in w1.registrations && i in w1.registrations[r].plan
      ensures OwnedBy(w1, i, w1.registrations[r].sessionId)
    {
      if i in w.registrations[r].plan {
        assert OwnedBy(w, i, w.registrations[r].sessionId);
      }
    }
  }

  lemma PushStamped(w: World, w1: World, lease: Token)
    requires SendersStamped(w) && Extends(w, w1) && lease in w.st.participants
    requires w1.st.participants == w.st.participants && |w1.pushes| == |w.pushes| + 1
    requires w1.pushes[|w.pushes|].lease == lease
    requires w1.pushes[|w.pushes|].envelope.from == w.st.participants[lease].participantId
    ensures SendersStamped(w1)
  {
    forall i | 0 <= i < |w.pushes|
      ensures w1.pushes[i] == w.pushes[i]
    {
    }
  }

  /** Steps that settle or prune move mail only within its owner. */
  lemma PlaceMoveOwned(w: World, w1: World)
    requires PlacesOwned(w) && PlansOwned(w) && Extends(w, w1) && w1.pushes == w.pushes
    requires forall i :: i in w1.place ==>
               && i in w.place
               && (w1.place[i].InChain? || w1.place[i].InMail? ==>
                     || w1.place[i] == w.place[i]
                     || (w1.place[i].InMail? && w.place[i].InChain? && w.place[i].token in w.registrations
                         && w1.place[i].hash.sessionId == w.registrations[w.place[i].token].sessionId))
    requires forall r :: r in w1.registrations ==>
             r in w.registrations && w1.registrations[r].plan == w.registrations[r].plan
    ensures PlacesOwned(w1) && PlansOwned(w1)
  {
  }

  lemma SameStamps(w: World, w1: World)
    requires SendersStamped(w) && Extends(w, w1) && w1.pushes == w.pushes
    requires forall t :: t in w1.st.participants ==>
               t in w.st.participants && w1.st.participants[t].participantId == w.st.participants[t].participantId
    ensures SendersStamped(w1)
  {
  }

  lemma CompleteOwners(w: World, r: Token, reply: bool)
    requires ChainPlaces(w.place, w.st.chains) && PlansOk(w) && OwnersInv(w)
    ensures OwnersInv(CompleteStep(w, r, reply))
  {
    if CanComplete(w.st, r) {
      var w1 := CompleteStep(w, r, reply);
      MailStepsKeepParticipants(w, DoComplete(r, reply));
      CompleteExtends(w, r, reply);
      CompletePlacesOwned(w, r, reply);
      SameStamps(w, w1);
    }
  }

  lemma CompletePlacesOwned(w: World, r: Token, reply: bool)
    requires ChainPlaces(w.place, w.st.chains) && PlacesOwned(w) && PlansOwned(w) && CanComplete(w.st, r)
    requires r in w.registrations && w.registrations[r].sessionId == w.st.chains[r].sessionId
    ensures PlacesOwned(CompleteStep(w, r, reply)) && PlansOwned(CompleteStep(w, r, reply))
  {
    CompleteEffect(w, r, reply);
    PopChain(w.place, w.st.chains, r, Expired);
    CompleteExtends(w, r, reply);
    PlaceMoveOwned(w, CompleteStep(w, r, reply));
  }

  lemma CompleteExtends(w: World, r: Token, reply: bool)
    requires CanComplete(w.st, r) && r in w.registrations
    ensures var w1 := CompleteStep(w, r, reply);
            Extends(w, w1) && forall u :: u in w1.registrations ==>
              u in w.registrations && w1.registrations[u].plan == w.registrations[u].plan
  {
  }

  lemma StartOwners(w: World, r: Token)
    requires OwnersInv(w)
    ensures OwnersInv(StartStep(w, r))
  {
    if CanStart(w.st, r) && r in w.registrations {
      var w1 := StartStep(w, r);
      assert Extends(w, w1);
      PlaceMoveOwned(w, w1);
      SameStamps(w, w1);
    }
  }

  lemma QuietOwners(w: World, a: Action)
    requires a.DoHeartbeat? || a.DoUnregister? || a.DoGc? || a.Advance? || a.Crash?
    requires TablesInv(w) && OwnersInv(w)
    ensures OwnersInv(Step(w, a))
  {
    var w1 := Step(w, a);
    QuietSteps(w, a);
    QuietPlaces(w, a);
    PlaceMoveOwned(w, w1);
    if a.Crash? {
    } else {
      StepMoves(w, a);
      StepKeepsTables(w, a);
    }
    SameStamps(w, w1);
  }

  lemma QuietPlaces(w: World, a: Action)
    requires a.DoHeartbeat? || a.DoUnregister? || a.DoGc? || a.Advance? || a.Crash?
    ensures var w1 := Step(w, a);
            forall i :: i in w1.place ==>
              i in w.place && (w1.place[i].InChain? || w1.place[i].InMail? ==> w1.place[i] == w.place[i])
  {
    match a
    case DoHeartbeat(lease) => HeartbeatRests(w, lease);
    case DoUnregister(lease) => UnregisterRests(w, lease);
    case _ =>
  }

  lemma StepKeepsOwners(w: World, a: Action)
    requires TablesInv(w) && PlansOk(w) && PlacesInv(w) && OwnersInv(w)
    ensures OwnersInv(Step(w, a))
  {
    match a
    case DoRegister(req) => RegisterStepOwners(w, req);
    case DoPush(req, nowIso) => PushStepOwners(w, req, nowIso);
    case DoStart(r) => StartOwners(w, r);
    case DoComplete(r, accepted) => CompleteOwners(w, r, accepted);
    case _ => QuietOwners(w, a);
  }

  lemma RegisterStepOwners(w: World, req: RegisterRequest)
    requires TablesInv(w) && PlacesInv(w) && OwnersInv(w)
    ensures OwnersInv(RegisterStep(w, req))
  {
    RegisterEffect(w.st, w.now, w.nextToken, req);
    var (st, response) := Register(w.st, w.now, w.nextToken, req);
    if response.Registered? {
      RegisterOwners(w, req, st, response);
    } else {
      var w1 := AfterRegister(w, req, st, response);
      assert w1 == w.(st := st);
      PlaceMoveOwned(w, w1);
      SameStamps(w, w1);
    }
  }

  lemma PushStepOwners(w: World, req: PushRequest, nowIso: string)
    requires TablesInv(w) && PlansOk(w) && PlacesInv(w) && OwnersInv(w)
    ensures OwnersInv(PushStep(w, req, nowIso))
  {
    var checked := CheckPush(w.st.participants, w.now, req);
    if checked.Success? {
      RouteReachesHolder(w, req.to.text);
      PushOwners(w, req.lease, MakeEnvelope(checked.value, req, nowIso), Route(w.st, w.now, req.to.text));
    }
  }

  lemma RegisterExtends(w: World, req: RegisterRequest)
    requires TokensOk(w)
    ensures Extends(w, RegisterStep(w, req)) && RegisterStep(w, req).pushes == w.pushes
  {
  }

  lemma AfterPushExtends(w: World, lease: Token, envelope: Envelope, dest: Destination)
    ensures var w1 := AfterPush(w, lease, envelope, dest);
            Extends(w, w1) && w1.pushes[..|w.pushes|] == w.pushes && |w1.pushes| == |w.pushes| + 1
            && w1.pushes[|w.pushes|].envelope == envelope && w1.accepts == w.accepts
  {
  }

  lemma PushExtends(w: World, req: PushRequest, nowIso: string)
    ensures Extends(w, PushStep(w, req, nowIso))
  {
    var checked := CheckPush(w.st.participants, w.now, req);
    if checked.Success? {
      AfterPushExtends(w, req.lease, MakeEnvelope(checked.value, req, nowIso), Route(w.st, w.now, req.to.text));
    }
  }

  lemma StartExtends(w: World, r: Token)
    ensures Extends(w, StartStep(w, r)) && StartStep(w, r).pushes == w.pushes
  {
    hide Extends;
    if CanStart(w.st, r) && r in w.registrations {
      OneMoreEntry(w, StartStep(w, r), r);
    } else {
      SameHistory(w, w);
    }
  }

  lemma SameHistory(w: World, w1: World)
    requires w1.pushes == w.pushes && w1.registrations == w.registrations
    ensures Extends(w, w1)
  {
  }

  /** One registration gets on with its plan. */
  lemma OneMoreEntry(w: World, w1: World, r: Token)
    requires r in w.registrations && r in w1.registrations && w1.pushes == w.pushes
    requires w1.registrations == w.registrations[r := w1.registrations[r]]
    requires w1.registrations[r].sessionId == w.registrations[r].sessionId
    requires w1.registrations[r].participantId == w.registrations[r].participantId
    ensures Extends(w, w1)
  {
  }

  lemma SettleExtends(w: World, r: Token, reply: bool)
    ensures Extends(w, CompleteStep(w, r, reply)) && CompleteStep(w, r, reply).pushes == w.pushes
  {
    hide Extends, Complete;
    if CanComplete(w.st, r) && r in w.registrations {
      OneMoreEntry(w, CompleteStep(w, r, reply), r);
    } else {
      SameHistory(w, w);
    }
  }

  lemma StepExtends(w: World, a: Action)
    requires TokensOk(w)
    ensures Extends(w, Step(w, a)) && (!a.DoPush? ==> Step(w, a).pushes == w.pushes)
  {
    match a
    case DoRegister(req) => RegisterExtends(w, req);
    case DoPush(req, nowIso) => PushExtends(w, req, nowIso);
    case DoStart(r) => StartExtends(w, r);
    case DoComplete(r, accepted) => SettleExtends(w, r, accepted);
    case _ => QuietSteps(w, a);
  }

  // ---- everything together ---------------------------------------------------------------------

  ghost predicate Inv(w: World) {
    TablesInv(w) && OrderInv(w) && PlacesInv(w) && AnswersInv(w) && OwnersInv(w)
  }

  lemma InvParts(w: World)
    requires Inv(w)
    ensures TablesInv(w) && TokensOk(w) && PlansOk(w) && PlacesInv(w) && Inverse(w.st) && OneRecordPerSession(w.st)
    ensures forall i: nat :: i in w.place <==> i < |w.pushes|
  {
  }

  lemma StepKeepsInv(w: World, a: Action)
    requires Inv(w)
    ensures Inv(Step(w, a)) && FinalStays(w.place, Step(w, a).place, a.Crash?)
  {
    hide Step, FinalStays, PlacesInv, AnswersInv, OwnersInv, LogsOk;
    StepKeepsTables(w, a);
    StepKeepsOrder(w, a);
    StepKeepsPlaces(w, a);
    StepKeepsAnswers(w, a);
    StepKeepsOwners(w, a);
  }

  lemma InvAtStart(now: nat)
    ensures Inv(Start0(now))
  {
  }

  lemma {:induction false} InvInEveryRun(now: nat, run: seq<Action>)
    ensures Inv(Run(Start0(now), run))
  {
    hide Inv, Step, Start0;
    if run == [] {
      InvAtStart(now);
    } else {
      InvInEveryRun(now, run[..|run| - 1]);
      StepKeepsInv(Run(Start0(now), run[..|run| - 1]), run[|run| - 1]);
    }
  }

  // ---- conservation ------------------------------------------------------------------------------

  /** A physical spot a push can be in: a link of a chain, an entry of a queue, a line of the
      accept log, or a recorded end. */
  datatype Spot =
    | OnChain(token: Token, index: nat)
    | InQueue(hash: SessionHash, index: nat)
    | InAcceptLog(index: nat)
    | Ended(place: Place)

  ghost predicate IsAt(w: World, i: nat, s: Spot) {
    match s
    case OnChain(r, k) => r in w.st.chains && k < |w.st.chains[r].slots| && w.st.chains[r].slots[k].mail == i
    case InQueue(h, k) => h in w.st.mailbox && k < |w.st.mailbox[h]| && w.st.mailbox[h][k].mail == i
    case InAcceptLog(k) => k < |w.accepts| && w.accepts[k].mail == i
    case Ended(p) => i in w.place && w.place[i] == p && (p.Expired? || p.Refused? || p.Lost?)
  }

  lemma SomeSpot(w: World, i: nat) returns (s: Spot)
    requires PlacesInv(w) && AnswersInv(w) && i < |w.pushes|
    ensures IsAt(w, i, s)
  {
    match w.place[i]
    case InChain(r) =>
      var k :| 0 <= k < |w.st.chains[r].slots| && SlotMails(w.st.chains[r].slots)[k] == i;
      s := OnChain(r, k);
    case InMail(h) =>
      var k :| 0 <= k < |w.st.mailbox[h]| && EntryMails(w.st.mailbox[h])[k] == i;
      s := InQueue(h, k);
    case Accepted(r, _) =>
      var k :| 0 <= k < |w.accepts| && w.accepts[k] == Event(r, i);
      s := InAcceptLog(k);
    case p =>
      s := Ended(p);
  }

  /** The spot a push is in determines its place. */
  lemma SpotIsPlace(w: World, i: nat, s: Spot)
    requires PlacesInv(w) && AnswersInv(w) && IsAt(w, i, s)
    ensures i in w.place && match s
                            case OnChain(r, _) => w.place[i] == InChain(r)
                            case InQueue(h, _) => w.place[i] == InMail(h)
                            case InAcceptLog(_) => w.place[i].Accepted?
                            case Ended(p) => w.place[i] == p && IsFinal(p) && !p.Accepted?
  {
    match s
    case OnChain(r, k) => assert SlotMails(w.st.chains[r].slots)[k] in SlotMails(w.st.chains[r].slots);
    case InQueue(h, k) => assert EntryMails(w.st.mailbox[h])[k] in EntryMails(w.st.mailbox[h]);
    case InAcceptLog(k) => assert w.accepts[k] in w.accepts;
    case Ended(_) =>
  }

  lemma OneSpot(w: World, i: nat, s: Spot, s': Spot)
    requires PlacesInv(w) && AnswersInv(w) && IsAt(w, i, s) && IsAt(w, i, s')
    ensures s == s'
  {
    SpotIsPlace(w, i, s);
    SpotIsPlace(w, i, s');
    match s
    case OnChain(r, k) =>
      assert SlotMails(w.st.chains[r].slots)[k] == SlotMails(w.st.chains[r].slots)[s'.index];
    case InQueue(h, k) =>
      assert EntryMails(w.st.mailbox[h])[k] == EntryMails(w.st.mailbox[h])[s'.index];
    case InAcceptLog(k) =>
      assert EventMails(w.accepts)[k] == EventMails(w.accepts)[s'.index];
    case Ended(_) =>
  }

  /** Where a spot is once the head of chain `r` has left. */
  function Shift(s: Spot, r: Token): Spot {
    match s
    case OnChain(u, k) => if u == r && k > 0 then OnChain(u, k - 1) else s
    case _ => s
  }

  /** A settled forward moves one message: the head of the chain, to the end of the accept log or of
      its session's queue. Every other message stays at its spot, or one link nearer on that chain. */
  lemma OnlyHeadMoves(w: World, r: Token, reply: bool, i: nat, s: Spot)
    requires PlacesInv(w) && CanComplete(w.st, r) && r in w.registrations && IsAt(w, i, s)
    ensures var c := w.st.chains[r]; var h := SessionHash(c.sessionId);
            IsAt(CompleteStep(w, r, reply), i,
                 if i != c.slots[0].mail then Shift(s, r)
                 else if reply && c.reachable then InAcceptLog(|w.accepts|)
                 else InQueue(h, |Queue(w.st.mailbox, h)|))
  {
    CompleteEffect(w, r, reply);
    var head := w.st.chains[r].slots[0].mail;
    assert SlotMails(w.st.chains[r].slots)[0] == head;
    match s
    case OnChain(u, k) => assert SlotMails(w.st.chains[u].slots)[k] == i;
    case InQueue(h, k) => assert EntryMails(w.st.mailbox[h])[k] == i;
    case _ =>
  }

  /** Conservation. In every run each validated push is in exactly one spot: one link of one
      chain, one entry of one queue, one line of the accept log, or ended. */
  lemma ExactlyOneSpot(now: nat, run: seq<Action>, i: nat)
    requires i < |Run(Start0(now), run).pushes|
    ensures var w := Run(Start0(now), run);
            exists s :: IsAt(w, i, s) && forall s' :: IsAt(w, i, s') ==> s' == s
  {
    InvInEveryRun(now, run);
    var w := Run(Start0(now), run);
    var s := SomeSpot(w, i);
    forall s' | IsAt(w, i, s')
      ensures s' == s
    {
      OneSpot(w, i, s, s');
    }
  }

  /** Without a crash nothing is ever lost. */
  lemma {:induction false} NothingLostWithoutCrash(now: nat, run: seq<Action>, i: nat)
    requires Crash !in run
    requires i in Run(Start0(now), run).place
    ensures Inv(Run(Start0(now), run)) && !Run(Start0(now), run).place[i].Lost?
  {
    InvInEveryRun(now, run);
    if run != [] {
      var init := run[..|run| - 1];
      var w := Run(Start0(now), init);
      InvInEveryRun(now, init);
      StepKeepsInv(w, run[|run| - 1]);
      if i in w.place {
        NothingLostWithoutCrash(now, init, i);
      } else {
        NewPushNotLost(w, run[|run| - 1], i);
      }
    }
  }

  lemma NewPushNotLost(w: World, a: Action, i: nat)
    requires i !in w.place && i in Step(w, a).place
    ensures !Step(w, a).place[i].Lost?
  {
    if !a.DoPush? {
      OnlyPushAddsPlaces(w, a, i);
    }
  }

  lemma OnlyPushAddsPlaces(w: World, a: Action, i: nat)
    requires !a.DoPush? && i !in w.place
    ensures i in Step(w, a).place ==> !Step(w, a).place[i].Lost?
  {
    if !a.DoRegister? && !a.DoStart? && !a.DoComplete? {
      QuietPlaces(w, a);
    }
  }

  /** The sender is told `delivered` exactly when the adapter accepted the forward of its own push,
      `failed` exactly when nobody held the id; a push is accepted at most once in its life, and a
      sender with no answer yet has its push on a chain (or its broker died). */
  lemma AnswersTellTheTruth(now: nat, run: seq<Action>, i: nat)
    requires i < |Run(Start0(now), run).pushes|
    ensures var w := Run(Start0(now), run);
            && i in w.place
            && (i in w.answers ==>
                  && (w.answers[i] == ToldDelivered <==> exists r :: w.place[i] == Accepted(r, true))
                  && (w.answers[i] == ToldFailed <==> w.place[i] == Refused)
                  && (w.answers[i] == ToldDelivered ==> exists e :: e in w.accepts && e.mail == i))
            && (i !in w.answers ==> w.place[i].InChain? || w.place[i].Lost?)
            && (forall j, k :: 0 <= j < k < |w.accepts| ==> w.accepts[j].mail != w.accepts[k].mail)
  {
    InvInEveryRun(now, run);
    var w := Run(Start0(now), run);
    if i in w.answers && w.answers[i] == ToldDelivered {
      assert w.place[i] == Accepted(w.place[i].token, true);
      assert Event(w.place[i].token, i) in w.accepts;
    }
    forall j, k | 0 <= j < k < |w.accepts|
      ensures w.accepts[j].mail != w.accepts[k].mail
    {
      assert EventMails(w.accepts)[j] != EventMails(w.accepts)[k];
    }
  }

  // ---- ownership ---------------------------------------------------------------------------------

  /** Mail ownership. In every run, whatever is on a chain, in a queue or ever dialled belongs to
      the session that held its target id when it was pushed; so mail queued for a name while one
      session held it never reaches another session that takes the name later. */
  lemma MailStaysWithItsOwner(now: nat, run: seq<Action>)
    ensures var w := Run(Start0(now), run);
            && (forall r, k :: r in w.st.chains && 0 <= k < |w.st.chains[r].slots| ==>
                  OwnedBy(w, w.st.chains[r].slots[k].mail, w.st.chains[r].sessionId))
            && (forall h, k :: h in w.st.mailbox && 0 <= k < |w.st.mailbox[h]| ==>
                  OwnedBy(w, w.st.mailbox[h][k].mail, h.sessionId))
            && (forall r, k :: r in w.registrations && 0 <= k < |w.registrations[r].attempted| ==>
                  OwnedBy(w, w.registrations[r].attempted[k], w.registrations[r].sessionId))
  {
    InvInEveryRun(now, run);
    var w := Run(Start0(now), run);
    forall r, k | r in w.st.chains && 0 <= k < |w.st.chains[r].slots|
      ensures OwnedBy(w, w.st.chains[r].slots[k].mail, w.st.chains[r].sessionId)
    {
      SpotIsPlace(w, w.st.chains[r].slots[k].mail, OnChain(r, k));
      assert ChainFollowsPlan(w.st.chains[r], w.registrations[r]);
    }
    forall h, k | h in w.st.mailbox && 0 <= k < |w.st.mailbox[h]|
      ensures OwnedBy(w, w.st.mailbox[h][k].mail, h.sessionId)
    {
      SpotIsPlace(w, w.st.mailbox[h][k].mail, InQueue(h, k));
    }
    forall r, k | r in w.registrations && 0 <= k < |w.registrations[r].attempted|
      ensures OwnedBy(w, w.registrations[r].attempted[k], w.registrations[r].sessionId)
    {
      var g := w.registrations[r];
      assert InOrder(g);
      assert g.attempted[k] == g.plan[k] && g.plan[k] in g.plan;
    }
  }

  /** Every push in every run carries `from` equal to the id bound to the lease that presented it,
      whatever the request says about the sender. */
  lemma FromIsTheLeaseHolder(now: nat, run: seq<Action>, i: nat)
    requires i < |Run(Start0(now), run).pushes|
    ensures var w := Run(Start0(now), run);
            && w.pushes[i].lease in w.registrations
            && w.pushes[i].envelope.from == w.registrations[w.pushes[i].lease].participantId
  {
    InvInEveryRun(now, run);
  }
}
