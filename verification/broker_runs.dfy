/** The real broker, step by step on real envelopes, and the proof that World describes it: put
    each number's envelope back and the two are the same in every run. */
module BrokerRuns {
  import opened Identity
  import opened BrokerModel
  import opened World
  import opened WorldTables
  import opened WorldTheorems

  /** The broker process as the methods of class Broker move it. */
  datatype Process = Process(tables: State<Envelope>, now: nat, next: Token)

  ghost function ProcessStep(p: Process, a: Action): Process {
    var s := p.tables;
    match a
    case DoRegister(req) =>
      var (s1, response) := Register(s, p.now, p.next, req);
      Process(s1, p.now, if response.Registered? then p.next + 1 else p.next)
    case DoHeartbeat(lease) => p.(tables := Heartbeat(s, p.now, lease).0)
    case DoUnregister(lease) => p.(tables := Unregister(s, p.now, lease).0)
    case DoPush(req, nowIso) =>
      (match CheckPush(s.participants, p.now, req)
       case Failure(_) => p
       case Success(from) =>
         p.(tables := Dispatch(s, p.now, req.to.text, MakeEnvelope(from, req, nowIso), Route(s, p.now, req.to.text))))
    case DoStart(r) => if CanStart(s, r) then p.(tables := Start(s, r)) else p
    case DoComplete(r, reply) =>
      if CanComplete(s, r) then p.(tables := Complete(s, p.now, r, reply && s.chains[r].reachable)) else p
    case DoGc => p.(tables := GcTick(s, p.now))
    case Advance(ms) => p.(now := p.now + ms)
    case Crash => p.(tables := Reload(s, p.now))
  }

  ghost function ProcessRun(now: nat, run: seq<Action>): Process {
    if run == [] then Process(Init(), now, 0)
    else ProcessStep(ProcessRun(now, run[..|run| - 1]), run[|run| - 1])
  }

  // ---- putting the envelopes back ---------------------------------------------------------------

  function RenderQueue(f: nat -> Envelope, q: seq<Entry<nat>>): (r: seq<Entry<Envelope>>)
    ensures |r| == |q|
  {
    seq(|q|, k requires 0 <= k < |q| => Entry(q[k].participantId, f(q[k].mail), q[k].queuedAt))
  }

  function RenderSlot(f: nat -> Envelope, s: Slot<nat>): Slot<Envelope> {
    match s
    case Live(to, i) => Live(to, f(i))
    case Flushed(to, i) => Flushed(to, f(i))
  }

  function RenderChain(f: nat -> Envelope, c: Chain<nat>): Chain<Envelope> {
    Chain(c.participantId, c.sessionId, c.reachable,
          seq(|c.slots|, k requires 0 <= k < |c.slots| => RenderSlot(f, c.slots[k])), c.inFlight)
  }

  function RenderMailbox(f: nat -> Envelope, mailbox: map<SessionHash, seq<Entry<nat>>>)
    : map<SessionHash, seq<Entry<Envelope>>> {
    map h | h in mailbox :: RenderQueue(f, mailbox[h])
  }

  function RenderChains(f: nat -> Envelope, chains: map<Token, Chain<nat>>): map<Token, Chain<Envelope>> {
    map r | r in chains :: RenderChain(f, chains[r])
  }

  function Render(f: nat -> Envelope, s: State<nat>): State<Envelope> {
    State(s.participants, s.byId, s.recent, RenderMailbox(f, s.mailbox), RenderChains(f, s.chains))
  }

  lemma {:induction false} UnexpiredRenders(f: nat -> Envelope, q: seq<Entry<nat>>, now: nat)
    ensures Unexpired(RenderQueue(f, q), now) == RenderQueue(f, Unexpired(q, now))
  {
    if q != [] {
      UnexpiredRenders(f, q[..|q| - 1], now);
      assert RenderQueue(f, q)[..|q| - 1] == RenderQueue(f, q[..|q| - 1]);
    }
  }

  lemma EnqueueRenders(f: nat -> Envelope, mailbox: map<SessionHash, seq<Entry<nat>>>, h: SessionHash, id: string,
                       i: nat, now: nat)
    ensures RenderMailbox(f, mailbox[h := Queue(mailbox, h) + [Entry(id, i, now)]])
         == RenderMailbox(f, mailbox)[h := Queue(RenderMailbox(f, mailbox), h) + [Entry(id, f(i), now)]]
  {
    var q := Queue(mailbox, h);
    assert RenderQueue(f, q + [Entry(id, i, now)]) == RenderQueue(f, q) + [Entry(id, f(i), now)];
    assert Queue(RenderMailbox(f, mailbox), h) == RenderQueue(f, q);
  }

  lemma FlushRenders(f: nat -> Envelope, id: string, session: string, up: bool, q: seq<Entry<nat>>)
    ensures RenderChain(f, Chain(id, session, up, FlushSlots(q), false))
         == Chain(id, session, up, FlushSlots(RenderQueue(f, q)), false)
  {
  }

  lemma MailboxRenders(f: nat -> Envelope, mailbox: map<SessionHash, seq<Entry<nat>>>, h: SessionHash)
    ensures Queue(RenderMailbox(f, mailbox), h) == RenderQueue(f, Queue(mailbox, h))
    ensures RenderMailbox(f, mailbox - {h}) == RenderMailbox(f, mailbox) - {h}
  {
  }

  lemma ChainsRender(f: nat -> Envelope, chains: map<Token, Chain<nat>>, t: Token, c: Chain<nat>)
    ensures RenderChains(f, chains[t := c]) == RenderChains(f, chains)[t := RenderChain(f, c)]
  {
  }

  lemma InstallRenders(f: nat -> Envelope, s: State<nat>, now: nat, token: Token, p: Profile, id: string,
                       reclaimed: bool)
    ensures Install(Render(f, s), now, token, p, id, reclaimed).0
            == Render(f, Install(s, now, token, p, id, reclaimed).0)
    ensures Install(Render(f, s), now, token, p, id, reclaimed).1 == Install(s, now, token, p, id, reclaimed).1
  {
    hide RenderMailbox, RenderChains, RenderChain, RenderQueue, Unexpired, FlushSlots, Queue, Reachable, NewRecord;
    var h := SessionHash(p.sessionId);
    var mail := Unexpired(Queue(s.mailbox, h), now);
    UnexpiredRenders(f, Queue(s.mailbox, h), now);
    MailboxRenders(f, s.mailbox, h);
    FlushRenders(f, id, p.sessionId, Reachable(p.delivery), mail);
    ChainsRender(f, s.chains, token, Chain(id, p.sessionId, Reachable(p.delivery), FlushSlots(mail), false));
  }

  lemma ReclaimRenders(f: nat -> Envelope, s: State<nat>, now: nat, token: Token, p: Profile, t: Token)
    requires t in s.participants
    ensures Reclaim(Render(f, s), now, token, p, t).0 == Render(f, Reclaim(s, now, token, p, t).0)
    ensures Reclaim(Render(f, s), now, token, p, t).1 == Reclaim(s, now, token, p, t).1
  {
    hide Install, RenderMailbox, RenderChains;
    var prior := s.participants[t];
    var cleared := s.(participants := s.participants - {t}, byId := s.byId - {prior.participantId});
    var id := p.name.GetOr(prior.participantId);
    InstallRenders(f, cleared, now, token, p, id, id == prior.participantId);
  }

  lemma EnrollRenders(f: nat -> Envelope, s: State<nat>, now: nat, token: Token, p: Profile)
    ensures Enroll(Render(f, s), now, token, p).0 == Render(f, Enroll(s, now, token, p).0)
    ensures Enroll(Render(f, s), now, token, p).1 == Enroll(s, now, token, p).1
  {
    hide Install, RenderMailbox, RenderChains, BuildParticipantId;
    var choice := if p.name.Some? then p.name else BuildParticipantId(s.byId.Keys, p.kind, p.short);
    if choice.Some? {
      InstallRenders(f, s, now, token, p, choice.value, false);
    }
  }

  lemma RegisterRenders(f: nat -> Envelope, s: State<nat>, now: nat, token: Token, req: RegisterRequest)
    ensures Register(Render(f, s), now, token, req).0 == Render(f, Register(s, now, token, req).0)
    ensures Register(Render(f, s), now, token, req).1 == Register(s, now, token, req).1
  {
    hide Reclaim, Enroll, Validate, RenderMailbox, RenderChains;
    if Validate(req).Success? {
      var p := Validate(req).value;
      match FindBySession(s.participants, p.sessionId)
      case Some(t) => ReclaimRenders(f, s, now, token, p, t);
      case None => EnrollRenders(f, s, now, token, p);
    }
  }

  lemma DispatchRenders(f: nat -> Envelope, s: State<nat>, now: nat, to: string, i: nat, dest: Destination)
    ensures Dispatch(Render(f, s), now, to, f(i), dest) == Render(f, Dispatch(s, now, to, i, dest))
    ensures Route(Render(f, s), now, to) == Route(s, now, to)
  {
    match dest
    case Online(t) =>
      if t in s.chains {
        var c := s.chains[t].(slots := s.chains[t].slots + [Live(to, i)]);
        assert RenderChain(f, c) == RenderChain(f, s.chains[t])
               .(slots := RenderChain(f, s.chains[t]).slots + [Live(to, f(i))]);
        assert RenderChains(f, s.chains[t := c]) == RenderChains(f, s.chains)[t := RenderChain(f, c)];
      }
    case Offline(session) => EnqueueRenders(f, s.mailbox, SessionHash(session), to, i, now);
    case Unknown =>
  }

  lemma CompleteRenders(f: nat -> Envelope, s: State<nat>, now: nat, r: Token, accepted: bool)
    requires CanComplete(s, r)
    ensures CanComplete(Render(f, s), r)
    ensures Complete(Render(f, s), now, r, accepted) == Render(f, Complete(s, now, r, accepted))
  {
    var c := s.chains[r];
    var c1 := c.(slots := c.slots[1..], inFlight := false);
    assert RenderChain(f, c1) == RenderChain(f, c).(slots := RenderChain(f, c).slots[1..], inFlight := false);
    assert RenderChains(f, s.chains[r := c1]) == RenderChains(f, s.chains)[r := RenderChain(f, c1)];
    EnqueueRenders(f, s.mailbox, SessionHash(c.sessionId), c.slots[0].to, c.slots[0].mail, now);
  }

  lemma StartRenders(f: nat -> Envelope, s: State<nat>, r: Token)
    ensures CanStart(Render(f, s), r) <==> CanStart(s, r)
    ensures CanStart(s, r) ==> Start(Render(f, s), r) == Render(f, Start(s, r))
  {
    if CanStart(s, r) {
      var c := s.chains[r].(inFlight := true);
      assert RenderChains(f, s.chains[r := c]) == RenderChains(f, s.chains)[r := RenderChain(f, c)];
    }
  }

  lemma PruneRenders(f: nat -> Envelope, mailbox: map<SessionHash, seq<Entry<nat>>>, now: nat)
    ensures PruneMailbox(RenderMailbox(f, mailbox), now) == RenderMailbox(f, PruneMailbox(mailbox, now))
  {
    forall h | h in mailbox
      ensures Unexpired(RenderMailbox(f, mailbox)[h], now) == RenderQueue(f, Unexpired(mailbox[h], now))
    {
      UnexpiredRenders(f, mailbox[h], now);
    }
  }

  /** `f` gives every push made so far its envelope. */
  ghost predicate Names(f: nat -> Envelope, w: World) {
    forall i :: 0 <= i < |w.pushes| ==> f(i) == w.pushes[i].envelope
  }

  ghost function ToProcess(f: nat -> Envelope, w: World): Process {
    Process(Render(f, w.st), w.now, w.nextToken)
  }

  lemma RegisterStepRenders(f: nat -> Envelope, w: World, req: RegisterRequest)
    ensures ToProcess(f, RegisterStep(w, req)) == ProcessStep(ToProcess(f, w), DoRegister(req))
  {
    RegisterRenders(f, w.st, w.now, w.nextToken, req);
  }

  lemma PushStepRenders(f: nat -> Envelope, w: World, req: PushRequest, nowIso: string)
    requires Names(f, PushStep(w, req, nowIso))
    ensures ToProcess(f, PushStep(w, req, nowIso)) == ProcessStep(ToProcess(f, w), DoPush(req, nowIso))
  {
    var checked := CheckPush(w.st.participants, w.now, req);
    if checked.Success? {
      var envelope := MakeEnvelope(checked.value, req, nowIso);
      var dest := Route(w.st, w.now, req.to.text);
      PushNames(f, w, req.lease, envelope, dest);
      DispatchRenders(f, w.st, w.now, req.to.text, |w.pushes|, dest);
    }
  }

  lemma PushNames(f: nat -> Envelope, w: World, lease: Token, envelope: Envelope, dest: Destination)
    requires Names(f, AfterPush(w, lease, envelope, dest))
    ensures f(|w.pushes|) == envelope
    ensures AfterPush(w, lease, envelope, dest).st == Dispatch(w.st, w.now, envelope.to, |w.pushes|, dest)
    ensures var w1 := AfterPush(w, lease, envelope, dest); w1.now == w.now && w1.nextToken == w.nextToken
  {
    var w1 := AfterPush(w, lease, envelope, dest);
    assert w1.pushes[|w.pushes|].envelope == envelope;
  }

  lemma CompleteStepRenders(f: nat -> Envelope, w: World, r: Token, reply: bool)
    requires TokensOk(w)
    ensures ToProcess(f, CompleteStep(w, r, reply)) == ProcessStep(ToProcess(f, w), DoComplete(r, reply))
  {
    hide RenderMailbox, Complete;
    if CanComplete(w.st, r) {
      CompleteRenders(f, w.st, w.now, r, reply && w.st.chains[r].reachable);
    }
  }

  lemma HeartbeatStepRenders(f: nat -> Envelope, w: World, lease: Token)
    ensures ToProcess(f, HeartbeatStep(w, lease)) == ProcessStep(ToProcess(f, w), DoHeartbeat(lease))
  {
    hide RenderMailbox, RenderChains;
    HeartbeatRests(w, lease);
  }

  lemma UnregisterStepRenders(f: nat -> Envelope, w: World, lease: Token)
    ensures ToProcess(f, UnregisterStep(w, lease)) == ProcessStep(ToProcess(f, w), DoUnregister(lease))
  {
    hide RenderMailbox, RenderChains;
    UnregisterRests(w, lease);
  }

  lemma StartStepRenders(f: nat -> Envelope, w: World, r: Token)
    requires TokensOk(w)
    ensures ToProcess(f, StartStep(w, r)) == ProcessStep(ToProcess(f, w), DoStart(r))
  {
    StartRenders(f, w.st, r);
    hide RenderMailbox, RenderChains;
  }

  lemma GcStepRenders(f: nat -> Envelope, w: World)
    ensures ToProcess(f, GcStep(w)) == ProcessStep(ToProcess(f, w), DoGc)
  {
    hide RenderMailbox, RenderChains, PruneMailbox, KeptRecords, KeptIds, KeptRecent, Pruned;
    PruneRenders(f, w.st.mailbox, w.now);
  }

  lemma CrashStepRenders(f: nat -> Envelope, w: World)
    ensures ToProcess(f, CrashStep(w)) == ProcessStep(ToProcess(f, w), Crash)
  {
    hide RenderMailbox, PruneMailbox, Pruned;
    PruneRenders(f, w.st.mailbox, w.now);
  }

  lemma AdvanceRenders(f: nat -> Envelope, w: World, ms: nat)
    ensures ToProcess(f, w.(now := w.now + ms)) == ProcessStep(ToProcess(f, w), Advance(ms))
  {
    hide Render;
  }

  lemma StepRenders(f: nat -> Envelope, w: World, a: Action)
    requires TokensOk(w) && Names(f, Step(w, a))
    ensures ToProcess(f, Step(w, a)) == ProcessStep(ToProcess(f, w), a)
  {
    hide ToProcess, ProcessStep, Names, RegisterStep, HeartbeatStep, UnregisterStep, PushStep, StartStep, CompleteStep,
         GcStep, CrashStep;
    match a
    case DoRegister(req) => RegisterStepRenders(f, w, req);
    case DoHeartbeat(lease) => HeartbeatStepRenders(f, w, lease);
    case DoUnregister(lease) => UnregisterStepRenders(f, w, lease);
    case DoPush(req, nowIso) => PushStepRenders(f, w, req, nowIso);
    case DoStart(r) => StartStepRenders(f, w, r);
    case DoComplete(r, reply) => CompleteStepRenders(f, w, r, reply);
    case DoGc => GcStepRenders(f, w);
    case Advance(ms) => AdvanceRenders(f, w, ms);
    case Crash => CrashStepRenders(f, w);
  }

  lemma EarlierNames(f: nat -> Envelope, w: World, w1: World)
    requires Names(f, w1) && w.pushes <= w1.pushes
    ensures Names(f, w)
  {
  }

  /** The numbered machine is the broker: for every run, the tables of World with every number
      replaced by its envelope are the tables of the process, with the same clock and tokens. */
  lemma {:induction false} WorldIsTheBroker(f: nat -> Envelope, now: nat, run: seq<Action>)
    requires Names(f, Run(Start0(now), run))
    ensures ToProcess(f, Run(Start0(now), run)) == ProcessRun(now, run)
  {
    hide ToProcess, ProcessStep, Names, Step, TablesInv, Extends;
    if run == [] {
      StartRendered(f, now);
    } else {
      var init := run[..|run| - 1];
      var w := Run(Start0(now), init);
      TablesAgreeInEveryRun(now, init);
      TablesHaveTokens(w);
      PushesGrow(w, run[|run| - 1]);
      EarlierNames(f, w, Run(Start0(now), run));
      WorldIsTheBroker(f, now, init);
      StepRenders(f, w, run[|run| - 1]);
    }
  }

  lemma StartRendered(f: nat -> Envelope, now: nat)
    ensures ToProcess(f, Start0(now)) == Process(Init(), now, 0)
  {
  }

  lemma TablesHaveTokens(w: World)
    requires TablesInv(w)
    ensures TokensOk(w)
  {
  }

  lemma PushesGrow(w: World, a: Action)
    requires TokensOk(w)
    ensures w.pushes <= Step(w, a).pushes
  {
    hide Step, TokensOk;
    StepExtends(w, a);
  }
}
