/** What the senders are told: the answers of the broker process, push by push, and the proof that
    World's record of answers is them. */
module BrokerAnswers {
  import opened Wrappers
  import opened BrokerModel
  import opened World
  import opened WorldTables
  import opened WorldOrder
  import opened WorldPlaces
  import opened WorldTheorems
  import opened BrokerRuns

  /** The senders' side of the process: how many pushes have passed validation, who waits for each link
      of each chain, and the answers given so far. */
  datatype Desk = Desk(count: nat, waiting: map<Token, seq<Option<nat>>>, answers: map<nat, Response>)

  function Nobody(n: nat): seq<Option<nat>> { seq(n, _ => None) }

  /** The answers are those of HandlePush and CompleteForward; `why` is the adapter's reason. */
  ghost function DeskStep(d: Desk, p: Process, a: Action, why: string): Desk {
    var s := p.tables;
    match a
    case DoRegister(req) =>
      var (s1, response) := Register(s, p.now, p.next, req);
      if response.Registered? && p.next in s1.chains
      then d.(waiting := d.waiting[p.next := Nobody(|s1.chains[p.next].slots|)])
      else d
    case DoPush(req, nowIso) =>
      (match CheckPush(s.participants, p.now, req)
       case Failure(_) => d
       case Success(from) => AfterRoute(d, from, Route(s, p.now, req.to.text)))
    case DoComplete(r, reply) =>
      if CanComplete(s, r) && r in d.waiting && d.waiting[r] != []
      then Answered(d, r, ForwardAnswer(s.chains[r].slots[0], reply && s.chains[r].reachable, why))
      else d
    case Crash => d.(waiting := map[])
    case _ => d
  }

  function AfterRoute(d: Desk, from: string, dest: Destination): Desk {
    var counted := d.(count := d.count + 1);
    match RouteAnswer(from, dest)
    case Some(response) => counted.(answers := d.answers[d.count := response])
    case None =>
      if dest.Online? && dest.token in d.waiting
      then counted.(waiting := d.waiting[dest.token := d.waiting[dest.token] + [Some(d.count)]])
      else counted
  }

  /** The first link of a chain has settled: whoever waits for it hears of it. */
  function Answered(d: Desk, r: Token, answer: Option<Response>): Desk
    requires r in d.waiting && d.waiting[r] != []
  {
    var head := d.waiting[r][0];
    d.(waiting := d.waiting[r := d.waiting[r][1..]],
       answers := if head.Some? && answer.Some? then d.answers[head.value := answer.value] else d.answers)
  }

  ghost function DeskRun(now: nat, run: seq<Action>, why: nat -> string): Desk {
    if run == [] then Desk(0, map[], map[])
    else
      var init := run[..|run| - 1];
      DeskStep(DeskRun(now, init, why), ProcessRun(now, init), run[|run| - 1], why(|init|))
  }

  /** Who waits for the links of a chain: the sender of each live push. */
  function Waiters(slots: seq<Slot<nat>>): (r: seq<Option<nat>>)
    ensures |r| == |slots|
  {
    seq(|slots|, k requires 0 <= k < |slots| => if slots[k].Live? then Some(slots[k].mail) else None)
  }

  predicate Shows(response: Response, answer: Answer, from: string) {
    match response
    case Delivered(f) => answer == ToldDelivered && f == from
    case Queued(f, _) => answer == ToldQueued && f == from
    case Failed(f, reason) => answer == ToldFailed && f == from && reason == "no_such_participant"
    case _ => false
  }

  ghost predicate WaitersAgree(waiting: map<Token, seq<Option<nat>>>, chains: map<Token, Chain<nat>>) {
    && (forall r :: r in waiting <==> r in chains)
    && (forall r :: r in chains ==> waiting[r] == Waiters(chains[r].slots))
  }

  ghost predicate AnswersAgree(given: map<nat, Response>, answers: map<nat, Answer>, pushes: seq<PushRecord>) {
    && (forall i :: i in given <==> i in answers)
    && (forall i :: i in given ==> i < |pushes| && Shows(given[i], answers[i], pushes[i].envelope.from))
  }

  ghost predicate DeskAgrees(d: Desk, w: World) {
    d.count == |w.pushes| && WaitersAgree(d.waiting, w.st.chains) && AnswersAgree(d.answers, w.answers, w.pushes)
  }

  // ---- the waiting senders, chain by chain -----------------------------------------------------------

  lemma ChainAdded(waiting: map<Token, seq<Option<nat>>>, chains: map<Token, Chain<nat>>, t: Token, c: Chain<nat>)
    requires WaitersAgree(waiting, chains) && forall k :: 0 <= k < |c.slots| ==> c.slots[k].Flushed?
    ensures WaitersAgree(waiting[t := Nobody(|c.slots|)], chains[t := c])
  {
    assert Nobody(|c.slots|) == Waiters(c.slots);
  }

  lemma LinkAdded(waiting: map<Token, seq<Option<nat>>>, chains: map<Token, Chain<nat>>, t: Token, to: string, i: nat)
    requires WaitersAgree(waiting, chains) && t in chains
    ensures t in waiting
    ensures WaitersAgree(waiting[t := waiting[t] + [Some(i)]],
                         chains[t := chains[t].(slots := chains[t].slots + [Live(to, i)])])
  {
    var slots := chains[t].slots;
    assert Waiters(slots + [Live(to, i)]) == Waiters(slots) + [Some(i)];
  }

  lemma LinkGone(waiting: map<Token, seq<Option<nat>>>, chains: map<Token, Chain<nat>>, t: Token, busy: bool)
    requires WaitersAgree(waiting, chains) && t in chains && chains[t].slots != []
    ensures t in waiting && waiting[t] != []
    ensures waiting[t][0] == if chains[t].slots[0].Live? then Some(chains[t].slots[0].mail) else None
    ensures WaitersAgree(waiting[t := waiting[t][1..]],
                         chains[t := chains[t].(slots := chains[t].slots[1..], inFlight := busy)])
  {
    assert Waiters(chains[t].slots[1..]) == Waiters(chains[t].slots)[1..];
  }

  lemma AnswerAdded(given: map<nat, Response>, answers: map<nat, Answer>, pushes: seq<PushRecord>, i: nat,
                    response: Response, answer: Answer)
    requires AnswersAgree(given, answers, pushes) && i < |pushes| && Shows(response, answer, pushes[i].envelope.from)
    ensures AnswersAgree(given[i := response], answers[i := answer], pushes)
  {
  }

  lemma PushAdded(given: map<nat, Response>, answers: map<nat, Answer>, pushes: seq<PushRecord>, p: PushRecord)
    requires AnswersAgree(given, answers, pushes)
    ensures AnswersAgree(given, answers, pushes + [p])
  {
  }

  // ---- the steps ---------------------------------------------------------------------------------------

  lemma RegisterGives(f: nat -> Envelope, d: Desk, w: World, req: RegisterRequest, why: string)
    requires var (st, response) := Register(w.st, w.now, w.nextToken, req);
             response.Registered? ==> w.nextToken in st.chains
    ensures var (st, response) := Register(w.st, w.now, w.nextToken, req);
            DeskStep(d, ToProcess(f, w), DoRegister(req), why)
            == if response.Registered?
               then d.(waiting := d.waiting[w.nextToken := Nobody(|st.chains[w.nextToken].slots|)])
               else d
  {
    RegisterRenders(f, w.st, w.now, w.nextToken, req);
  }

  lemma AfterRegisterDesk(d: Desk, w: World, req: RegisterRequest, st: State<nat>, response: Response)
    requires DeskAgrees(d, w) && RegisterOutcome(w.st, st, response, w.now, w.nextToken, req)
    ensures response.Registered? ==> w.nextToken in st.chains
    ensures DeskAgrees(if response.Registered?
                       then d.(waiting := d.waiting[w.nextToken := Nobody(|st.chains[w.nextToken].slots|)])
                       else d,
                       AfterRegister(w, req, st, response))
  {
    if response.Registered? {
      ChainAdded(d.waiting, w.st.chains, w.nextToken, st.chains[w.nextToken]);
    }
  }

  lemma RegisterDesk(f: nat -> Envelope, d: Desk, w: World, req: RegisterRequest, why: string)
    requires TablesInv(w) && DeskAgrees(d, w)
    ensures DeskAgrees(DeskStep(d, ToProcess(f, w), DoRegister(req), why), RegisterStep(w, req))
  {
    RegisterEffect(w.st, w.now, w.nextToken, req);
    var (st, response) := Register(w.st, w.now, w.nextToken, req);
    AfterRegisterDesk(d, w, req, st, response);
    RegisterGives(f, d, w, req, why);
  }

  lemma AfterPushDesk(d: Desk, w: World, lease: Token, envelope: Envelope, dest: Destination)
    requires DeskAgrees(d, w) && (dest.Online? ==> dest.token in w.st.chains)
    ensures DeskAgrees(AfterRoute(d, envelope.from, dest), AfterPush(w, lease, envelope, dest))
  {
    var w1 := AfterPush(w, lease, envelope, dest);
    var p := w1.pushes[|w.pushes|];
    assert w1.pushes == w.pushes + [p] && p.envelope == envelope;
    PushAdded(d.answers, w.answers, w.pushes, p);
    match dest
    case Online(t) => LinkAdded(d.waiting, w.st.chains, t, envelope.to, |w.pushes|);
    case Offline(_) =>
      AnswerAdded(d.answers, w.answers, w1.pushes, |w.pushes|, RouteAnswer(envelope.from, dest).value, ToldQueued);
    case Unknown =>
      AnswerAdded(d.answers, w.answers, w1.pushes, |w.pushes|, RouteAnswer(envelope.from, dest).value, ToldFailed);
  }

  lemma PushDesk(f: nat -> Envelope, d: Desk, w: World, req: PushRequest, nowIso: string, why: string)
    requires TokensOk(w) && DeskAgrees(d, w)
    ensures DeskAgrees(DeskStep(d, ToProcess(f, w), DoPush(req, nowIso), why), PushStep(w, req, nowIso))
  {
    var checked := CheckPush(w.st.participants, w.now, req);
    SameRoute(f, w.st, w.now, req.to);
    if checked.Success? {
      AfterPushDesk(d, w, req.lease, MakeEnvelope(checked.value, req, nowIso), Route(w.st, w.now, req.to.text));
    }
  }

  lemma SameRoute(f: nat -> Envelope, s: State<nat>, now: nat, to: Field)
    ensures Render(f, s).participants == s.participants
    ensures to.Text? ==> Route(Render(f, s), now, to.text) == Route(s, now, to.text)
  {
  }

  lemma HeadRendered(f: nat -> Envelope, s: State<nat>, r: Token)
    requires CanComplete(s, r)
    ensures CanComplete(Render(f, s), r) && Render(f, s).chains[r].reachable == s.chains[r].reachable
    ensures Render(f, s).chains[r].slots[0] == RenderSlot(f, s.chains[r].slots[0])
  {
  }

  /** The answer to the head link, seen from the sender. */
  lemma HeadAnswered(f: nat -> Envelope, head: Slot<nat>, accepted: bool, why: string, from: string)
    requires f(head.mail).from == from
    ensures var answer := ForwardAnswer(RenderSlot(f, head), accepted, why);
            && (head.Live? <==> answer.Some?)
            && (head.Live? ==> Shows(answer.value, if accepted then ToldDelivered else ToldQueued, from))
  {
  }

  lemma CompleteGives(f: nat -> Envelope, d: Desk, w: World, r: Token, reply: bool, why: string)
    requires CanComplete(w.st, r) && r in d.waiting && d.waiting[r] != []
    ensures DeskStep(d, ToProcess(f, w), DoComplete(r, reply), why)
            == Answered(d, r, ForwardAnswer(RenderSlot(f, w.st.chains[r].slots[0]),
                                         reply && w.st.chains[r].reachable, why))
  {
    hide Answered, ForwardAnswer, RenderSlot, RenderMailbox;
    HeadRendered(f, w.st, r);
  }

  lemma CompleteDesk(f: nat -> Envelope, d: Desk, w: World, r: Token, reply: bool, why: string)
    requires DeskAgrees(d, w) && CanComplete(w.st, r) && r in w.registrations
    requires var i := w.st.chains[r].slots[0].mail; i < |w.pushes| && f(i) == w.pushes[i].envelope
    ensures DeskAgrees(DeskStep(d, ToProcess(f, w), DoComplete(r, reply), why), CompleteStep(w, r, reply))
  {
    hide WaitersAgree, AnswersAgree, Shows, ForwardAnswer, RenderSlot, DeskStep, ToProcess, CompleteStep;
    var head := w.st.chains[r].slots[0];
    var accepted := reply && w.st.chains[r].reachable;
    LinkGone(d.waiting, w.st.chains, r, false);
    CompleteGives(f, d, w, r, reply, why);
    CompleteEffect(w, r, reply);
    HeadAnswered(f, head, accepted, why, w.pushes[head.mail].envelope.from);
    if head.Live? {
      AnswerAdded(d.answers, w.answers, w.pushes, head.mail, ForwardAnswer(RenderSlot(f, head), accepted, why).value,
                  if accepted then ToldDelivered else ToldQueued);
    }
    CompleteDeskParts(d, w, CompleteStep(w, r, reply), r, ForwardAnswer(RenderSlot(f, head), accepted, why));
  }

  lemma CompleteDeskParts(d: Desk, w: World, w1: World, r: Token, answer: Option<Response>)
    requires r in d.waiting && d.waiting[r] != [] && w1.pushes == w.pushes && d.count == |w.pushes|
    requires WaitersAgree(d.waiting[r := d.waiting[r][1..]], w1.st.chains)
    requires AnswersAgree(Answered(d, r, answer).answers, w1.answers, w1.pushes)
    ensures DeskAgrees(Answered(d, r, answer), w1)
  {
  }

  lemma NothingCompletes(f: nat -> Envelope, d: Desk, w: World, r: Token, reply: bool, why: string)
    requires DeskAgrees(d, w) && !CanComplete(w.st, r)
    ensures DeskStep(d, ToProcess(f, w), DoComplete(r, reply), why) == d && CompleteStep(w, r, reply) == w
  {
  }

  lemma StartDesk(d: Desk, w: World, r: Token)
    requires DeskAgrees(d, w)
    ensures DeskAgrees(d, StartStep(w, r))
  {
  }

  lemma QuietDesk(d: Desk, w: World, a: Action)
    requires a.DoHeartbeat? || a.DoUnregister? || a.DoGc? || a.Advance? || a.Crash?
    requires DeskAgrees(d, w)
    ensures DeskAgrees(if a.Crash? then d.(waiting := map[]) else d, Step(w, a))
  {
    QuietSteps(w, a);
  }

  lemma CompleteStepDesk(f: nat -> Envelope, d: Desk, w: World, r: Token, reply: bool, why: string)
    requires PlacesInv(w) && TokensOk(w) && DeskAgrees(d, w) && Names(f, w)
    ensures DeskAgrees(DeskStep(d, ToProcess(f, w), DoComplete(r, reply), why), CompleteStep(w, r, reply))
  {
    hide DeskAgrees, DeskStep, ToProcess, CompleteStep, PlacesInv;
    if CanComplete(w.st, r) {
      HeadIsPush(w, r);
      CompleteDesk(f, d, w, r, reply, why);
    } else {
      NothingCompletes(f, d, w, r, reply, why);
    }
  }

  /** Other steps say nothing to a sender; a crash leaves nobody waiting. */
  lemma QuietGives(f: nat -> Envelope, d: Desk, w: World, a: Action, why: string)
    requires !a.DoRegister? && !a.DoPush? && !a.DoComplete?
    ensures DeskStep(d, ToProcess(f, w), a, why) == if a.Crash? then d.(waiting := map[]) else d
  {
    hide ToProcess;
  }

  lemma StepKeepsDesk(f: nat -> Envelope, d: Desk, w: World, a: Action, why: string)
    requires TablesInv(w) && PlacesInv(w) && DeskAgrees(d, w) && Names(f, w)
    ensures DeskAgrees(DeskStep(d, ToProcess(f, w), a, why), Step(w, a))
  {
    hide DeskAgrees, DeskStep, ToProcess, PlacesInv, TokensOk, Names, RegisterStep, HeartbeatStep, UnregisterStep,
         PushStep, StartStep, CompleteStep, GcStep, CrashStep;
    match a
    case DoRegister(req) => RegisterDesk(f, d, w, req, why);
    case DoPush(req, nowIso) => PushDesk(f, d, w, req, nowIso, why);
    case DoComplete(r, reply) => CompleteStepDesk(f, d, w, r, reply, why);
    case DoStart(r) =>
      QuietGives(f, d, w, a, why);
      StartDesk(d, w, r);
    case _ =>
      QuietGives(f, d, w, a, why);
      QuietDesk(d, w, a);
  }

  lemma HeadIsPush(w: World, r: Token)
    requires PlacesInv(w) && CanComplete(w.st, r)
    ensures w.st.chains[r].slots[0].mail < |w.pushes|
  {
    var i := w.st.chains[r].slots[0].mail;
    assert SlotMails(w.st.chains[r].slots)[0] == i;
    assert i in w.place;
  }

  lemma {:induction false} DeskInEveryRun(f: nat -> Envelope, now: nat, run: seq<Action>, why: nat -> string)
    requires Names(f, Run(Start0(now), run))
    ensures DeskAgrees(DeskRun(now, run, why), Run(Start0(now), run))
  {
    hide DeskAgrees, DeskStep, ToProcess, ProcessRun, Names, Step, TablesInv, PlacesInv, OrderInv, AnswersInv,
         OwnersInv;
    if run == [] {
      DeskAtStart(now);
    } else {
      var init := run[..|run| - 1];
      var w := Run(Start0(now), init);
      InvInEveryRun(now, init);
      TablesHaveTokens(w);
      PushesGrow(w, run[|run| - 1]);
      EarlierNames(f, w, Run(Start0(now), run));
      DeskInEveryRun(f, now, init, why);
      WorldIsTheBroker(f, now, init);
      StepKeepsDesk(f, DeskRun(now, init, why), w, run[|run| - 1], why(|init|));
    }
  }

  lemma DeskAtStart(now: nat)
    ensures DeskAgrees(Desk(0, map[], map[]), Start0(now))
  {
  }

  /** World's answers are the broker's: in every run, whatever reasons the adapters give, a push has an
      answer in World exactly when the process has given its sender one, and it is that one. */
  lemma AnswersAreTheBrokers(f: nat -> Envelope, now: nat, run: seq<Action>, why: nat -> string)
    requires Names(f, Run(Start0(now), run))
    ensures var w := Run(Start0(now), run); var given := DeskRun(now, run, why).answers;
            && (forall i :: i in given <==> i in w.answers)
            && (forall i :: i in given ==> i < |w.pushes| && Shows(given[i], w.answers[i], w.pushes[i].envelope.from))
  {
    hide Run, DeskRun, Shows, Names;
    DeskInEveryRun(f, now, run, why);
  }
}
