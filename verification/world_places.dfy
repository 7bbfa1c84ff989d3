/** Conservation and ownership of mail, over every run of the broker. */
module WorldPlaces {
  import opened Sequences
  import opened BrokerModel
  import opened BrokerTables
  import opened World
  import opened WorldTables
  import opened WorldOrder

  /** `place` is right about the chains: exactly the mail it puts on chain `r` is there, once. */
  ghost predicate ChainPlaces(place: map<nat, Place>, chains: map<Token, Chain<nat>>) {
    && (forall r :: r in chains ==> Distinct(SlotMails(chains[r].slots)))
    && (forall r, i :: r in chains && i in SlotMails(chains[r].slots) ==> i in place && place[i] == InChain(r))
    && (forall i :: i in place && place[i].InChain? ==>
          place[i].token in chains && i in SlotMails(chains[place[i].token].slots))
  }

  /** And about the mailbox. */
  ghost predicate MailPlaces(place: map<nat, Place>, mailbox: map<SessionHash, seq<Entry<nat>>>) {
    && (forall h :: h in mailbox ==> Distinct(EntryMails(mailbox[h])))
    && (forall h, i :: h in mailbox && i in EntryMails(mailbox[h]) ==> i in place && place[i] == InMail(h))
    && (forall i :: i in place && place[i].InMail? ==>
          place[i].hash in mailbox && i in EntryMails(mailbox[place[i].hash]))
  }

  ghost predicate PlacesInv(w: World) {
    && (forall i: nat :: i in w.place <==> i < |w.pushes|)
    && ChainPlaces(w.place, w.st.chains)
    && MailPlaces(w.place, w.st.mailbox)
  }

  // ---- the time-to-live filter, seen as mail numbers -----------------------------------------

  lemma {:induction false} UnexpiredMails(q: seq<Entry<nat>>, now: nat)
    ensures forall i :: i in EntryMails(Unexpired(q, now)) ==> i in EntryMails(q)
    ensures Distinct(EntryMails(q)) ==> Distinct(EntryMails(Unexpired(q, now)))
  {
    if q != [] {
      var init, last := q[..|q| - 1], q[|q| - 1];
      UnexpiredMails(init, now);
      assert EntryMails(q) == EntryMails(init) + [last.mail];
      DistinctSnoc(EntryMails(init), last.mail);
      var kept := Unexpired(init, now);
      if IsFresh(last, now) {
        assert EntryMails(kept + [last]) == EntryMails(kept) + [last.mail];
        DistinctSnoc(EntryMails(kept), last.mail);
      }
    }
  }

  // ---- steps ----------------------------------------------------------------------------------

  lemma RegisterPlaces(w: World, w1: World, session: string, id: string, up: bool, slots: seq<Slot<nat>>)
    requires PlacesInv(w) && w.nextToken !in w.st.chains && w1.pushes == w.pushes
    requires SlotMails(slots) == Flushable(w, SessionHash(session))
    requires w1.st.chains == w.st.chains[w.nextToken := Chain(id, session, up, slots, false)]
    requires w1.st.mailbox == w.st.mailbox - {SessionHash(session)}
    requires w1.place == Drained(w.place, SessionHash(session), Flushable(w, SessionHash(session)),
             InChain(w.nextToken))
    ensures PlacesInv(w1)
  {
    var h := SessionHash(session);
    UnexpiredMails(Queue(w.st.mailbox, h), w.now);
    DrainedChains(w.place, w.st.chains, h, SlotMails(slots), w.nextToken, w1.st.chains);
    DrainedMail(w.place, w.st.mailbox, h, SlotMails(slots), w.nextToken);
  }

  lemma DrainedChains(place: map<nat, Place>, chains: map<Token, Chain<nat>>, h: SessionHash, kept: seq<nat>,
                      token: Token, chains1: map<Token, Chain<nat>>)
    requires ChainPlaces(place, chains) && token !in chains && Distinct(kept)
    requires forall i :: i in kept ==> i in place && place[i] == InMail(h)
    requires token in chains1 && chains1 == chains[token := chains1[token]] && SlotMails(chains1[token].slots) == kept
    ensures ChainPlaces(Drained(place, h, kept, InChain(token)), chains1)
  {
  }

  lemma DrainedMail(place: map<nat, Place>, mailbox: map<SessionHash, seq<Entry<nat>>>, h: SessionHash, kept: seq<nat>,
                    token: Token)
    requires MailPlaces(place, mailbox)
    ensures MailPlaces(Drained(place, h, kept, InChain(token)), mailbox - {h})
  {
  }

  lemma PushPlaces(w: World, lease: Token, envelope: Envelope, dest: Destination)
    requires PlacesInv(w) && (dest.Online? ==> dest.token in w.st.chains)
    ensures PlacesInv(AfterPush(w, lease, envelope, dest))
  {
    var w1 := AfterPush(w, lease, envelope, dest);
    var i := |w.pushes|;
    match dest
    case Online(r) =>
      AppendChain(w.place, w.st.chains, r, Live(envelope.to, i), i);
      OtherPlaceKeepsMail(w.place, w.st.mailbox, i, InChain(r));
    case Offline(session) =>
      OtherPlaceKeepsChains(w.place, w.st.chains, i, InMail(SessionHash(session)));
      AppendMail(w.place, w.st.mailbox, SessionHash(session), Entry(envelope.to, i, w.now), i);
    case Unknown =>
      OtherPlaceKeepsChains(w.place, w.st.chains, i, Refused);
      OtherPlaceKeepsMail(w.place, w.st.mailbox, i, Refused);
  }

  lemma AppendChain(place: map<nat, Place>, chains: map<Token, Chain<nat>>, r: Token, slot: Slot<nat>, i: nat)
    requires ChainPlaces(place, chains) && i !in place && r in chains && slot.mail == i
    ensures ChainPlaces(place[i := InChain(r)], chains[r := chains[r].(slots := chains[r].slots + [slot])])
  {
    assert SlotMails(chains[r].slots + [slot]) == SlotMails(chains[r].slots) + [i];
    DistinctSnoc(SlotMails(chains[r].slots), i);
  }

  lemma AppendMail(place: map<nat, Place>, mailbox: map<SessionHash, seq<Entry<nat>>>, h: SessionHash, e: Entry<nat>,
                   i: nat)
    requires MailPlaces(place, mailbox) && (i in place ==> !place[i].InMail?) && e.mail == i
    ensures MailPlaces(place[i := InMail(h)], mailbox[h := Queue(mailbox, h) + [e]])
  {
    assert EntryMails(Queue(mailbox, h) + [e]) == EntryMails(Queue(mailbox, h)) + [i];
    DistinctSnoc(EntryMails(Queue(mailbox, h)), i);
  }

  lemma OtherPlaceKeepsChains(place: map<nat, Place>, chains: map<Token, Chain<nat>>, i: nat, p: Place)
    requires ChainPlaces(place, chains) && (i in place ==> !place[i].InChain?) && !p.InChain?
    ensures ChainPlaces(place[i := p], chains)
  {
  }

  lemma OtherPlaceKeepsMail(place: map<nat, Place>, mailbox: map<SessionHash, seq<Entry<nat>>>, i: nat, p: Place)
    requires MailPlaces(place, mailbox) && (i in place ==> !place[i].InMail?) && !p.InMail?
    ensures MailPlaces(place[i := p], mailbox)
  {
  }

  /** The head leaves its chain for a place that is no chain. */
  lemma PopChain(place: map<nat, Place>, chains: map<Token, Chain<nat>>, r: Token, p: Place)
    requires ChainPlaces(place, chains) && r in chains && chains[r].slots != [] && !p.InChain?
    ensures var i := chains[r].slots[0].mail;
            && i in place && place[i] == InChain(r)
            && ChainPlaces(place[i := p], chains[r := chains[r].(slots := chains[r].slots[1..], inFlight := false)])
  {
    var c := chains[r];
    assert SlotMails(c.slots) == [c.slots[0].mail] + SlotMails(c.slots[1..]);
    DistinctCons(c.slots[0].mail, SlotMails(c.slots[1..]));
  }

  lemma CompletePlaces(w: World, r: Token, reply: bool)
    requires PlacesInv(w)
    ensures PlacesInv(CompleteStep(w, r, reply))
  {
    if CanComplete(w.st, r) && r in w.registrations {
      var c := w.st.chains[r];
      var accepted := reply && c.reachable;
      var head := c.slots[0];
      var h := SessionHash(c.sessionId);
      PopChain(w.place, w.st.chains, r, if accepted then Accepted(r, head.Live?) else InMail(h));
      if accepted {
        OtherPlaceKeepsMail(w.place, w.st.mailbox, head.mail, Accepted(r, head.Live?));
      } else {
        AppendMail(w.place, w.st.mailbox, h, Entry(head.to, head.mail, w.now), head.mail);
      }
      CompleteEffect(w, r, reply);
    }
  }

  /** The tables and the history after a settled forward, spelled out. */
  lemma CompleteEffect(w: World, r: Token, reply: bool)
    requires CanComplete(w.st, r) && r in w.registrations
    ensures var w1 := CompleteStep(w, r, reply);
            var c := w.st.chains[r];
            var accepted := reply && c.reachable;
            var i := c.slots[0].mail;
            var h := SessionHash(c.sessionId);
            && w1.place == w.place[i := if accepted then Accepted(r, c.slots[0].Live?) else InMail(h)]
            && w1.answers == (if c.slots[0].Live? then w.answers[i := if accepted then ToldDelivered else ToldQueued]
               else w.answers)
            && w1.accepts == (if accepted then w.accepts + [Event(r, i)] else w.accepts)
            && w1.pushes == w.pushes
            && w1.st.chains == w.st.chains[r := c.(slots := c.slots[1..], inFlight := false)]
            && w1.st.mailbox == if accepted then w.st.mailbox
                                else w.st.mailbox[h := Queue(w.st.mailbox, h) + [Entry(c.slots[0].to, i, w.now)]]
  {
  }

  lemma StartPlaces(w: World, r: Token)
    requires PlacesInv(w)
    ensures PlacesInv(StartStep(w, r))
  {
  }

  lemma PrunedChains(place: map<nat, Place>, st: State<nat>, now: nat, crash: bool)
    requires ChainPlaces(place, st.chains)
    ensures ChainPlaces(Pruned(place, st, now, crash), if crash then map[] else st.chains)
  {
  }

  lemma PrunedMail(place: map<nat, Place>, st: State<nat>, now: nat, crash: bool)
    requires MailPlaces(place, st.mailbox)
    ensures MailPlaces(Pruned(place, st, now, crash), PruneMailbox(st.mailbox, now))
  {
    forall h | h in st.mailbox
      ensures forall i :: i in EntryMails(Unexpired(st.mailbox[h], now)) ==> i in EntryMails(st.mailbox[h])
      ensures Distinct(EntryMails(Unexpired(st.mailbox[h], now)))
    {
      UnexpiredMails(st.mailbox[h], now);
    }
  }

  lemma RegisterStepPlaces(w: World, req: RegisterRequest)
    requires Inverse(w.st) && OneRecordPerSession(w.st) && TokensOk(w) && PlacesInv(w)
    ensures PlacesInv(RegisterStep(w, req))
  {
    RegisterEffect(w.st, w.now, w.nextToken, req);
    var (st, response) := Register(w.st, w.now, w.nextToken, req);
    if response.Registered? {
      AfterRegisterPlaces(w, req, st, response);
    }
  }

  lemma AfterRegisterPlaces(w: World, req: RegisterRequest, st: State<nat>, response: Response)
    requires TokensOk(w) && PlacesInv(w) && response.Registered?
    requires RegisterOutcome(w.st, st, response, w.now, w.nextToken, req)
    ensures PlacesInv(AfterRegister(w, req, st, response))
  {
    var p := Validate(req).value;
    var mail := Unexpired(Queue(w.st.mailbox, SessionHash(p.sessionId)), w.now);
    SlotMailsOfFlush(mail);
    RegisterPlaces(w, AfterRegister(w, req, st, response), p.sessionId, response.participantId,
                   Reachable(p.delivery), FlushSlots(mail));
  }

  lemma PushStepPlaces(w: World, req: PushRequest, nowIso: string)
    requires TokensOk(w) && PlacesInv(w)
    ensures PlacesInv(PushStep(w, req, nowIso))
  {
    var checked := CheckPush(w.st.participants, w.now, req);
    if checked.Success? {
      PushPlaces(w, req.lease, MakeEnvelope(checked.value, req, nowIso), Route(w.st, w.now, req.to.text));
    }
  }

  lemma StepKeepsPlaces(w: World, a: Action)
    requires Inverse(w.st) && OneRecordPerSession(w.st) && TokensOk(w) && PlacesInv(w)
    ensures PlacesInv(Step(w, a))
  {
    hide PlacesInv, RegisterStep, HeartbeatStep, UnregisterStep, PushStep, StartStep, CompleteStep, GcStep, CrashStep;
    match a
    case DoRegister(req) => RegisterStepPlaces(w, req);
    case DoHeartbeat(lease) =>
      HeartbeatRests(w, lease);
      SamePlaces(w, HeartbeatStep(w, lease));
    case DoUnregister(lease) =>
      UnregisterRests(w, lease);
      SamePlaces(w, UnregisterStep(w, lease));
    case DoPush(req, nowIso) => PushStepPlaces(w, req, nowIso);
    case DoStart(r) => StartPlaces(w, r);
    case DoComplete(r, accepted) => CompletePlaces(w, r, accepted);
    case DoGc => PrunePlaces(w);
    case Advance(ms) => SamePlaces(w, w.(now := w.now + ms));
    case Crash => CrashPlaces(w);
  }

  lemma SamePlaces(w: World, w1: World)
    requires PlacesInv(w) && w1.pushes == w.pushes && w1.place == w.place
    requires w1.st.chains == w.st.chains && w1.st.mailbox == w.st.mailbox
    ensures PlacesInv(w1)
  {
  }

  lemma PrunePlaces(w: World)
    requires PlacesInv(w)
    ensures PlacesInv(GcStep(w))
  {
    PrunedChains(w.place, w.st, w.now, false);
    PrunedMail(w.place, w.st, w.now, false);
    hide ChainPlaces, MailPlaces;
  }

  lemma CrashPlaces(w: World)
    requires PlacesInv(w)
    ensures PlacesInv(CrashStep(w))
  {
    PrunedChains(w.place, w.st, w.now, true);
    PrunedMail(w.place, w.st, w.now, true);
    hide ChainPlaces, MailPlaces;
  }

  // ---- answers and the accept log ---------------------------------------------------------------

  predicate IsFinal(p: Place) { p.Accepted? || p.Expired? || p.Refused? || p.Lost? }

  /** Nothing leaves a final place, and nothing is lost but in a crash. */
  ghost predicate FinalStays(place: map<nat, Place>, place1: map<nat, Place>, crash: bool) {
    forall i :: i in place ==>
      && i in place1
      && (IsFinal(place[i]) ==> place1[i] == place[i])
      && (place1[i].Lost? ==> place[i].Lost? || (crash && place[i].InChain?))
      && (place1[i].Refused? ==> place[i].Refused?)
  }

  /** A sender waits exactly while its push is a live slot; `delivered` is answered exactly when
      the adapter accepted the push's own forward, `failed` exactly when nobody held the id. */
  ghost predicate AnswersMatch(answers: map<nat, Answer>, place: map<nat, Place>, chains: map<Token, Chain<nat>>) {
    && (forall r, k :: r in chains && 0 <= k < |chains[r].slots| ==>
          (chains[r].slots[k].Live? <==> chains[r].slots[k].mail !in answers))
    && (forall i :: i in answers ==> i in place)
    && (forall i :: i in place && i !in answers ==> place[i].InChain? || place[i].Lost?)
    && (forall i :: i in answers ==>
          && (answers[i] == ToldDelivered <==> place[i].Accepted? && place[i].live)
          && (answers[i] == ToldFailed <==> place[i].Refused?))
  }

  function EventMails(log: seq<Event>): (r: seq<nat>)
    ensures |r| == |log|
  {
    seq(|log|, k requires 0 <= k < |log| => log[k].mail)
  }

  /** The accept log lists every accepted push once. */
  ghost predicate AcceptsMatch(accepts: seq<Event>, place: map<nat, Place>) {
    && Distinct(EventMails(accepts))
    && (forall e :: e in accepts ==> e.mail in place && place[e.mail].Accepted? && place[e.mail].token == e.token)
    && (forall i :: i in place && place[i].Accepted? ==> Event(place[i].token, i) in accepts)
  }

  ghost predicate AnswersInv(w: World) {
    AnswersMatch(w.answers, w.place, w.st.chains) && AcceptsMatch(w.accepts, w.place)
  }

  lemma RegisterAnswers(w: World, req: RegisterRequest, st: State<nat>, response: Response)
    requires TokensOk(w) && PlacesInv(w) && AnswersInv(w) && response.Registered?
    requires RegisterOutcome(w.st, st, response, w.now, w.nextToken, req)
    ensures AnswersInv(AfterRegister(w, req, st, response))
    ensures FinalStays(w.place, AfterRegister(w, req, st, response).place, false)
  {
    var p := Validate(req).value;
    var h := SessionHash(p.sessionId);
    var mail := Unexpired(Queue(w.st.mailbox, h), w.now);
    UnexpiredMails(Queue(w.st.mailbox, h), w.now);
    SlotMailsOfFlush(mail);
    forall k | 0 <= k < |mail|
      ensures mail[k].mail in w.place && w.place[mail[k].mail] == InMail(h)
    {
      assert EntryMails(mail)[k] in EntryMails(mail);
    }
    DrainedAnswers(w.answers, w.place, w.st.chains, h, FlushSlots(mail), w.nextToken, st.chains);
    DrainedAccepts(w.accepts, w.place, h, EntryMails(mail), w.nextToken);
  }

  lemma DrainedAnswers(answers: map<nat, Answer>, place: map<nat, Place>, chains: map<Token, Chain<nat>>,
                       h: SessionHash, slots: seq<Slot<nat>>, token: Token, chains1: map<Token, Chain<nat>>)
    requires AnswersMatch(answers, place, chains) && token !in chains
    requires forall k :: 0 <= k < |slots| ==>
             slots[k].Flushed? && slots[k].mail in place && place[slots[k].mail] == InMail(h)
    requires token in chains1 && chains1 == chains[token := chains1[token]] && chains1[token].slots == slots
    ensures AnswersMatch(answers, Drained(place, h, SlotMails(slots), InChain(token)), chains1)
    ensures FinalStays(place, Drained(place, h, SlotMails(slots), InChain(token)), false)
  {
  }

  lemma DrainedAccepts(accepts: seq<Event>, place: map<nat, Place>, h: SessionHash, kept: seq<nat>, token: Token)
    requires AcceptsMatch(accepts, place)
    ensures AcceptsMatch(accepts, Drained(place, h, kept, InChain(token)))
  {
  }

  lemma PushAnswers(w: World, lease: Token, envelope: Envelope, dest: Destination)
    requires PlacesInv(w) && AnswersInv(w) && (dest.Online? ==> dest.token in w.st.chains)
    ensures AnswersInv(AfterPush(w, lease, envelope, dest))
    ensures FinalStays(w.place, AfterPush(w, lease, envelope, dest).place, false)
  {
    var i := |w.pushes|;
    assert i !in w.place;
    match dest
    case Online(r) =>
      NewSlot(w.answers, w.place, w.st.chains, r, Live(envelope.to, i), i);
      NewPlaceAccepts(w.accepts, w.place, i, InChain(r));
    case Offline(session) =>
      NewAnswer(w.answers, w.place, w.st.chains, i, InMail(SessionHash(session)), ToldQueued);
      NewPlaceAccepts(w.accepts, w.place, i, InMail(SessionHash(session)));
    case Unknown =>
      NewAnswer(w.answers, w.place, w.st.chains, i, Refused, ToldFailed);
      NewPlaceAccepts(w.accepts, w.place, i, Refused);
  }

  /** A push whose sender waits at the end of a chain. */
  lemma NewSlot(answers: map<nat, Answer>, place: map<nat, Place>, chains: map<Token, Chain<nat>>, r: Token,
                slot: Slot<nat>, i: nat)
    requires AnswersMatch(answers, place, chains) && i !in place && r in chains && slot.Live? && slot.mail == i
    ensures AnswersMatch(answers, place[i := InChain(r)], chains[r := chains[r].(slots := chains[r].slots + [slot])])
  {
  }

  lemma NewPlaceAccepts(accepts: seq<Event>, place: map<nat, Place>, i: nat, p: Place)
    requires AcceptsMatch(accepts, place) && (i in place ==> !place[i].Accepted?) && !p.Accepted?
    ensures AcceptsMatch(accepts, place[i := p])
  {
  }

  /** A push that is answered at once, and is on no chain. */
  lemma NewAnswer(answers: map<nat, Answer>, place: map<nat, Place>, chains: map<Token, Chain<nat>>, i: nat, p: Place,
                  answer: Answer)
    requires AnswersMatch(answers, place, chains) && ChainPlaces(place, chains) && i !in place
    requires (p.InMail? && answer == ToldQueued) || (p.Refused? && answer == ToldFailed)
    ensures AnswersMatch(answers[i := answer], place[i := p], chains)
  {
    forall r, k | r in chains && 0 <= k < |chains[r].slots|
      ensures chains[r].slots[k].mail != i
    {
      assert SlotMails(chains[r].slots)[k] in SlotMails(chains[r].slots);
    }
  }

  lemma CompleteAnswers(w: World, r: Token, reply: bool)
    requires PlacesInv(w) && AnswersInv(w) && CanComplete(w.st, r) && r in w.registrations
    ensures AnswersInv(CompleteStep(w, r, reply))
    ensures FinalStays(w.place, CompleteStep(w, r, reply).place, false)
  {
    var c := w.st.chains[r];
    var accepted := reply && c.reachable;
    var head := c.slots[0];
    var p := if accepted then Accepted(r, head.Live?) else InMail(SessionHash(c.sessionId));
    PopChain(w.place, w.st.chains, r, p);
    HeadAnswer(w.answers, w.place, w.st.chains, r, p, if accepted then ToldDelivered else ToldQueued);
    if accepted {
      HeadAccepts(w.accepts, w.place, head.mail, p);
    } else {
      NewPlaceAccepts(w.accepts, w.place, head.mail, p);
    }
    CompleteEffect(w, r, reply);
  }

  lemma HeadAccepts(accepts: seq<Event>, place: map<nat, Place>, i: nat, p: Place)
    requires AcceptsMatch(accepts, place) && i in place && !place[i].Accepted? && p.Accepted?
    ensures AcceptsMatch(accepts + [Event(p.token, i)], place[i := p])
  {
    var log := accepts + [Event(p.token, i)];
    assert EventMails(log) == EventMails(accepts) + [i];
    forall k | 0 <= k < |accepts|
      ensures EventMails(accepts)[k] != i
    {
      assert accepts[k] in accepts;
    }
    DistinctSnoc(EventMails(accepts), i);
    assert log[|accepts|] == Event(p.token, i);
    assert forall e :: e in accepts ==> e in log;
  }

  lemma HeadAnswer(answers: map<nat, Answer>, place: map<nat, Place>, chains: map<Token, Chain<nat>>, r: Token,
                   p: Place, answer: Answer)
    requires AnswersMatch(answers, place, chains) && ChainPlaces(place, chains) && r in chains && chains[r].slots != []
    requires chains[r].slots[0].mail in place && place[chains[r].slots[0].mail] == InChain(r)
    requires if answer == ToldDelivered then p == Accepted(r, chains[r].slots[0].Live?)
             else p.InMail? && answer == ToldQueued
    ensures var head := chains[r].slots[0];
            AnswersMatch(if head.Live? then answers[head.mail := answer] else answers, place[head.mail := p],
                         chains[r := chains[r].(slots := chains[r].slots[1..], inFlight := false)])
  {
    var head := chains[r].slots[0];
    forall u, k | u in chains && 0 <= k < |chains[u].slots| && (u != r || k > 0)
      ensures chains[u].slots[k].mail != head.mail
    {
      assert SlotMails(chains[u].slots)[k] in SlotMails(chains[u].slots);
      assert u == r ==> SlotMails(chains[r].slots)[0] != SlotMails(chains[r].slots)[k];
    }
  }

  lemma PrunedAnswers(w: World, crash: bool)
    requires AnswersInv(w)
    ensures AnswersMatch(w.answers, Pruned(w.place, w.st, w.now, crash), if crash then map[] else w.st.chains)
    ensures AcceptsMatch(w.accepts, Pruned(w.place, w.st, w.now, crash))
    ensures FinalStays(w.place, Pruned(w.place, w.st, w.now, crash), crash)
  {
  }

  lemma RegisterStepAnswers(w: World, req: RegisterRequest)
    requires Inverse(w.st) && OneRecordPerSession(w.st) && TokensOk(w) && PlacesInv(w) && AnswersInv(w)
    ensures AnswersInv(RegisterStep(w, req)) && FinalStays(w.place, RegisterStep(w, req).place, false)
  {
    RegisterEffect(w.st, w.now, w.nextToken, req);
    var (st, response) := Register(w.st, w.now, w.nextToken, req);
    if response.Registered? {
      RegisterAnswers(w, req, st, response);
    }
  }

  lemma PushStepAnswers(w: World, req: PushRequest, nowIso: string)
    requires TokensOk(w) && PlacesInv(w) && AnswersInv(w)
    ensures AnswersInv(PushStep(w, req, nowIso)) && FinalStays(w.place, PushStep(w, req, nowIso).place, false)
  {
    var checked := CheckPush(w.st.participants, w.now, req);
    if checked.Success? {
      PushAnswers(w, req.lease, MakeEnvelope(checked.value, req, nowIso), Route(w.st, w.now, req.to.text));
    }
  }

  lemma StartAnswers(w: World, r: Token)
    requires AnswersInv(w)
    ensures AnswersInv(StartStep(w, r)) && FinalStays(w.place, StartStep(w, r).place, false)
  {
  }

  lemma GcAnswers(w: World)
    requires AnswersInv(w)
    ensures AnswersInv(GcStep(w)) && FinalStays(w.place, GcStep(w).place, false)
  {
    PrunedAnswers(w, false);
    hide AnswersMatch, AcceptsMatch, FinalStays;
  }

  lemma CrashAnswers(w: World)
    requires AnswersInv(w)
    ensures AnswersInv(CrashStep(w)) && FinalStays(w.place, CrashStep(w).place, true)
  {
    PrunedAnswers(w, true);
    hide AnswersMatch, AcceptsMatch, FinalStays;
  }

  lemma SameAnswersInv(w: World, w1: World, crash: bool)
    requires AnswersInv(w) && w1.place == w.place && w1.answers == w.answers && w1.accepts == w.accepts
    requires w1.st.chains == w.st.chains
    ensures AnswersInv(w1) && FinalStays(w.place, w1.place, crash)
  {
  }

  lemma CompleteStepAnswers(w: World, r: Token, reply: bool)
    requires PlacesInv(w) && AnswersInv(w)
    ensures AnswersInv(CompleteStep(w, r, reply)) && FinalStays(w.place, CompleteStep(w, r, reply).place, false)
  {
    hide PlacesInv, AnswersInv, FinalStays;
    if CanComplete(w.st, r) && r in w.registrations {
      CompleteAnswers(w, r, reply);
    } else {
      SameAnswersInv(w, w, false);
    }
  }

  lemma StepKeepsAnswers(w: World, a: Action)
    requires Inverse(w.st) && OneRecordPerSession(w.st) && TokensOk(w) && PlacesInv(w) && AnswersInv(w)
    ensures AnswersInv(Step(w, a)) && FinalStays(w.place, Step(w, a).place, a.Crash?)
  {
    hide PlacesInv, AnswersInv, FinalStays, RegisterStep, HeartbeatStep, UnregisterStep, PushStep, StartStep,
         CompleteStep, GcStep, CrashStep;
    match a
    case DoRegister(req) => RegisterStepAnswers(w, req);
    case DoHeartbeat(lease) =>
      HeartbeatRests(w, lease);
      SameAnswersInv(w, HeartbeatStep(w, lease), false);
    case DoUnregister(lease) =>
      UnregisterRests(w, lease);
      SameAnswersInv(w, UnregisterStep(w, lease), false);
    case DoPush(req, nowIso) => PushStepAnswers(w, req, nowIso);
    case DoStart(r) => StartAnswers(w, r);
    case DoComplete(r, accepted) => CompleteStepAnswers(w, r, accepted);
    case DoGc => GcAnswers(w);
    case Advance(ms) => SameAnswersInv(w, w.(now := w.now + ms), false);
    case Crash => CrashAnswers(w);
  }
}
