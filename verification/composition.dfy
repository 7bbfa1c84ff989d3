/** The broker composed with the PTY sidecars behind its delivery sockets, one per session. A
    forward puts a frame on the wire; the sidecar may read it at any later time or never, also
    after the broker has given it up as timed out and queued the message again. */
module Composition {
  import opened Wrappers
  import opened Sequences
  import opened Identity
  import opened BrokerModel
  import opened BrokerTables
  import opened World
  import opened WorldTables
  import opened WorldOrder
  import opened WorldPlaces
  import opened WorldTheorems
  import D = Dedupe
  import S = Sidecar
  import Z = Sanitizer

  /** One forward on the wire. `accepted`: the sidecar has read it and answered `accepted`. */
  datatype Frame = Frame(token: Token, mail: nat, read: bool, accepted: bool)

  /** A message that passed the dedupe window; `whole`: its line was typed to the end. */
  datatype Admission = Admission(mail: nat, id: string, whole: bool)

  /** One life of a sidecar process: its dedupe queries and what they let through. */
  datatype Adapter = Adapter(calls: seq<string>, admitted: seq<Admission>)

  datatype Typing = Typing(session: string, mail: nat, line: string)

  datatype System = System(w: World, frames: seq<Frame>, dialled: map<Token, nat>,
                           adapters: map<string, Adapter>, typings: seq<Typing>)

  datatype Move =
    | Broker(a: Action)
    | Read(frame: nat, authorized: bool, failAt: Option<nat>)
    | Restart(session: string)

  function System0(now: nat): System { System(Start0(now), [], map[], map[], []) }

  function AdapterOf(s: System, session: string): Adapter {
    if session in s.adapters then s.adapters[session] else Adapter([], [])
  }

  function RequestOf(e: Envelope, authorized: bool): S.DeliverRequest {
    S.DeliverRequest(authorized, BrokerModel.Text(e.id), BrokerModel.Text(e.body), Some(e.from), Some(e.sentAt))
  }

  /** The sidecar has accepted the frame that registration `r` waits for. */
  predicate Replied(s: System, r: Token) {
    r in s.dialled && s.dialled[r] < |s.frames| && s.frames[s.dialled[r]].accepted
  }

  /** The broker sees `accepted` only when the sidecar said so; it may see a failure at any time. */
  function Seen(s: System, a: Action): Action {
    match a
    case DoComplete(r, accepted) => DoComplete(r, accepted && Replied(s, r))
    case _ => a
  }

  ghost function BrokerMove(s: System, a: Action): System {
    var w := s.w;
    var moved := s.(w := Step(w, Seen(s, a)));
    if a.DoStart? && CanStart(w.st, a.token) && a.token in w.registrations && w.st.chains[a.token].reachable
    then moved.(frames := s.frames + [Frame(a.token, w.st.chains[a.token].slots[0].mail, false, false)],
                dialled := s.dialled[a.token := |s.frames|])
    else moved
  }

  function Admitted(ad: Adapter, mail: nat, req: S.DeliverRequest, reply: S.Reply): seq<Admission> {
    if reply.AcceptedReply? || reply == S.Rejected("write_error")
    then ad.admitted + [Admission(mail, TextOf(req.id), reply.AcceptedReply?)]
    else ad.admitted
  }

  /** The sidecar of the session handles one frame. */
  function ReadMove(s: System, f: nat, authorized: bool, failAt: Option<nat>): System {
    if !(f < |s.frames| && !s.frames[f].read && s.frames[f].token in s.w.registrations
         && s.frames[f].mail < |s.w.pushes|)
    then s
    else
      var frame := s.frames[f];
      var session := s.w.registrations[frame.token].sessionId;
      var ad := AdapterOf(s, session);
      var req := RequestOf(s.w.pushes[frame.mail].envelope, authorized);
      var reply := S.ReplyTo(ad.calls, req, failAt);
      s.(frames := s.frames[f := frame.(read := true, accepted := reply.AcceptedReply?)],
         adapters := s.adapters[session :=
           Adapter(ad.calls + (if S.Queries(req) then [TextOf(req.id)] else []),
                   Admitted(ad, frame.mail, req, reply))],
         typings := if reply.AcceptedReply? then s.typings + [Typing(session, frame.mail, S.RenderEnvelope(req))]
                    else s.typings)
  }

  ghost function MoveStep(s: System, m: Move): System {
    match m
    case Broker(a) => BrokerMove(s, a)
    case Read(f, authorized, failAt) => ReadMove(s, f, authorized, failAt)
    case Restart(session) => s.(adapters := s.adapters[session := Adapter([], [])])
  }

  ghost function SystemRun(now: nat, moves: seq<Move>): System {
    if moves == [] then System0(now) else MoveStep(SystemRun(now, moves[..|moves| - 1]), moves[|moves| - 1])
  }

  // ---- what a broker step does to the history ----------------------------------------------------

  ghost predicate SendersValid(w: World) {
    forall i :: 0 <= i < |w.pushes| ==> IsParticipantId(w.pushes[i].envelope.from)
  }

  lemma SenderIsRegistered(s: State<nat>, now: nat, req: PushRequest)
    requires Inverse(s) && WellFormed(s) && CheckPush(s.participants, now, req).Success?
    ensures IsParticipantId(CheckPush(s.participants, now, req).value)
  {
    assert s.participants[req.lease].participantId in s.byId;
  }

  lemma PushKeepsSenders(w: World, req: PushRequest, nowIso: string)
    requires Inverse(w.st) && WellFormed(w.st) && SendersValid(w)
    ensures SendersValid(PushStep(w, req, nowIso))
  {
    hide SendersValid, Inverse, WellFormed, Route, AfterPush, IsParticipantId, Extends;
    var checked := CheckPush(w.st.participants, w.now, req);
    if checked.Success? {
      SenderIsRegistered(w.st, w.now, req);
      AfterPushExtends(w, req.lease, MakeEnvelope(checked.value, req, nowIso), Route(w.st, w.now, req.to.text));
      SendersSnoc(w, PushStep(w, req, nowIso));
    }
  }

  lemma SendersSnoc(w: World, w1: World)
    requires SendersValid(w) && |w1.pushes| == |w.pushes| + 1 && w1.pushes[..|w.pushes|] == w.pushes
    requires IsParticipantId(w1.pushes[|w.pushes|].envelope.from)
    ensures SendersValid(w1)
  {
    hide IsParticipantId;
  }

  lemma StepKeepsSenders(w: World, a: Action)
    requires TablesInv(w) && SendersValid(w)
    ensures SendersValid(Step(w, a))
  {
    if a.DoPush? {
      PushKeepsSenders(w, a.request, a.nowIso);
    } else {
      StepExtends(w, a);
    }
  }

  /** Only a settled forward adds to the accept log: its own message. */
  lemma AcceptsGrow(w: World, a: Action)
    ensures Step(w, a).accepts == w.accepts
            || (a.DoComplete? && a.accepted && CanComplete(w.st, a.token) && w.st.chains[a.token].reachable
                && a.token in w.registrations
                && Step(w, a).accepts == w.accepts + [Event(a.token, w.st.chains[a.token].slots[0].mail)])
  {
    match a
    case DoRegister(_) =>
    case DoPush(req, nowIso) => PushAcceptsNothing(w, req, nowIso);
    case DoStart(_) =>
    case DoComplete(r, accepted) => SettleAccepts(w, r, accepted);
    case _ => QuietSteps(w, a);
  }

  lemma PushAcceptsNothing(w: World, req: PushRequest, nowIso: string)
    ensures PushStep(w, req, nowIso).accepts == w.accepts
  {
    var checked := CheckPush(w.st.participants, w.now, req);
    if checked.Success? {
      AfterPushExtends(w, req.lease, MakeEnvelope(checked.value, req, nowIso), Route(w.st, w.now, req.to.text));
    }
  }

  lemma SettleAccepts(w: World, r: Token, reply: bool)
    ensures CompleteStep(w, r, reply).accepts
            == if CanComplete(w.st, r) && r in w.registrations && reply && w.st.chains[r].reachable
               then w.accepts + [Event(r, w.st.chains[r].slots[0].mail)] else w.accepts
  {
  }

  /** The head of a chain whose forward is under way. */
  ghost predicate Waiting(w: World, r: Token, mail: nat) {
    && r in w.st.chains && w.st.chains[r].inFlight && w.st.chains[r].reachable
    && w.st.chains[r].slots != [] && w.st.chains[r].slots[0].mail == mail
  }

  lemma RegisterHeads(w: World, req: RegisterRequest, r: Token, mail: nat)
    requires Inverse(w.st) && OneRecordPerSession(w.st) && TokensOk(w) && Waiting(RegisterStep(w, req), r, mail)
    ensures Waiting(w, r, mail)
  {
    hide Register, Validate;
    RegisterEffect(w.st, w.now, w.nextToken, req);
  }

  lemma AfterPushHeads(w: World, lease: Token, envelope: Envelope, dest: Destination, r: Token, mail: nat)
    requires Waiting(AfterPush(w, lease, envelope, dest), r, mail)
    requires r in w.st.chains && w.st.chains[r].inFlight ==> w.st.chains[r].slots != []
    ensures Waiting(w, r, mail)
  {
  }

  lemma PushHeads(w: World, req: PushRequest, nowIso: string, r: Token, mail: nat)
    requires Waiting(PushStep(w, req, nowIso), r, mail)
    requires r in w.st.chains && w.st.chains[r].inFlight ==> w.st.chains[r].slots != []
    ensures Waiting(w, r, mail)
  {
    var checked := CheckPush(w.st.participants, w.now, req);
    if checked.Success? {
      AfterPushHeads(w, req.lease, MakeEnvelope(checked.value, req, nowIso), Route(w.st, w.now, req.to.text), r, mail);
    }
  }

  lemma ForwardHeads(w: World, a: Action, r: Token, mail: nat)
    requires (a.DoStart? || a.DoComplete?) && a != DoStart(r) && Waiting(Step(w, a), r, mail)
    ensures Waiting(w, r, mail)
  {
  }

  lemma HeadsStay(w: World, a: Action, r: Token, mail: nat)
    requires Inverse(w.st) && OneRecordPerSession(w.st) && TokensOk(w) && Waiting(Step(w, a), r, mail)
    requires a != DoStart(r) && (r in w.st.chains && w.st.chains[r].inFlight ==> w.st.chains[r].slots != [])
    ensures Waiting(w, r, mail)
  {
    match a
    case DoRegister(req) => RegisterHeads(w, req, r, mail);
    case DoPush(req, nowIso) => PushHeads(w, req, nowIso, r, mail);
    case DoStart(_) => ForwardHeads(w, a, r, mail);
    case DoComplete(_, _) => ForwardHeads(w, a, r, mail);
    case _ => QuietSteps(w, a);
  }

  // ---- the invariant -----------------------------------------------------------------------------

  function AdmittedIds(admitted: seq<Admission>): (r: seq<string>)
    ensures |r| == |admitted|
  {
    seq(|admitted|, k requires 0 <= k < |admitted| => admitted[k].id)
  }

  ghost predicate OwnedId(w: World, session: string, id: string) {
    exists i: nat :: OwnedBy(w, i, session) && w.pushes[i].envelope.id == id
  }

  ghost predicate AdapterOk(w: World, session: string, ad: Adapter) {
    && AdmittedIds(ad.admitted) == D.Misses(ad.calls, D.DEDUPE_SIZE)
    && (forall id :: id in ad.calls ==> OwnedId(w, session, id))
    && (forall m :: m in ad.admitted ==> OwnedBy(w, m.mail, session) && w.pushes[m.mail].envelope.id == m.id)
  }

  ghost predicate Typed(typings: seq<Typing>, session: string, mail: nat) {
    exists t :: t in typings && t.session == session && t.mail == mail
  }

  ghost predicate FrameOk(w: World, typings: seq<Typing>, f: Frame) {
    && f.token in w.registrations
    && OwnedBy(w, f.mail, w.registrations[f.token].sessionId)
    && (f.accepted ==> Typed(typings, w.registrations[f.token].sessionId, f.mail))
  }

  ghost predicate TypingOk(w: World, t: Typing) {
    && OwnedBy(w, t.mail, t.session)
    && t.line == S.RenderEnvelope(RequestOf(w.pushes[t.mail].envelope, true))
  }

  ghost predicate DialsOk(w: World, frames: seq<Frame>, dialled: map<Token, nat>) {
    forall r, mail :: Waiting(w, r, mail) ==>
      && r in dialled && dialled[r] < |frames|
      && frames[dialled[r]].token == r && frames[dialled[r]].mail == mail
  }

  ghost predicate EventsTyped(w: World, typings: seq<Typing>) {
    forall e :: e in w.accepts ==>
      e.token in w.registrations && Typed(typings, w.registrations[e.token].sessionId, e.mail)
  }

  ghost predicate AdaptersOk(w: World, adapters: map<string, Adapter>) {
    forall session :: session in adapters ==> AdapterOk(w, session, adapters[session])
  }

  ghost predicate FramesOk(w: World, typings: seq<Typing>, frames: seq<Frame>) {
    forall f :: f in frames ==> FrameOk(w, typings, f)
  }

  ghost predicate TypingsOk(w: World, typings: seq<Typing>) {
    forall t :: t in typings ==> TypingOk(w, t)
  }

  /** The wire and the sidecars agree with the broker. */
  ghost predicate WireInv(s: System) {
    && AdaptersOk(s.w, s.adapters) && FramesOk(s.w, s.typings, s.frames) && TypingsOk(s.w, s.typings)
    && DialsOk(s.w, s.frames, s.dialled) && EventsTyped(s.w, s.typings)
  }

  ghost predicate SystemInv(s: System) { Inv(s.w) && SendersValid(s.w) && WireInv(s) }

  // ---- preservation ------------------------------------------------------------------------------

  lemma OwnedStays(w: World, w1: World, session: string, ad: Adapter)
    requires Extends(w, w1) && AdapterOk(w, session, ad)
    ensures AdapterOk(w1, session, ad)
  {
    forall id | id in ad.calls
      ensures OwnedId(w1, session, id)
    {
      var i: nat :| OwnedBy(w, i, session) && w.pushes[i].envelope.id == id;
      assert OwnedBy(w1, i, session);
    }
  }

  lemma HistoryStays(w: World, w1: World, adapters: map<string, Adapter>, frames: seq<Frame>, typings: seq<Typing>)
    requires Extends(w, w1) && AdaptersOk(w, adapters) && FramesOk(w, typings, frames) && TypingsOk(w, typings)
    ensures AdaptersOk(w1, adapters) && FramesOk(w1, typings, frames) && TypingsOk(w1, typings)
  {
    forall session | session in adapters
      ensures AdapterOk(w1, session, adapters[session])
    {
      OwnedStays(w, w1, session, adapters[session]);
    }
  }

  lemma NewEventTyped(s: System, a: Action, w1: World)
    requires DialsOk(s.w, s.frames, s.dialled) && EventsTyped(s.w, s.typings) && Extends(s.w, w1)
    requires FramesOk(s.w, s.typings, s.frames)
    requires w1 == Step(s.w, Seen(s, a))
    ensures EventsTyped(w1, s.typings)
  {
    AcceptsGrow(s.w, Seen(s, a));
    if w1.accepts != s.w.accepts {
      var c := s.w.st.chains[a.token];
      assert Waiting(s.w, a.token, c.slots[0].mail);
      assert s.frames[s.dialled[a.token]] in s.frames;
    }
  }

  lemma DialsStay(s: System, a: Action)
    requires Inv(s.w) && DialsOk(s.w, s.frames, s.dialled)
    ensures DialsOk(BrokerMove(s, a).w, BrokerMove(s, a).frames, BrokerMove(s, a).dialled)
  {
    hide Inv, StartStep, RegisterStep, PushStep, CompleteStep, HeartbeatStep, UnregisterStep, GcStep, CrashStep,
         Waiting, PlansOk;
    InvParts(s.w);
    var s1 := BrokerMove(s, a);
    forall r, mail | Waiting(s1.w, r, mail)
      ensures r in s1.dialled && s1.dialled[r] < |s1.frames|
      ensures s1.frames[s1.dialled[r]].token == r && s1.frames[s1.dialled[r]].mail == mail
    {
      if a == DoStart(r) {
        StartWaits(s, r, mail);
      } else {
        OldDialStays(s, a, r, mail);
      }
    }
  }

  lemma OldDialStays(s: System, a: Action, r: Token, mail: nat)
    requires Inv(s.w) && DialsOk(s.w, s.frames, s.dialled) && a != DoStart(r)
    requires Waiting(Step(s.w, Seen(s, a)), r, mail)
    ensures var s1 := BrokerMove(s, a);
            && r in s1.dialled && s1.dialled[r] < |s1.frames|
            && s1.frames[s1.dialled[r]].token == r && s1.frames[s1.dialled[r]].mail == mail
  {
    hide Inv, Step, Waiting, PlansOk, TokensOk, Inverse, OneRecordPerSession;
    InvParts(s.w);
    BusyChain(s.w, r);
    HeadsStay(s.w, Seen(s, a), r, mail);
  }

  lemma BusyChain(w: World, r: Token)
    requires PlansOk(w)
    ensures r in w.st.chains && w.st.chains[r].inFlight ==> w.st.chains[r].slots != []
  {
    assert r in w.st.chains ==> ChainFollowsPlan(w.st.chains[r], w.registrations[r]);
  }

  lemma StartWaits(s: System, r: Token, mail: nat)
    requires PlansOk(s.w) && DialsOk(s.w, s.frames, s.dialled)
    requires Waiting(StartStep(s.w, r), r, mail)
    ensures var s1 := BrokerMove(s, DoStart(r));
            && r in s1.dialled && s1.dialled[r] < |s1.frames|
            && s1.frames[s1.dialled[r]].token == r && s1.frames[s1.dialled[r]].mail == mail
  {
    if !CanStart(s.w.st, r) {
      assert Waiting(s.w, r, mail);
    }
  }

  /** The frame a start puts on the wire belongs to the registration's session. */
  lemma NewFrameOwned(w: World, r: Token, typings: seq<Typing>)
    requires Inv(w) && CanStart(w.st, r)
    ensures FrameOk(w, typings, Frame(r, w.st.chains[r].slots[0].mail, false, false))
  {
    var c := w.st.chains[r];
    assert ChainFollowsPlan(c, w.registrations[r]);
    assert SlotMails(c.slots)[0] == w.registrations[r].plan[|w.registrations[r].results|];
  }

  lemma FramesGrow(s: System, a: Action)
    requires Inv(s.w) && FramesOk(s.w, s.typings, s.frames)
    ensures FramesOk(s.w, s.typings, BrokerMove(s, a).frames)
  {
    hide Inv, Step, FrameOk;
    if a.DoStart? && CanStart(s.w.st, a.token) {
      NewFrameOwned(s.w, a.token, s.typings);
    }
  }

  lemma BrokerKeepsWire(s: System, a: Action)
    requires Inv(s.w) && WireInv(s)
    ensures WireInv(BrokerMove(s, a))
  {
    hide Inv, Step, AdaptersOk, FramesOk, TypingsOk, DialsOk, EventsTyped, Extends, TokensOk, TablesInv, PlansOk,
         PlacesInv;
    var s1 := BrokerMove(s, a);
    InvParts(s.w);
    StepExtends(s.w, Seen(s, a));
    FramesGrow(s, a);
    HistoryStays(s.w, s1.w, s.adapters, s1.frames, s.typings);
    DialsStay(s, a);
    NewEventTyped(s, a, s1.w);
  }

  lemma BrokerKeepsInv(s: System, a: Action)
    requires SystemInv(s)
    ensures SystemInv(BrokerMove(s, a))
  {
    hide Inv, Step, SendersValid, WireInv, TablesInv, FinalStays;
    InvParts(s.w);
    StepKeepsInv(s.w, Seen(s, a));
    StepKeepsSenders(s.w, Seen(s, a));
    BrokerKeepsWire(s, a);
  }

  lemma TypedStays(typings: seq<Typing>, t: Typing, session: string, mail: nat)
    requires Typed(typings, session, mail)
    ensures Typed(typings + [t], session, mail)
  {
    var old_ :| old_ in typings && old_.session == session && old_.mail == mail;
    assert old_ in typings + [t];
  }

  /** What the window lets through, it answers `false`. */
  lemma QueryMisses(ad: Adapter, e: Envelope, mail: nat, authorized: bool, failAt: Option<nat>)
    requires AdmittedIds(ad.admitted) == D.Misses(ad.calls, D.DEDUPE_SIZE)
    ensures var req := RequestOf(e, authorized);
            var more := Admitted(ad, mail, req, S.ReplyTo(ad.calls, req, failAt));
            AdmittedIds(more) == D.Misses(ad.calls + (if S.Queries(req) then [e.id] else []), D.DEDUPE_SIZE)
  {
    assert (ad.calls + [e.id])[..|ad.calls|] == ad.calls && ad.calls + [] == ad.calls;
    var req := RequestOf(e, authorized);
    var more := Admitted(ad, mail, req, S.ReplyTo(ad.calls, req, failAt));
    if more != ad.admitted {
      assert AdmittedIds(more) == AdmittedIds(ad.admitted) + [e.id];
    }
  }

  lemma OwnsItsId(w: World, session: string, mail: nat)
    requires OwnedBy(w, mail, session)
    ensures OwnedId(w, session, w.pushes[mail].envelope.id)
  {
  }

  /** A query and its outcome keep the adapter's history in step with its window. */
  lemma ReadKeepsAdapter(w: World, session: string, ad: Adapter, mail: nat, authorized: bool, failAt: Option<nat>)
    requires AdapterOk(w, session, ad) && OwnedBy(w, mail, session)
    ensures var req := RequestOf(w.pushes[mail].envelope, authorized);
            var reply := S.ReplyTo(ad.calls, req, failAt);
            AdapterOk(w, session, Adapter(ad.calls + (if S.Queries(req) then [TextOf(req.id)] else []),
                                          Admitted(ad, mail, req, reply)))
  {
    hide D.Misses, S.ReplyTo, AdmittedIds, OwnedId;
    var e := w.pushes[mail].envelope;
    OwnsItsId(w, session, mail);
    QueryMisses(ad, e, mail, authorized, failAt);
    QueryOwned(w, session, ad, mail,
      Admission(mail, e.id, S.ReplyTo(ad.calls, RequestOf(e, authorized), failAt).AcceptedReply?));
  }

  lemma QueryOwned(w: World, session: string, ad: Adapter, mail: nat, m: Admission)
    requires OwnedBy(w, mail, session) && m.mail == mail && m.id == w.pushes[mail].envelope.id
    requires forall id :: id in ad.calls ==> OwnedId(w, session, id)
    requires forall m :: m in ad.admitted ==> OwnedBy(w, m.mail, session) && w.pushes[m.mail].envelope.id == m.id
    ensures forall id :: id in ad.calls + [m.id] ==> OwnedId(w, session, id)
    ensures forall x :: x in ad.admitted + [m] ==> OwnedBy(w, x.mail, session) && w.pushes[x.mail].envelope.id == x.id
  {
    assert OwnedId(w, session, m.id);
  }

  lemma ReadKeepsFrames(w: World, frames: seq<Frame>, typings: seq<Typing>, f: nat, typed: bool, t: Typing)
    requires f < |frames| && FramesOk(w, typings, frames) && frames[f].token in w.registrations
    requires t.session == w.registrations[frames[f].token].sessionId && t.mail == frames[f].mail
    ensures FramesOk(w, if typed then typings + [t] else typings,
                     frames[f := frames[f].(read := true, accepted := typed)])
  {
    var typings1 := if typed then typings + [t] else typings;
    forall g | g in frames
      ensures FrameOk(w, typings1, g)
    {
      if g.accepted && typed {
        TypedStays(typings, t, w.registrations[g.token].sessionId, g.mail);
      }
    }
    assert typed ==> typings1[|typings|] == t;
    assert FrameOk(w, typings1, frames[f]);
  }

  lemma EventsStayTyped(w: World, typings: seq<Typing>, t: Typing)
    requires EventsTyped(w, typings)
    ensures EventsTyped(w, typings + [t])
  {
    forall e | e in w.accepts
      ensures Typed(typings + [t], w.registrations[e.token].sessionId, e.mail)
    {
      TypedStays(typings, t, w.registrations[e.token].sessionId, e.mail);
    }
  }

  lemma ReadKeepsDials(w: World, frames: seq<Frame>, dialled: map<Token, nat>, f: nat, frame: Frame)
    requires DialsOk(w, frames, dialled) && f < |frames|
    requires frame.token == frames[f].token && frame.mail == frames[f].mail
    ensures DialsOk(w, frames[f := frame], dialled)
  {
  }

  lemma ReadKeepsInv(s: System, f: nat, authorized: bool, failAt: Option<nat>)
    requires WireInv(s)
    ensures WireInv(ReadMove(s, f, authorized, failAt)) && ReadMove(s, f, authorized, failAt).w == s.w
  {
    var s1 := ReadMove(s, f, authorized, failAt);
    if s1 != s {
      var frame := s.frames[f];
      assert FrameOk(s.w, s.typings, frame);
      var session := s.w.registrations[frame.token].sessionId;
      var req := RequestOf(s.w.pushes[frame.mail].envelope, authorized);
      var ad := AdapterOf(s, session);
      var reply := S.ReplyTo(ad.calls, req, failAt);
      assert AdapterOk(s.w, session, ad);
      ReadKeepsAdapter(s.w, session, ad, frame.mail, authorized, failAt);
      var t := Typing(session, frame.mail, S.RenderEnvelope(req));
      ReadKeepsFrames(s.w, s.frames, s.typings, f, reply.AcceptedReply?, t);
      ReadKeepsDials(s.w, s.frames, s.dialled, f, s1.frames[f]);
      EventsStayTyped(s.w, s.typings, t);
    }
  }

  /** A frame is put on the wire exactly when a chain that can reach its adapter dials its head. */
  lemma WireGrows(s: System, a: Action)
    requires Inv(s.w)
    ensures var s1 := BrokerMove(s, a);
            if a.DoStart? && CanStart(s.w.st, a.token) && s.w.st.chains[a.token].reachable
            then s1.frames == s.frames + [Frame(a.token, s.w.st.chains[a.token].slots[0].mail, false, false)]
            else s1.frames == s.frames
    ensures BrokerMove(s, a).adapters == s.adapters && BrokerMove(s, a).typings == s.typings
  {
    hide Step;
    InvParts(s.w);
  }

  /** A sidecar reads a frame once, and remembers whether it said `accepted`. */
  lemma ReadOnce(s: System, f: nat, authorized: bool, failAt: Option<nat>)
    requires f < |s.frames| && FramesOk(s.w, s.typings, s.frames)
    ensures var s1 := ReadMove(s, f, authorized, failAt);
            if s.frames[f].read then s1 == s
            else
              && |s1.frames| == |s.frames| && s1.frames[f].read
              && (forall g :: 0 <= g < |s.frames| && g != f ==> s1.frames[g] == s.frames[g])
              && (s1.frames[f].accepted <==> |s1.typings| == |s.typings| + 1)
              && (!s1.frames[f].accepted <==> s1.typings == s.typings)
  {
    assert FrameOk(s.w, s.typings, s.frames[f]);
  }

  lemma {:induction false} InvInEverySystemRun(now: nat, moves: seq<Move>)
    ensures SystemInv(SystemRun(now, moves))
  {
    hide SystemInv, BrokerMove, ReadMove;
    if moves == [] {
      SystemAtStart(now);
    } else {
      var init, m := moves[..|moves| - 1], moves[|moves| - 1];
      InvInEverySystemRun(now, init);
      match m
      case Broker(a) => BrokerKeepsInv(SystemRun(now, init), a);
      case Read(f, authorized, failAt) => ReadKeepsSystem(SystemRun(now, init), f, authorized, failAt);
      case Restart(session) => RestartKeepsSystem(SystemRun(now, init), session);
    }
  }

  lemma SystemAtStart(now: nat)
    ensures SystemInv(System0(now))
  {
    hide Inv;
    InvAtStart(now);
  }

  lemma ReadKeepsSystem(s: System, f: nat, authorized: bool, failAt: Option<nat>)
    requires SystemInv(s)
    ensures SystemInv(ReadMove(s, f, authorized, failAt))
  {
    hide Inv, WireInv, ReadMove, SendersValid;
    ReadKeepsInv(s, f, authorized, failAt);
  }

  lemma RestartKeepsSystem(s: System, session: string)
    requires SystemInv(s)
    ensures SystemInv(s.(adapters := s.adapters[session := Adapter([], [])]))
  {
    hide Inv, FramesOk, TypingsOk, DialsOk, EventsTyped, SendersValid;
  }

  // ---- at most once ------------------------------------------------------------------------------

  lemma SlicedIds(admitted: seq<Admission>, from: nat, to: nat)
    requires from <= to <= |admitted|
    ensures AdmittedIds(admitted[from..to]) == AdmittedIds(admitted)[from..to]
  {
  }

  /** At most once, however often the broker times out, queues again and flushes again over any
      number of registrations: when one life of a sidecar lets the same id through twice, the 256
      messages it let through before the second time, and the second one, have 257 different ids. */
  lemma AdmissionsOfOneIdAreFarApart(now: nat, moves: seq<Move>, session: string, j: nat, k: nat)
    requires var admitted := AdapterOf(SystemRun(now, moves), session).admitted;
             j < k < |admitted| && admitted[j].id == admitted[k].id
    ensures k - j > 256
    ensures Distinct(AdmittedIds(AdapterOf(SystemRun(now, moves), session).admitted[k - 256..k + 1]))
  {
    InvInEverySystemRun(now, moves);
    var s := SystemRun(now, moves);
    FarApart(s.w, session, AdapterOf(s, session), j, k);
  }

  lemma FarApart(w: World, session: string, ad: Adapter, j: nat, k: nat)
    requires AdapterOk(w, session, ad) && j < k < |ad.admitted| && ad.admitted[j].id == ad.admitted[k].id
    ensures k - j > 256 && Distinct(AdmittedIds(ad.admitted[k - 256..k + 1]))
  {
    hide D.Misses, Distinct, OwnedId, OwnedBy;
    D.RepeatsAreSeparated(ad.calls, 256, j, k);
    SlicedIds(ad.admitted, k - 256, k + 1);
  }

  /** The ids of the pushes meant for a session. */
  ghost function IdsFor(w: World, session: string): set<string> {
    set i: nat | i < |w.pushes| && w.pushes[i].owner == Some(session) :: w.pushes[i].envelope.id
  }

  /** So when the pushes meant for a session use at most 256 different ids, each of these ids gets
      through at most once. */
  lemma FewIdsAdmittedOnce(now: nat, moves: seq<Move>, session: string)
    requires |IdsFor(SystemRun(now, moves).w, session)| <= 256
    ensures Distinct(AdmittedIds(AdapterOf(SystemRun(now, moves), session).admitted))
  {
    InvInEverySystemRun(now, moves);
    var s := SystemRun(now, moves);
    var ad := AdapterOf(s, session);
    assert AdapterOk(s.w, session, ad);
    forall id | id in ad.calls
      ensures id in IdsFor(s.w, session)
    {
      assert OwnedId(s.w, session, id);
    }
    D.SubsetCount(D.Elements(ad.calls), IdsFor(s.w, session));
    D.FewIdsMissOnce(ad.calls, 256);
  }

  /** The pushes typed to the end into a session, in order. */
  function TypedInto(typings: seq<Typing>, session: string): seq<nat> {
    if typings == [] then []
    else TypedInto(typings[..|typings| - 1], session)
         + (if typings[|typings| - 1].session == session then [typings[|typings| - 1].mail] else [])
  }

  function WholeMails(admitted: seq<Admission>): seq<nat> {
    if admitted == [] then []
    else WholeMails(admitted[..|admitted| - 1])
         + (if admitted[|admitted| - 1].whole then [admitted[|admitted| - 1].mail] else [])
  }

  lemma TypeOne(typings: seq<Typing>, ad: Adapter, t: Typing, req: S.DeliverRequest, reply: S.Reply)
    requires TypedInto(typings, t.session) == WholeMails(ad.admitted)
    ensures TypedInto(if reply.AcceptedReply? then typings + [t] else typings, t.session)
            == WholeMails(Admitted(ad, t.mail, req, reply))
  {
    assert (typings + [t])[..|typings|] == typings;
    var m := Admission(t.mail, TextOf(req.id), reply.AcceptedReply?);
    assert (ad.admitted + [m])[..|ad.admitted|] == ad.admitted;
  }

  lemma TypeElsewhere(typings: seq<Typing>, t: Typing, session: string)
    requires t.session != session
    ensures TypedInto(typings + [t], session) == TypedInto(typings, session)
  {
    assert (typings + [t])[..|typings|] == typings;
  }

  lemma ReadTypes(s: System, f: nat, authorized: bool, failAt: Option<nat>, session: string)
    requires TypedInto(s.typings, session) == WholeMails(AdapterOf(s, session).admitted)
    ensures var s1 := ReadMove(s, f, authorized, failAt);
            TypedInto(s1.typings, session) == WholeMails(AdapterOf(s1, session).admitted)
  {
    if ReadMove(s, f, authorized, failAt) != s {
      var mail := s.frames[f].mail;
      var reader := s.w.registrations[s.frames[f].token].sessionId;
      var req := RequestOf(s.w.pushes[mail].envelope, authorized);
      var t := Typing(reader, mail, S.RenderEnvelope(req));
      if reader == session {
        TypeOne(s.typings, AdapterOf(s, session), t, req, S.ReplyTo(AdapterOf(s, session).calls, req, failAt));
      } else {
        TypeElsewhere(s.typings, t, session);
      }
    }
  }

  lemma {:induction false} TypedAreWholeAdmissions(now: nat, moves: seq<Move>, session: string)
    requires Restart(session) !in moves
    ensures var s := SystemRun(now, moves);
            TypedInto(s.typings, session) == WholeMails(AdapterOf(s, session).admitted)
  {
    if moves != [] {
      var init, m := moves[..|moves| - 1], moves[|moves| - 1];
      TypedAreWholeAdmissions(now, init, session);
      match m
      case Broker(a) =>
      case Read(f, authorized, failAt) => ReadTypes(SystemRun(now, init), f, authorized, failAt, session);
      case Restart(other) =>
    }
  }

  /** The ids of the listed pushes are pairwise different. */
  ghost predicate DifferentIds(w: World, mails: seq<nat>) {
    && (forall k :: 0 <= k < |mails| ==> mails[k] < |w.pushes|)
    && (forall j, k :: 0 <= j < k < |mails| ==> w.pushes[mails[j]].envelope.id != w.pushes[mails[k]].envelope.id)
  }

  lemma {:induction false} DistinctAdmissions(w: World, admitted: seq<Admission>)
    requires Distinct(AdmittedIds(admitted))
    requires forall m :: m in admitted ==> m.mail < |w.pushes| && w.pushes[m.mail].envelope.id == m.id
    ensures DifferentIds(w, WholeMails(admitted))
    ensures forall i :: i in WholeMails(admitted) ==> i < |w.pushes| && w.pushes[i].envelope.id in AdmittedIds(admitted)
  {
    if admitted != [] {
      var init, m := admitted[..|admitted| - 1], admitted[|admitted| - 1];
      var ids := AdmittedIds(admitted);
      assert ids[..|init|] == AdmittedIds(init) && ids[|init|] == m.id;
      assert forall k :: 0 <= k < |init| ==> AdmittedIds(init)[k] == ids[k];
      DistinctAdmissions(w, init);
      assert m.id !in AdmittedIds(init);
    }
  }

  /** With at most 256 ids meant for a session whose sidecar does not restart, no id is ever typed
      into it twice. */
  lemma FewIdsTypedOnce(now: nat, moves: seq<Move>, session: string)
    requires Restart(session) !in moves
    requires |IdsFor(SystemRun(now, moves).w, session)| <= 256
    ensures DifferentIds(SystemRun(now, moves).w, TypedInto(SystemRun(now, moves).typings, session))
  {
    FewIdsAdmittedOnce(now, moves, session);
    TypedAreWholeAdmissions(now, moves, session);
    InvInEverySystemRun(now, moves);
    var s := SystemRun(now, moves);
    AdmissionsNamed(s.w, session, AdapterOf(s, session));
    DistinctAdmissions(s.w, AdapterOf(s, session).admitted);
  }

  lemma AdmissionsNamed(w: World, session: string, ad: Adapter)
    requires AdapterOk(w, session, ad)
    ensures forall m :: m in ad.admitted ==> m.mail < |w.pushes| && w.pushes[m.mail].envelope.id == m.id
  {
  }

  /** When the sender is told `delivered`, the message has been typed to the end in the session
      that held the target id when it was pushed. */
  lemma DeliveredMeansTyped(now: nat, moves: seq<Move>, i: nat)
    requires var w := SystemRun(now, moves).w; i < |w.pushes| && i in w.answers && w.answers[i] == ToldDelivered
    ensures var s := SystemRun(now, moves);
            s.w.pushes[i].owner.Some? && Typed(s.typings, s.w.pushes[i].owner.value, i)
  {
    InvInEverySystemRun(now, moves);
    var s := SystemRun(now, moves);
    assert s.w.place[i] == Accepted(s.w.place[i].token, true);
    var e := Event(s.w.place[i].token, i);
    assert e in s.w.accepts;
    var session := s.w.registrations[e.token].sessionId;
    var t :| t in s.typings && t.session == session && t.mail == i;
    assert TypingOk(s.w, t);
  }

  lemma IdsAreClean(id: string)
    requires IsParticipantId(id)
    ensures Z.SanitizeForTTY(Some(id)) == id
  {
    if IsHashedId(id) {
      var k :| 0 <= k < |id| && IsHashedIdAt(id, k);
      HashedIdIsClean(id, k);
    }
    Z.SanitizeIsIdentityOnClean(id);
  }

  lemma HashedIdIsClean(id: string, k: nat)
    requires IsHashedIdAt(id, k)
    ensures Z.IsClean(id)
  {
    forall j | 0 <= j < |id|
      ensures !Z.IsControl(id[j])
    {
      if j < k {
        assert id[..k][j] == id[j];
      } else if k < j < k + 13 {
        assert id[k + 1..k + 13][j - k - 1] == id[j];
      }
    }
  }

  /** What the sidecar types for a message, from the sender's lease and request to the screen: when id
      and body hold no control character they are typed as they were sent. */
  lemma CleanMessageIsTypedAsSent(from: string, req: PushRequest, nowIso: string)
    requires IsParticipantId(from) && req.to.Text? && req.id.Text? && req.body.Text?
    requires Z.IsClean(req.id.text) && Z.IsClean(req.body.text)
    ensures S.RenderEnvelope(RequestOf(MakeEnvelope(from, req, nowIso), true))
            == "[from:" + from + " \U{00B7} msg:" + req.id.text + " \U{00B7} "
               + S.TimeSlice(Some(NonEmpty(req.sentAt).GetOr(nowIso))) + "] " + req.body.text
  {
    EnvelopeSaysWhatWasSent(from, req, nowIso);
    IdsAreClean(from);
    Z.SanitizeIsIdentityOnClean(req.id.text);
    Z.SanitizeIsIdentityOnClean(req.body.text);
  }

  /** The characters of `sent_at` that are shown, which the broker passes on as they are. */
  predicate ShownAreClean(sentAt: string) { forall k :: 11 <= k < 16 && k < |sentAt| ==> !Z.IsControl(sentAt[k]) }

  predicate ShownAreCrFree(sentAt: string) { forall k :: 11 <= k < 16 && k < |sentAt| ==> sentAt[k] != S.CR }

  /** The line of a message holds a control character, or a submit key, exactly when one is among
      these characters. */
  lemma ControlInSentAt(from: string, req: PushRequest, nowIso: string, sentAt: string)
    requires req.to.Text? && req.id.Text? && req.body.Text? && req.sentAt == Some(sentAt) && sentAt != ""
    ensures var line := S.RenderEnvelope(RequestOf(MakeEnvelope(from, req, nowIso), true));
            (Z.IsClean(line) <==> ShownAreClean(sentAt)) && (S.CrFree(line) <==> ShownAreCrFree(sentAt))
  {
    S.RenderedIsCleanIffTimeIs(RequestOf(MakeEnvelope(from, req, nowIso), true));
    ShownTime(sentAt);
  }

  lemma ShownTime(sentAt: string)
    ensures Z.IsClean(S.TimeSlice(Some(sentAt))) <==> ShownAreClean(sentAt)
    ensures S.CrFree(S.TimeSlice(Some(sentAt))) <==> ShownAreCrFree(sentAt)
  {
    var shown := S.Slice(sentAt, 11, 16);
    assert S.TimeSlice(Some(sentAt)) == shown + "Z";
    assert forall k :: 11 <= k < 16 && k < |sentAt| ==> k - 11 < |shown| && shown[k - 11] == sentAt[k];
    forall k | 0 <= k < |shown|
      ensures (shown + "Z")[k] == shown[k] && shown[k] == sentAt[11 + k]
    {
    }
  }

  /** A push for which it holds both. */
  lemma SubmitKeyExample(from: string, nowIso: string)
    ensures var req := PushRequest(0, BrokerModel.Text("a"), BrokerModel.Text("m"), BrokerModel.Text("b"), None, None,
                                   None, Some("2026-01-01T\r"));
            var line := S.RenderEnvelope(RequestOf(MakeEnvelope(from, req, nowIso), true));
            !S.CrFree(line) && !Z.IsClean(line)
  {
    var sentAt := "2026-01-01T\r";
    assert sentAt[11] == S.CR && Z.IsControl(S.CR);
    ControlInSentAt(from, PushRequest(0, BrokerModel.Text("a"), BrokerModel.Text("m"), BrokerModel.Text("b"), None,
                                      None, None, Some(sentAt)), nowIso, sentAt);
  }

  /** Every line ever typed into a session renders a push that was meant for that session, and
      opens with the id that register had bound to the lease presented with it. */
  lemma TypedLinesAreGenuine(now: nat, moves: seq<Move>, t: Typing)
    requires t in SystemRun(now, moves).typings
    ensures var w := SystemRun(now, moves).w;
            && OwnedBy(w, t.mail, t.session)
            && w.pushes[t.mail].lease in w.registrations
            && "[from:" + w.registrations[w.pushes[t.mail].lease].participantId + " \U{00B7} msg:" <= t.line
  {
    InvInEverySystemRun(now, moves);
    GenuineLine(SystemRun(now, moves).w, t);
  }

  lemma GenuineLine(w: World, t: Typing)
    requires SendersStamped(w) && SendersValid(w) && TypingOk(w, t)
    ensures OwnedBy(w, t.mail, t.session) && w.pushes[t.mail].lease in w.registrations
    ensures "[from:" + w.registrations[w.pushes[t.mail].lease].participantId + " \U{00B7} msg:" <= t.line
  {
    IdsAreClean(w.pushes[t.mail].envelope.from);
  }
}
