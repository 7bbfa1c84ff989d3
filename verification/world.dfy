/** The broker as a step machine, with a history beside it. Mail is the number of a push, so a
    push can be followed through every table; `pushes` says what each number stands for. */
module World {
  import opened Wrappers
  import opened BrokerModel

  /** A validated push: its envelope, the lease that presented it, and the session that had most
      recently registered the target id at that moment. */
  datatype PushRecord = PushRecord(envelope: Envelope, lease: Token, owner: Option<string>)

  /** Where a push is. The last four places are final. */
  datatype Place =
    | InChain(token: Token)
    | InMail(hash: SessionHash)
    | Accepted(token: Token, live: bool)
    | Expired
    | Refused
    | Lost

  datatype Answer = ToldDelivered | ToldQueued | ToldFailed

  /** One registration: the forwards it owes in order (flushed mail, then live pushes), the ones
      dialled so far, and how each settled one ended. */
  datatype Registration = Registration(participantId: string, sessionId: string,
                                       plan: seq<nat>, attempted: seq<nat>, results: seq<bool>)

  datatype Event = Event(token: Token, mail: nat)

  datatype World = World(
    now: nat,
    st: State<nat>,
    nextToken: Token,
    // history
    pushes: seq<PushRecord>,
    place: map<nat, Place>,
    answers: map<nat, Answer>,
    registrations: map<Token, Registration>,
    accepts: seq<Event>,         // forwards the adapter accepted, in order
    reentries: seq<Event>,       // mail put back after a failed forward, in order
    holder: map<string, string>, // id -> session of its latest registrant
    idOf: map<string, string>,   // session -> id it last registered
    seenAt: map<string, nat>)    // id -> its latest holder's last register, heartbeat or unregister

  datatype Action =
    | DoRegister(req: RegisterRequest)
    | DoHeartbeat(lease: Token)
    | DoUnregister(lease: Token)
    | DoPush(request: PushRequest, nowIso: string)
    | DoStart(token: Token)
    | DoComplete(token: Token, accepted: bool)
    | DoGc
    | Advance(ms: nat)
    | Crash

  function SlotMails(slots: seq<Slot<nat>>): (r: seq<nat>)
    ensures |r| == |slots|
  {
    seq(|slots|, k requires 0 <= k < |slots| => slots[k].mail)
  }

  function EntryMails(q: seq<Entry<nat>>): (r: seq<nat>)
    ensures |r| == |q|
  {
    seq(|q|, k requires 0 <= k < |q| => q[k].mail)
  }

  function Start0(now: nat): World {
    World(now, Init(), 0, [], map[], map[], map[], [], [], map[], map[], map[])
  }

  /** The mail a register of this session would flush now, and the mail it would drop. */
  function Flushable(w: World, h: SessionHash): seq<nat> {
    EntryMails(Unexpired(Queue(w.st.mailbox, h), w.now))
  }

  /** The queue of `h` leaves the mailbox: its unexpired entries go to `to`, the others expire. */
  function Drained(place: map<nat, Place>, h: SessionHash, kept: seq<nat>, to: Place): map<nat, Place> {
    map i | i in place :: if place[i] == InMail(h) then (if i in kept then to else Expired) else place[i]
  }

  function PrunedPlace(i: nat, p: Place, st: State<nat>, now: nat, crash: bool): Place {
    match p
    case InMail(h) => if i in EntryMails(Unexpired(Queue(st.mailbox, h), now)) then p else Expired
    case InChain(_) => if crash then Lost else p
    case _ => p
  }

  /** Every queue is filtered by age; in a crash the chains are lost. */
  function Pruned(place: map<nat, Place>, st: State<nat>, now: nat, crash: bool): map<nat, Place> {
    map i | i in place :: PrunedPlace(i, place[i], st, now, crash)
  }

  ghost function RegisterStep(w: World, req: RegisterRequest): World {
    var (st, response) := Register(w.st, w.now, w.nextToken, req);
    AfterRegister(w, req, st, response)
  }

  function AfterRegister(w: World, req: RegisterRequest, st: State<nat>, response: Response): World {
    if response.Registered? && Validate(req).Success? then
      var id := response.participantId;
      var session := Validate(req).value.sessionId;
      var kept := Flushable(w, SessionHash(session));
      w.(st := st, nextToken := w.nextToken + 1,
         place := Drained(w.place, SessionHash(session), kept, InChain(w.nextToken)),
         registrations := w.registrations[w.nextToken := Registration(id, session, kept, [], [])],
         holder := w.holder[id := session], idOf := w.idOf[session := id], seenAt := w.seenAt[id := w.now])
    else w.(st := st)
  }

  function IdBoundTo(s: State<nat>, lease: Token): string {
    if lease in s.participants then s.participants[lease].participantId else ""
  }

  function MarkSeen(w: World, st: State<nat>, id: string, seen: bool): World {
    if seen then w.(st := st, seenAt := w.seenAt[id := w.now]) else w.(st := st)
  }

  function HeartbeatStep(w: World, lease: Token): World {
    MarkSeen(w, Heartbeat(w.st, w.now, lease).0, IdBoundTo(w.st, lease), Heartbeat(w.st, w.now, lease).1.Renewed?)
  }

  function UnregisterStep(w: World, lease: Token): World {
    MarkSeen(w, Unregister(w.st, w.now, lease).0, IdBoundTo(w.st, lease),
      Unregister(w.st, w.now, lease).1.Unregistered?)
  }

  function PushStep(w: World, req: PushRequest, nowIso: string): World {
    match CheckPush(w.st.participants, w.now, req)
    case Failure(_) => w
    case Success(from) =>
      AfterPush(w, req.lease, MakeEnvelope(from, req, nowIso), Route(w.st, w.now, req.to.text))
  }

  function AfterPush(w: World, lease: Token, envelope: Envelope, dest: Destination): World {
    var i := |w.pushes|;
    var owner := if envelope.to in w.holder then Some(w.holder[envelope.to]) else None;
    var sent := w.(st := Dispatch(w.st, w.now, envelope.to, i, dest),
                   pushes := w.pushes + [PushRecord(envelope, lease, owner)]);
    match dest
    case Online(t) =>
      sent.(place := w.place[i := InChain(t)],
            registrations := if t in w.registrations
                             then w.registrations[t := w.registrations[t].(plan := w.registrations[t].plan + [i])]
                             else w.registrations)
    case Offline(session) =>
      sent.(place := w.place[i := InMail(SessionHash(session))], answers := w.answers[i := ToldQueued])
    case Unknown =>
      sent.(place := w.place[i := Refused], answers := w.answers[i := ToldFailed])
  }

  function StartStep(w: World, r: Token): World {
    if !CanStart(w.st, r) || r !in w.registrations then w
    else
      w.(st := Start(w.st, r),
         registrations := w.registrations[r := w.registrations[r].(
           attempted := w.registrations[r].attempted + [w.st.chains[r].slots[0].mail])])
  }

  /** A registration without a delivery socket rejects every forward (`no_delivery_socket`). */
  function CompleteStep(w: World, r: Token, reply: bool): World {
    if !CanComplete(w.st, r) || r !in w.registrations then w
    else
      var c := w.st.chains[r];
      var accepted := reply && c.reachable;
      var i := c.slots[0].mail;
      w.(st := Complete(w.st, w.now, r, accepted),
         place := w.place[i := if accepted then Accepted(r, c.slots[0].Live?) else InMail(SessionHash(c.sessionId))],
         answers := if c.slots[0].Live? then w.answers[i := if accepted then ToldDelivered else ToldQueued]
           else w.answers,
         registrations := w.registrations[r := w.registrations[r].(results := w.registrations[r].results + [accepted])],
         accepts := if accepted then w.accepts + [Event(r, i)] else w.accepts,
         reentries := if accepted then w.reentries else w.reentries + [Event(r, i)])
  }

  function GcStep(w: World): World {
    w.(st := GcTick(w.st, w.now), place := Pruned(w.place, w.st, w.now, false))
  }

  /** The process dies and a new one loads the mailbox directory. */
  function CrashStep(w: World): World {
    w.(st := Reload(w.st, w.now), place := Pruned(w.place, w.st, w.now, true),
       holder := map[], idOf := map[], seenAt := map[])
  }

  ghost function Step(w: World, a: Action): World {
    match a
    case DoRegister(req) => RegisterStep(w, req)
    case DoHeartbeat(lease) => HeartbeatStep(w, lease)
    case DoUnregister(lease) => UnregisterStep(w, lease)
    case DoPush(req, nowIso) => PushStep(w, req, nowIso)
    case DoStart(r) => StartStep(w, r)
    case DoComplete(r, accepted) => CompleteStep(w, r, accepted)
    case DoGc => GcStep(w)
    case Advance(ms) => w.(now := w.now + ms)
    case Crash => CrashStep(w)
  }

  /** The state after a run: any list of actions, in any interleaving. */
  ghost function Run(w: World, run: seq<Action>): World {
    if run == [] then w else Step(Run(w, run[..|run| - 1]), run[|run| - 1])
  }

  lemma {:induction false} RunAppend(w: World, a: seq<Action>, b: seq<Action>)
    ensures Run(w, a + b) == Run(Run(w, a), b)
  {
    if b == [] {
      assert a + b == a;
    } else {
      assert (a + b)[..|a + b| - 1] == a + b[..|b| - 1];
      RunAppend(w, a, b[..|b| - 1]);
    }
  }

  /** No mail is put on a chain or taken off one; a crash drops the chains. */
  ghost predicate ChainsRest(w: World, w1: World, crash: bool) {
    && w1.st.chains == (if crash then map[] else w.st.chains)
    && w1 == w.(now := w1.now, st := w1.st, place := w1.place, holder := w1.holder, idOf := w1.idOf,
       seenAt := w1.seenAt)
  }

  lemma LeaseCallsRest(s: State<nat>, now: nat, lease: Token)
    ensures var s1 := Heartbeat(s, now, lease).0; s1.chains == s.chains && s1.mailbox == s.mailbox
    ensures var s1 := Unregister(s, now, lease).0; s1.chains == s.chains && s1.mailbox == s.mailbox
  {
  }

  lemma MarkSeenRests(w: World, st: State<nat>, id: string, seen: bool)
    ensures var w1 := MarkSeen(w, st, id, seen); w1.st == st && w1 == w.(st := st, seenAt := w1.seenAt)
  {
  }

  lemma HeartbeatRests(w: World, lease: Token)
    ensures var w1 := HeartbeatStep(w, lease);
            w1.st.chains == w.st.chains && w1.st.mailbox == w.st.mailbox && w1 == w.(st := w1.st, seenAt := w1.seenAt)
  {
    var (st, response) := Heartbeat(w.st, w.now, lease);
    LeaseCallsRest(w.st, w.now, lease);
    MarkSeenRests(w, st, IdBoundTo(w.st, lease), response.Renewed?);
  }

  lemma UnregisterRests(w: World, lease: Token)
    ensures var w1 := UnregisterStep(w, lease);
            w1.st.chains == w.st.chains && w1.st.mailbox == w.st.mailbox && w1 == w.(st := w1.st, seenAt := w1.seenAt)
  {
    var (st, response) := Unregister(w.st, w.now, lease);
    LeaseCallsRest(w.st, w.now, lease);
    MarkSeenRests(w, st, IdBoundTo(w.st, lease), response.Unregistered?);
  }

  lemma QuietSteps(w: World, a: Action)
    requires a.DoHeartbeat? || a.DoUnregister? || a.DoGc? || a.Advance? || a.Crash?
    ensures ChainsRest(w, Step(w, a), a.Crash?)
  {
    match a
    case DoHeartbeat(lease) => HeartbeatRests(w, lease);
    case DoUnregister(lease) => UnregisterRests(w, lease);
    case DoGc =>
    case Advance(_) =>
    case Crash =>
  }
}
