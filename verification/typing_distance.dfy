/** How far apart two typings of one message id are. The dedupe window remembers what it let
    through, not what was typed, so the answer depends on the terminal: whether a write can throw. */
module TypingDistance {
  import opened Wrappers
  import opened Sequences
  import opened Identity
  import opened BrokerModel
  import opened World
  import WorldPlaces
  import opened Composition
  import D = Dedupe
  import S = Sidecar
  import Z = Sanitizer

  /** What may happen to a session: the characters of a line whose write may throw, and whether the
      sidecar process may be started anew. */
  datatype Machine = Machine(breaks: nat -> bool, restarts: bool)

  /** The session whose sidecar reads a frame. */
  function Reader(s: System, f: nat): Option<string> {
    if f < |s.frames| && s.frames[f].token in s.w.registrations
    then Some(s.w.registrations[s.frames[f].token].sessionId) else None
  }

  predicate MoveFits(m: Machine, s: System, move: Move, session: string) {
    match move
    case Broker(_) => true
    case Read(f, _, failAt) => failAt.Some? && Reader(s, f) == Some(session) ==> m.breaks(failAt.value)
    case Restart(other) => other == session ==> m.restarts
  }

  /** The run is possible for a session on such a machine. Other sessions may have any other. */
  ghost predicate Fits(m: Machine, now: nat, moves: seq<Move>, session: string) {
    forall k :: 0 <= k < |moves| ==> MoveFits(m, SystemRun(now, moves[..k]), moves[k], session)
  }

  predicate SameId(w: World, i: nat, j: nat) {
    i < |w.pushes| && j < |w.pushes| && w.pushes[i].envelope.id == w.pushes[j].envelope.id
  }

  /** Two typings of one id have 256 typings of 256 other, different ids between them. */
  ghost predicate TypedApart(s: System, session: string) {
    var typed := TypedInto(s.typings, session);
    forall j, k :: 0 <= j < k < |typed| && SameId(s.w, typed[j], typed[k]) ==>
      k - j > 256 && DifferentIds(s.w, typed[k - 256..k + 1])
  }

  /** On this machine that holds for every session in every run. */
  ghost predicate KeepsApart(m: Machine) {
    forall now, moves, session :: Fits(m, now, moves, session) ==> TypedApart(SystemRun(now, moves), session)
  }

  // ---- when every admission is typed to the end ------------------------------------------------------

  predicate AllWhole(admitted: seq<Admission>) { forall k :: 0 <= k < |admitted| ==> admitted[k].whole }

  lemma {:induction false} WholeMailsOfAll(admitted: seq<Admission>)
    requires AllWhole(admitted)
    ensures |WholeMails(admitted)| == |admitted|
    ensures forall k :: 0 <= k < |admitted| ==> WholeMails(admitted)[k] == admitted[k].mail
  {
    if admitted != [] {
      WholeMailsOfAll(admitted[..|admitted| - 1]);
    }
  }

  /** In any run, when no line of the session broke off and its sidecar did not restart. */
  lemma TypedApartIfWhole(now: nat, moves: seq<Move>, session: string)
    requires Restart(session) !in moves && AllWhole(AdapterOf(SystemRun(now, moves), session).admitted)
    ensures TypedApart(SystemRun(now, moves), session)
  {
    hide SystemInv;
    var s := SystemRun(now, moves);
    var ad := AdapterOf(s, session);
    TypedAreWholeAdmissions(now, moves, session);
    WholeMailsOfAll(ad.admitted);
    AdapterIsOk(now, moves, session);
    AdmissionsNamed(s.w, session, ad);
    var typed := TypedInto(s.typings, session);
    forall j, k | 0 <= j < k < |typed| && SameId(s.w, typed[j], typed[k])
      ensures k - j > 256 && DifferentIds(s.w, typed[k - 256..k + 1])
    {
      assert ad.admitted[j] in ad.admitted && ad.admitted[k] in ad.admitted;
      FarApart(s.w, session, ad, j, k);
      DifferentMails(s.w, ad.admitted[k - 256..k + 1], typed[k - 256..k + 1]);
    }
  }

  lemma AdapterIsOk(now: nat, moves: seq<Move>, session: string)
    ensures AdapterOk(SystemRun(now, moves).w, session, AdapterOf(SystemRun(now, moves), session))
  {
    InvInEverySystemRun(now, moves);
    assert WireInv(SystemRun(now, moves));
  }

  lemma DifferentMails(w: World, admitted: seq<Admission>, mails: seq<nat>)
    requires Distinct(AdmittedIds(admitted)) && |mails| == |admitted|
    requires forall k :: 0 <= k < |admitted| ==>
               mails[k] == admitted[k].mail < |w.pushes| && w.pushes[mails[k]].envelope.id == admitted[k].id
    ensures DifferentIds(w, mails)
  {
    var ids := AdmittedIds(admitted);
    assert forall k :: 0 <= k < |ids| ==> ids[k] == w.pushes[mails[k]].envelope.id;
  }

  /** A machine whose writes never throw types every admission to the end. */
  lemma {:induction false} SmoothAdmissions(m: Machine, now: nat, moves: seq<Move>, session: string)
    requires Fits(m, now, moves, session) && !m.restarts && forall n :: !m.breaks(n)
    ensures Restart(session) !in moves && AllWhole(AdapterOf(SystemRun(now, moves), session).admitted)
  {
    hide SystemRun, ReadMove, BrokerMove;
    if moves == [] {
      NoMoves(now);
    } else {
      var init, last := moves[..|moves| - 1], moves[|moves| - 1];
      assert moves == init + [last];
      FitsInit(m, now, init, last, session);
      SmoothAdmissions(m, now, init, session);
      SystemSnoc(now, init, last);
      SmoothMove(m, SystemRun(now, init), last, session);
    }
  }

  lemma NoMoves(now: nat)
    ensures SystemRun(now, []) == System0(now)
  {
  }

  lemma FitsInit(m: Machine, now: nat, init: seq<Move>, last: Move, session: string)
    requires Fits(m, now, init + [last], session)
    ensures Fits(m, now, init, session) && MoveFits(m, SystemRun(now, init), last, session)
  {
    hide SystemRun, MoveFits;
    var moves := init + [last];
    assert forall k :: 0 <= k < |init| ==> init[..k] == moves[..k] && init[k] == moves[k];
    assert moves[..|init|] == init && moves[|init|] == last;
  }

  lemma SmoothMove(m: Machine, s: System, move: Move, session: string)
    requires MoveFits(m, s, move, session) && !m.restarts && forall n :: !m.breaks(n)
    requires AllWhole(AdapterOf(s, session).admitted)
    ensures move != Restart(session) && AllWhole(AdapterOf(MoveStep(s, move), session).admitted)
  {
    match move
    case Broker(a) => BrokerTypesNothing(s, a);
    case Read(f, authorized, failAt) => SmoothRead(s, f, authorized, failAt, session);
    case Restart(other) =>
  }

  lemma BrokerTypesNothing(s: System, a: Action)
    ensures BrokerMove(s, a).adapters == s.adapters
  {
    hide Step;
  }

  lemma SmoothRead(s: System, f: nat, authorized: bool, failAt: Option<nat>, session: string)
    requires AllWhole(AdapterOf(s, session).admitted) && (Reader(s, f) == Some(session) ==> failAt.None?)
    ensures AllWhole(AdapterOf(ReadMove(s, f, authorized, failAt), session).admitted)
  {
  }

  // ---- a run on a machine whose writes can throw -------------------------------------------------------

  const SESSION: string := "s"
  const SELF: string := "a:000000000000"

  /** One session registers with a socket. */
  const JOIN: RegisterRequest :=
    RegisterRequest(BrokerModel.Text("a"), BrokerModel.Text(SESSION), Absent, Absent,
                    DeliveryField(Trusted("/s"), Absent), "000000000000")

  /** Different message ids of one character. */
  function Name(k: nat): string
    requires k < 1000
  {
    [(0x100 + k) as char]
  }

  function Names(k: nat): seq<string>
    requires k < 1000
  {
    seq(k, i requires 0 <= i < k => Name(i))
  }

  /** A body of `n` characters more than one. */
  function Body(n: nat): string { seq(n + 1, _ => 'b') }

  function Request(id: string, n: nat): PushRequest {
    PushRequest(0, BrokerModel.Text(SELF), BrokerModel.Text(id), BrokerModel.Text(Body(n)), None, None, None, None)
  }

  /** The session pushes a message to itself, and the `k`-th forward is read and settles. */
  function Round(k: nat, id: string, n: nat, failAt: Option<nat>): seq<Move> {
    [Broker(DoPush(Request(id, n), ""))] + [Broker(DoStart(0))] + [Read(k, true, failAt)]
    + [Broker(DoComplete(0, true))]
  }

  /** Nothing is under way for the session, after `k` pushes. */
  ghost predicate Idle(s: System, k: nat) {
    && 0 in s.w.st.participants && LeaseValid(s.w.st.participants[0], s.w.now)
    && s.w.st.participants[0].participantId == SELF && SELF in s.w.st.byId && s.w.st.byId[SELF] == 0
    && 0 in s.w.registrations && s.w.registrations[0].sessionId == SESSION
    && 0 in s.w.st.chains && s.w.st.chains[0] == Chain(SELF, SESSION, true, [], false)
    && |s.w.pushes| == k && |s.frames| == k
  }

  lemma SelfIsAnId()
    ensures IsParticipantId(SELF)
  {
    assert SELF[1] == ':';
    assert IsHashedIdAt(SELF, 1);
  }

  lemma JoinIsIdle(now: nat)
    ensures var s := SystemRun(now, [Broker(DoRegister(JOIN))]);
            Idle(s, 0) && TypedInto(s.typings, SESSION) == [] && AdapterOf(s, SESSION) == Adapter([], [])
  {
    var s0 := System0(now);
    assert [Broker(DoRegister(JOIN))][..0] == [];
    assert SystemRun(now, []) == s0;
    hide Register, AfterRegister;
    JoinSucceeds(now);
    var (st, response) := Register(s0.w.st, now, 0, JOIN);
    AfterJoin(now, st, response);
    assert SystemRun(now, [Broker(DoRegister(JOIN))]) == s0.(w := AfterRegister(s0.w, JOIN, st, response));
  }

  lemma JoinIsValid()
    ensures Validate(JOIN).Success?
    ensures var p := Validate(JOIN).value;
            p.kind == "a" && p.sessionId == SESSION && p.name == None && Reachable(p.delivery)
            && p.short == "000000000000"
  {
    assert IsKind("a");
  }

  lemma JoinSucceeds(now: nat)
    ensures var (st, response) := Register(Init<nat>(), now, 0, JOIN);
            && response.Registered? && response.participantId == SELF
            && st.participants.Keys == {0} && LeaseValid(st.participants[0], now)
            && st.participants[0].participantId == SELF && st.byId == map[SELF := 0]
            && st.chains == map[0 := Chain(SELF, SESSION, true, [], false)]
  {
    hide Validate, BuildParticipantId;
    JoinIsValid();
    var s := Init<nat>();
    var p := Validate(JOIN).value;
    assert FindBySession(s.participants, p.sessionId) == None;
    SelfIsFirst();
    assert s.byId.Keys == {};
    assert Enroll(s, now, 0, p) == Install(s, now, 0, p, SELF, false);
    assert Register(s, now, 0, JOIN) == Install(s, now, 0, p, SELF, false);
    FirstInstall(now, p);
  }

  lemma FirstInstall(now: nat, p: Profile)
    requires p.sessionId == SESSION && Reachable(p.delivery)
    ensures var (st, response) := Install(Init<nat>(), now, 0, p, SELF, false);
            && response.Registered? && response.participantId == SELF
            && st.participants.Keys == {0} && LeaseValid(st.participants[0], now)
            && st.participants[0].participantId == SELF && st.byId == map[SELF := 0]
            && st.chains == map[0 := Chain(SELF, SESSION, true, [], false)]
  {
    var s := Init<nat>();
    assert SELF !in s.byId;
    assert Unexpired(Queue(s.mailbox, SessionHash(SESSION)), now) == [];
    assert FlushSlots<nat>([]) == [];
    assert s.participants == map[] && s.byId == map[] && s.chains == map[];
  }

  lemma SelfIsFirst()
    ensures BuildParticipantId({}, "a", "000000000000") == Some(SELF)
  {
    assert Candidate("a", "000000000000", 0) == SELF;
  }

  lemma AfterJoin(now: nat, st: State<nat>, response: Response)
    requires response.Registered? && response.participantId == SELF
    ensures var w1 := AfterRegister(Start0(now), JOIN, st, response);
            && w1.st == st && w1.now == now && w1.pushes == []
            && 0 in w1.registrations && w1.registrations[0].sessionId == SESSION
  {
    hide Validate;
    JoinIsValid();
  }

  lemma PushMove(s: System, k: nat, id: string, n: nat) returns (s1: System)
    requires Idle(s, k) && Text.JsLength(id) == 1
    ensures s1 == BrokerMove(s, DoPush(Request(id, n), ""))
    ensures s1 == s.(w := s1.w)
    ensures s1.w.now == s.w.now && |s1.w.pushes| == k + 1 && s1.w.pushes[..k] == s.w.pushes
    ensures s1.w.pushes[k].envelope == MakeEnvelope(SELF, Request(id, n), "")
    ensures s1.w.st.participants == s.w.st.participants && s1.w.st.byId == s.w.st.byId
    ensures 0 in s1.w.registrations && s1.w.registrations[0].sessionId == SESSION
    ensures 0 in s1.w.st.chains && s1.w.st.chains[0] == Chain(SELF, SESSION, true, [Live(SELF, k)], false)
  {
    SelfIsAnId();
    var req := Request(id, n);
    assert CheckPush(s.w.st.participants, s.w.now, req) == Success(SELF);
    assert Route(s.w.st, s.w.now, SELF) == Online(0);
    s1 := BrokerMove(s, DoPush(req, ""));
    assert s1.w == AfterPush(s.w, 0, MakeEnvelope(SELF, req, ""), Online(0));
  }

  lemma StartMove(s: System, k: nat) returns (s1: System)
    requires 0 in s.w.registrations && |s.frames| == k
    requires 0 in s.w.st.chains && s.w.st.chains[0] == Chain(SELF, SESSION, true, [Live(SELF, k)], false)
    ensures s1 == BrokerMove(s, DoStart(0))
    ensures s1 == s.(w := s1.w, frames := s.frames + [Frame(0, k, false, false)], dialled := s.dialled[0 := k])
    ensures s1.w.now == s.w.now && s1.w.pushes == s.w.pushes
    ensures s1.w.st.participants == s.w.st.participants && s1.w.st.byId == s.w.st.byId
    ensures 0 in s1.w.registrations && s1.w.registrations[0].sessionId == s.w.registrations[0].sessionId
    ensures 0 in s1.w.st.chains && s1.w.st.chains[0] == Chain(SELF, SESSION, true, [Live(SELF, k)], true)
  {
    s1 := BrokerMove(s, DoStart(0));
  }

  lemma SettleMove(s: System) returns (s1: System)
    requires 0 in s.w.registrations && 0 in s.w.st.chains && s.w.st.chains[0].inFlight && |s.w.st.chains[0].slots| == 1
    ensures s1 == BrokerMove(s, DoComplete(0, true))
    ensures s1 == s.(w := s1.w) && s1.w.now == s.w.now && s1.w.pushes == s.w.pushes
    ensures s1.w.st.participants == s.w.st.participants && s1.w.st.byId == s.w.st.byId
    ensures 0 in s1.w.registrations && s1.w.registrations[0].sessionId == s.w.registrations[0].sessionId
    ensures 0 in s1.w.st.chains && s1.w.st.chains[0] == s.w.st.chains[0].(slots := [], inFlight := false)
  {
    hide CompleteStep;
    s1 := BrokerMove(s, DoComplete(0, true));
    SettleStep(s.w, Replied(s, 0));
  }

  lemma SettleStep(w: World, reply: bool)
    requires 0 in w.registrations && 0 in w.st.chains && w.st.chains[0].inFlight && |w.st.chains[0].slots| == 1
    ensures var w1 := CompleteStep(w, 0, reply);
            && w1.now == w.now && w1.pushes == w.pushes
            && w1.st.participants == w.st.participants && w1.st.byId == w.st.byId
            && 0 in w1.registrations && w1.registrations[0].sessionId == w.registrations[0].sessionId
            && 0 in w1.st.chains && w1.st.chains[0] == w.st.chains[0].(slots := [], inFlight := false)
  {
    hide CompleteStep;
    WorldPlaces.CompleteEffect(w, 0, reply);
    SettleKeeps(w, reply);
  }

  lemma SettleKeeps(w: World, reply: bool)
    requires CanComplete(w.st, 0) && 0 in w.registrations
    ensures var w1 := CompleteStep(w, 0, reply);
            && w1.now == w.now && w1.st.participants == w.st.participants && w1.st.byId == w.st.byId
            && 0 in w1.registrations && w1.registrations[0].sessionId == w.registrations[0].sessionId
  {
  }

  /** The line of a message is longer than its body. */
  lemma LineIsLonger(id: string, n: nat)
    ensures |S.RenderEnvelope(RequestOf(MakeEnvelope(SELF, Request(id, n), ""), true))| > n
  {
    assert Z.IsClean(Body(n));
    Z.SanitizeIsIdentityOnClean(Body(n));
  }

  /** An id the window does not hold passes, and its line breaks off at character `n` or is typed. */
  lemma FreshRead(s: System, k: nat, id: string, n: nat, failAt: Option<nat>) returns (s1: System)
    requires k < |s.frames| && s.frames[k] == Frame(0, k, false, false) && k < |s.w.pushes|
    requires 0 in s.w.registrations && s.w.registrations[0].sessionId == SESSION && id != ""
    requires s.w.pushes[k].envelope == MakeEnvelope(SELF, Request(id, n), "")
    requires failAt in {None, Some(n)}
    requires var calls := AdapterOf(s, SESSION).calls; id !in D.Last(D.Misses(calls, 256), 256)
    ensures s1 == ReadMove(s, k, true, failAt) && s1.w == s.w && |s1.frames| == |s.frames|
    ensures AdapterOf(s1, SESSION).calls == AdapterOf(s, SESSION).calls + [id]
    ensures TypedInto(s1.typings, SESSION) == TypedInto(s.typings, SESSION) + (if failAt.None? then [k] else [])
  {
    hide D.Misses, D.Last;
    LineIsLonger(id, n);
    s1 := ReadMove(s, k, true, failAt);
    if failAt.None? {
      assert s1.typings[..|s.typings|] == s.typings;
    }
  }

  lemma SystemSnoc(now: nat, moves: seq<Move>, m: Move)
    ensures SystemRun(now, moves + [m]) == MoveStep(SystemRun(now, moves), m)
  {
    assert (moves + [m])[..|moves|] == moves;
  }

  lemma RoundRuns(now: nat, moves: seq<Move>, k: nat, id: string, n: nat, failAt: Option<nat>)
    ensures SystemRun(now, moves + Round(k, id, n, failAt))
            == var pushed := BrokerMove(SystemRun(now, moves), DoPush(Request(id, n), ""));
               BrokerMove(ReadMove(BrokerMove(pushed, DoStart(0)), k, true, failAt), DoComplete(0, true))
  {
    hide BrokerMove, ReadMove, SystemRun;
    var a, b, c, d := Broker(DoPush(Request(id, n), "")), Broker(DoStart(0)), Read(k, true, failAt),
      Broker(DoComplete(0, true));
    SystemSnoc(now, moves, a);
    SystemSnoc(now, moves + [a], b);
    SystemSnoc(now, moves + [a] + [b], c);
    SystemSnoc(now, moves + [a] + [b] + [c], d);
    assert moves + Round(k, id, n, failAt) == moves + [a] + [b] + [c] + [d];
  }

  /** A whole round for an id the window does not hold. */
  lemma FreshRound(now: nat, moves: seq<Move>, k: nat, id: string, n: nat, failAt: Option<nat>)
    requires Idle(SystemRun(now, moves), k) && Text.JsLength(id) == 1 && failAt in {None, Some(n)}
    requires var calls := AdapterOf(SystemRun(now, moves), SESSION).calls;
             id !in D.Last(D.Misses(calls, 256), 256)
    ensures var s, s1 := SystemRun(now, moves), SystemRun(now, moves + Round(k, id, n, failAt));
            && Idle(s1, k + 1) && |s1.w.pushes| == k + 1 && s1.w.pushes[..k] == s.w.pushes
            && s1.w.pushes[k].envelope.id == id
            && AdapterOf(s1, SESSION).calls == AdapterOf(s, SESSION).calls + [id]
            && TypedInto(s1.typings, SESSION)
               == TypedInto(s.typings, SESSION) + (if failAt.None? then [k] else [])
  {
    hide SystemRun, BrokerMove, ReadMove, D.Misses, D.Last, TypedInto;
    RoundRuns(now, moves, k, id, n, failAt);
    var s1 := PushMove(SystemRun(now, moves), k, id, n);
    var s2 := StartMove(s1, k);
    var s3 := FreshRead(s2, k, id, n, failAt);
    var s4 := SettleMove(s3);
  }

  lemma {:induction false} DistinctAreMisses(calls: seq<string>, n: nat)
    requires Distinct(calls)
    ensures D.Misses(calls, n) == calls
  {
    if calls != [] {
      var init, last := calls[..|calls| - 1], calls[|calls| - 1];
      assert calls == init + [last];
      DistinctSnoc(init, last);
      DistinctAreMisses(init, n);
    }
  }

  lemma NamesAreDistinct(k: nat)
    requires k < 1000
    ensures Distinct(Names(k)) && forall i :: k <= i < 1000 ==> Name(i) !in Names(k)
  {
    assert forall i, j :: 0 <= i < j < 1000 ==> Name(i)[0] != Name(j)[0];
  }

  lemma NewName(k: nat)
    requires k < 999
    ensures Names(k + 1) == Names(k) + [Name(k)] && Text.JsLength(Name(k)) == 1 && |Names(k)| == k
    ensures Name(k) !in D.Last(D.Misses(Names(k), 256), 256)
  {
    hide D.Misses;
    NamesAreDistinct(k);
    DistinctAreMisses(Names(k), 256);
  }

  /** Message 0 is typed and every later one, all under other ids, breaks off at character `n`. */
  function BrokenMoves(n: nat, k: nat): seq<Move>
    requires k < 999
  {
    if k == 0 then [Broker(DoRegister(JOIN))] + Round(0, Name(0), n, None)
    else BrokenMoves(n, k - 1) + Round(k, Name(k), n, Some(n))
  }

  lemma {:induction false} AfterBroken(now: nat, n: nat, k: nat)
    requires k < 999
    ensures var s := SystemRun(now, BrokenMoves(n, k));
            && Idle(s, k + 1) && |s.w.pushes| == k + 1 && s.w.pushes[0].envelope.id == Name(0)
            && AdapterOf(s, SESSION).calls == Names(k + 1) && TypedInto(s.typings, SESSION) == [0]
  {
    hide SystemRun, Idle, D.Misses, TypedInto, Name, Names, Round, Body;
    NewName(k);
    if k == 0 {
      JoinIsIdle(now);
      FreshRound(now, [Broker(DoRegister(JOIN))], 0, Name(0), n, None);
    } else {
      AfterBroken(now, n, k - 1);
      FreshRound(now, BrokenMoves(n, k - 1), k, Name(k), n, Some(n));
      var pushes := SystemRun(now, BrokenMoves(n, k)).w.pushes;
      assert pushes[0] == pushes[..k][0];
    }
  }

  /** 256 messages later the window has forgotten the first id, and it is typed once more. */
  function ForgottenMoves(n: nat): seq<Move> {
    BrokenMoves(n, 256) + Round(256 + 1, Name(0), n, None)
  }

  lemma FirstIsForgotten()
    ensures Name(0) !in D.Last(D.Misses(Names(256 + 1), 256), 256)
    ensures Text.JsLength(Name(0)) == 1
  {
    hide D.Misses;
    var names := Names(256 + 1);
    NamesAreDistinct(256 + 1);
    DistinctAreMisses(names, 256);
    assert names[0] == Name(0);
    assert D.Last(names, 256) == names[1..];
    assert forall i :: 1 <= i < |names| ==> names[i] != names[0];
  }

  /** The failing input: one id is typed twice into a session and nothing is typed in between. */
  lemma BrokenLinesAreForgotten(now: nat, n: nat)
    ensures var s := SystemRun(now, ForgottenMoves(n));
            && TypedInto(s.typings, SESSION) == [0, 256 + 1]
            && SameId(s.w, 0, 256 + 1) && !TypedApart(s, SESSION)
  {
    hide SystemRun, Idle, D.Misses, TypedInto, Name, Names, Round, Body, BrokenMoves;
    var k := 256 + 1;
    AfterBroken(now, n, 256);
    FirstIsForgotten();
    FreshRound(now, BrokenMoves(n, 256), k, Name(0), n, None);
    var pushes := SystemRun(now, ForgottenMoves(n)).w.pushes;
    assert pushes[0] == pushes[..k][0];
    TwiceInARow(SystemRun(now, ForgottenMoves(n)), 0, k);
  }

  lemma TwiceInARow(s: System, i: nat, j: nat)
    requires TypedInto(s.typings, SESSION) == [i] + [j] && SameId(s.w, i, j)
    ensures !TypedApart(s, SESSION)
  {
    var typed := TypedInto(s.typings, SESSION);
    assert SameId(s.w, typed[0], typed[1]);
  }

  /** A new sidecar process has an empty window. */
  function RestartMoves(): seq<Move> {
    BrokenMoves(0, 0) + [Restart(SESSION)] + Round(1, Name(0), 0, None)
  }

  lemma RestartForgets(now: nat)
    ensures !TypedApart(SystemRun(now, RestartMoves()), SESSION)
  {
    hide SystemRun, Idle, D.Misses, TypedInto, Name, Names, Round, Body, BrokenMoves;
    var before := BrokenMoves(0, 0);
    AfterBroken(now, 0, 0);
    SystemSnoc(now, before, Restart(SESSION));
    FirstIsForgotten();
    RestartIsIdle(SystemRun(now, before), SystemRun(now, before + [Restart(SESSION)]));
    FreshRound(now, before + [Restart(SESSION)], 1, Name(0), 0, None);
    var pushes := SystemRun(now, RestartMoves()).w.pushes;
    assert pushes[0] == pushes[..1][0];
    TwiceInARow(SystemRun(now, RestartMoves()), 0, 1);
  }

  lemma RestartIsIdle(s: System, s1: System)
    requires Idle(s, 1) && s1 == MoveStep(s, Restart(SESSION))
    ensures Idle(s1, 1) && s1.w == s.w && s1.typings == s.typings && AdapterOf(s1, SESSION) == Adapter([], [])
    ensures Name(0) !in D.Last(D.Misses([], 256), 256)
  {
  }

  // ---- the exact condition --------------------------------------------------------------------------

  /** Possible for every session in every state. */
  predicate AlwaysFits(m: Machine, move: Move) {
    && (move.Read? && move.failAt.Some? ==> m.breaks(move.failAt.value))
    && (move.Restart? ==> m.restarts)
  }

  lemma FitsAlways(m: Machine, now: nat, moves: seq<Move>, session: string)
    requires forall move :: move in moves ==> AlwaysFits(m, move)
    ensures Fits(m, now, moves, session)
  {
    forall k | 0 <= k < |moves|
      ensures MoveFits(m, SystemRun(now, moves[..k]), moves[k], session)
    {
      assert AlwaysFits(m, moves[k]);
    }
  }

  lemma {:induction false} BrokenFits(m: Machine, n: nat, k: nat)
    requires k < 999 && (k == 0 || m.breaks(n))
    ensures forall move :: move in BrokenMoves(n, k) ==> AlwaysFits(m, move)
  {
    if k > 0 {
      BrokenFits(m, n, k - 1);
    }
  }

  /** The exact condition. Two typings of one id always have 256 others between them if and only if
      writing to the terminal never throws and the sidecar is never started anew. */
  lemma TypingsOfOneIdAreFarApartIffSmooth(m: Machine)
    ensures KeepsApart(m) <==> !m.restarts && forall n :: !m.breaks(n)
  {
    hide TypedApart, Fits, SystemRun, BrokenMoves, TypedInto;
    if n: nat :| m.breaks(n) {
      BrokenFits(m, n, 256);
      FitsAlways(m, 0, ForgottenMoves(n), SESSION);
      BrokenLinesAreForgotten(0, n);
    } else if m.restarts {
      BrokenFits(m, 0, 0);
      FitsAlways(m, 0, RestartMoves(), SESSION);
      RestartForgets(0);
    } else {
      forall now, moves, session | Fits(m, now, moves, session)
        ensures TypedApart(SystemRun(now, moves), session)
      {
        SmoothAdmissions(m, now, moves, session);
        TypedApartIfWhole(now, moves, session);
      }
    }
  }
}
