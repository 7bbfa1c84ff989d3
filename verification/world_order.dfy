/** Per-registration delivery order, over every run of the broker. */
module WorldOrder {
  import opened BrokerModel
  import opened BrokerTables
  import opened World
  import opened WorldTables

  /** The members of `xs` whose settled outcome is `wanted`, in order. */
  function Select(xs: seq<nat>, outcomes: seq<bool>, wanted: bool): seq<nat>
    requires |outcomes| <= |xs|
  {
    if outcomes == [] then []
    else
      var n := |outcomes| - 1;
      Select(xs, outcomes[..n], wanted) + (if outcomes[n] == wanted then [xs[n]] else [])
  }

  /** The part of a log that belongs to one registration. */
  function Project(log: seq<Event>, r: Token): seq<nat> {
    if log == [] then []
    else
      var n := |log| - 1;
      Project(log[..n], r) + (if log[n].token == r then [log[n].mail] else [])
  }

  lemma {:induction false} SelectIgnoresLaterMail(xs: seq<nat>, more: seq<nat>, outcomes: seq<bool>, wanted: bool)
    requires |outcomes| <= |xs|
    ensures Select(xs + more, outcomes, wanted) == Select(xs, outcomes, wanted)
  {
    if outcomes != [] {
      SelectIgnoresLaterMail(xs, more, outcomes[..|outcomes| - 1], wanted);
    }
  }

  lemma SelectSnoc(xs: seq<nat>, outcomes: seq<bool>, b: bool, wanted: bool)
    requires |outcomes| < |xs|
    ensures Select(xs, outcomes + [b], wanted)
         == Select(xs, outcomes, wanted) + (if b == wanted then [xs[|outcomes|]] else [])
  {
    assert (outcomes + [b])[..|outcomes|] == outcomes;
  }

  lemma ProjectSnoc(log: seq<Event>, e: Event, r: Token)
    ensures Project(log + [e], r) == Project(log, r) + (if e.token == r then [e.mail] else [])
  {
    assert (log + [e])[..|log|] == log;
  }

  lemma {:induction false} ProjectOfAbsent(log: seq<Event>, r: Token)
    requires forall e :: e in log ==> e.token != r
    ensures Project(log, r) == []
  {
    if log != [] {
      ProjectOfAbsent(log[..|log| - 1], r);
    }
  }

  // ---- the invariant ---------------------------------------------------------------------

  /** Forwards are dialled in plan order, and at most one is dialled and not settled. */
  ghost predicate InOrder(g: Registration) {
    && g.attempted <= g.plan
    && |g.results| <= |g.attempted| <= |g.results| + 1
  }

  /** What is left on a chain is the plan from the first unsettled forward on. */
  ghost predicate ChainFollowsPlan(c: Chain<nat>, g: Registration) {
    && InOrder(g)
    && c.participantId == g.participantId && c.sessionId == g.sessionId
    && SlotMails(c.slots) == g.plan[|g.results|..]
    && (c.inFlight <==> |g.attempted| == |g.results| + 1)
  }

  ghost predicate PlansOk(w: World) {
    && (forall r :: r in w.registrations ==> InOrder(w.registrations[r]))
    && (forall r :: r in w.st.chains ==>
          r in w.registrations && ChainFollowsPlan(w.st.chains[r], w.registrations[r]))
  }

  /** What the two logs say about one registration. */
  ghost predicate LogsSay(accepts: seq<Event>, reentries: seq<Event>, r: Token, g: Registration) {
    && |g.results| <= |g.plan|
    && Project(accepts, r) == Select(g.plan, g.results, true)
    && Project(reentries, r) == Select(g.plan, g.results, false)
  }

  /** The logs of accepted and of re-queued mail, seen from one registration, are its plan up to
      the first unsettled forward, split by outcome. */
  ghost predicate LogsOk(w: World) {
    && (forall r :: r in w.registrations ==>
          LogsSay(w.accepts, w.reentries, r, w.registrations[r]))
    && (forall e :: e in w.accepts || e in w.reentries ==> e.token in w.registrations)
  }

  ghost predicate OrderInv(w: World) { PlansOk(w) && LogsOk(w) }

  // ---- steps -------------------------------------------------------------------------------

  lemma SlotMailsOfFlush(q: seq<Entry<nat>>)
    ensures SlotMails(FlushSlots(q)) == EntryMails(q)
  {
  }

  lemma RegisterOrder(w: World, req: RegisterRequest, st: State<nat>, response: Response)
    requires TokensOk(w) && OrderInv(w) && response.Registered?
    requires RegisterOutcome(w.st, st, response, w.now, w.nextToken, req)
    ensures OrderInv(AfterRegister(w, req, st, response))
  {
    var w1 := AfterRegister(w, req, st, response);
    SlotMailsOfFlush(Unexpired(Queue(w.st.mailbox, SessionHash(Validate(req).value.sessionId)), w.now));
    RegisterPlans(w, w1, response.participantId, Validate(req).value);
    RegisterLogs(w, w1, w1.registrations[w.nextToken]);
  }

  lemma RegisterLogs(w: World, w1: World, g: Registration)
    requires LogsOk(w) && w.nextToken !in w.registrations && g.results == []
    requires w1.registrations == w.registrations[w.nextToken := g]
    requires w1.accepts == w.accepts && w1.reentries == w.reentries
    ensures LogsOk(w1)
  {
    ProjectOfAbsent(w.accepts, w.nextToken);
    ProjectOfAbsent(w.reentries, w.nextToken);
  }

  lemma RegisterPlans(w: World, w1: World, id: string, p: Profile)
    requires PlansOk(w) && TokensOk(w)
    requires w1.registrations == w.registrations[w.nextToken :=
               Registration(id, p.sessionId, Flushable(w, SessionHash(p.sessionId)), [], [])]
    requires exists slots, up ::
               SlotMails(slots) == Flushable(w, SessionHash(p.sessionId))
               && w1.st.chains == w.st.chains[w.nextToken := Chain(id, p.sessionId, up, slots, false)]
    ensures PlansOk(w1)
  {
  }

  lemma PushOrder(w: World, lease: Token, envelope: Envelope, dest: Destination)
    requires OrderInv(w) && (dest.Online? ==> dest.token in w.st.chains)
    ensures OrderInv(AfterPush(w, lease, envelope, dest))
  {
    var w1 := AfterPush(w, lease, envelope, dest);
    if dest.Online? {
      PushPlans(w, w1, dest.token, envelope.to, |w.pushes|);
      PushLogs(w, w1, dest.token, |w.pushes|);
    } else {
      SameChainsOrder(w, w1);
    }
  }

  lemma PushPlans(w: World, w1: World, r: Token, to: string, i: nat)
    requires PlansOk(w) && r in w.st.chains
    requires w1.st.chains == w.st.chains[r := w.st.chains[r].(slots := w.st.chains[r].slots + [Live(to, i)])]
    requires w1.registrations == w.registrations[r := w.registrations[r].(plan := w.registrations[r].plan + [i])]
    ensures PlansOk(w1)
  {
    var g, c := w.registrations[r], w.st.chains[r];
    var g1, c1 := w1.registrations[r], w1.st.chains[r];
    assert SlotMails(c1.slots) == SlotMails(c.slots) + [i];
    assert g1.plan[|g.results|..] == g.plan[|g.results|..] + [i];
  }

  lemma PushLogs(w: World, w1: World, r: Token, i: nat)
    requires LogsOk(w) && r in w.registrations
    requires w1.registrations == w.registrations[r := w.registrations[r].(plan := w.registrations[r].plan + [i])]
    requires w1.accepts == w.accepts && w1.reentries == w.reentries
    ensures LogsOk(w1)
  {
    var g := w.registrations[r];
    SelectIgnoresLaterMail(g.plan, [i], g.results, true);
    SelectIgnoresLaterMail(g.plan, [i], g.results, false);
  }

  lemma SameChainsOrder(w: World, w1: World)
    requires OrderInv(w)
    requires w1.st.chains == w.st.chains || w1.st.chains == map[]
    requires w1.registrations == w.registrations && w1.accepts == w.accepts && w1.reentries == w.reentries
    ensures OrderInv(w1)
  {
  }

  lemma NextAttempt(g: Registration, mail: nat)
    requires InOrder(g) && |g.attempted| == |g.results| < |g.plan| && g.plan[|g.results|] == mail
    ensures InOrder(g.(attempted := g.attempted + [mail]))
  {
    assert g.attempted + [mail] == g.plan[..|g.results| + 1];
  }

  lemma StartPlans(w: World, w1: World, r: Token)
    requires OrderInv(w) && CanStart(w.st, r) && r in w.registrations
    requires var g := w.registrations[r];
             && InOrder(g.(attempted := g.attempted + [w.st.chains[r].slots[0].mail]))
             && w1.registrations == w.registrations[r := g.(attempted := g.attempted + [w.st.chains[r].slots[0].mail])]
    requires w1.st.chains == w.st.chains[r := w.st.chains[r].(inFlight := true)]
    requires w1.accepts == w.accepts && w1.reentries == w.reentries
    ensures OrderInv(w1)
  {
  }

  lemma StartOrder(w: World, r: Token)
    requires OrderInv(w)
    ensures OrderInv(StartStep(w, r))
  {
    if CanStart(w.st, r) {
      var g, c := w.registrations[r], w.st.chains[r];
      assert SlotMails(c.slots)[0] == g.plan[|g.results|];
      NextAttempt(g, c.slots[0].mail);
      StartPlans(w, StartStep(w, r), r);
    }
  }

  /** The head of a chain is the first unsettled member of its plan. */
  lemma HeadOfPlan(c: Chain<nat>, g: Registration)
    requires ChainFollowsPlan(c, g) && c.slots != []
    ensures |g.results| < |g.plan| && g.plan[|g.results|] == c.slots[0].mail
    ensures SlotMails(c.slots[1..]) == g.plan[|g.results| + 1..]
  {
    assert SlotMails(c.slots)[0] == g.plan[|g.results|];
    assert SlotMails(c.slots[1..]) == SlotMails(c.slots)[1..];
  }

  lemma PlanOfChain(w: World, r: Token)
    requires PlansOk(w) && r in w.st.chains
    ensures r in w.registrations && ChainFollowsPlan(w.st.chains[r], w.registrations[r])
  {
  }

  lemma CompleteStepPlans(w: World, r: Token, reply: bool)
    requires PlansOk(w) && CanComplete(w.st, r)
    ensures PlansOk(CompleteStep(w, r, reply))
  {
    hide PlansOk, ChainFollowsPlan, SlotMails;
    PlanOfChain(w, r);
    HeadOfPlan(w.st.chains[r], w.registrations[r]);
    CompletePlans(w, CompleteStep(w, r, reply), r, reply && w.st.chains[r].reachable);
  }

  lemma CompleteStepLogs(w: World, r: Token, reply: bool)
    requires PlansOk(w) && LogsOk(w) && CanComplete(w.st, r)
    ensures LogsOk(CompleteStep(w, r, reply))
  {
    hide PlansOk, ChainFollowsPlan, LogsOk, Select, Complete;
    PlanOfChain(w, r);
    var g, c := w.registrations[r], w.st.chains[r];
    var accepted := reply && c.reachable;
    HeadOfPlan(c, g);
    SelectSnoc(g.plan, g.results, accepted, true);
    SelectSnoc(g.plan, g.results, accepted, false);
    CompleteLogs(w, CompleteStep(w, r, reply), r, c.slots[0].mail, accepted);
  }

  lemma CompleteOrder(w: World, r: Token, reply: bool)
    requires OrderInv(w)
    ensures OrderInv(CompleteStep(w, r, reply))
  {
    hide PlansOk, LogsOk, Complete;
    if CanComplete(w.st, r) {
      CompleteStepPlans(w, r, reply);
      CompleteStepLogs(w, r, reply);
    }
  }

  lemma CompletePlans(w: World, w1: World, r: Token, accepted: bool)
    requires PlansOk(w) && CanComplete(w.st, r)
    requires SlotMails(w.st.chains[r].slots[1..]) == w.registrations[r].plan[|w.registrations[r].results| + 1..]
    requires w1.st.chains == w.st.chains[r := w.st.chains[r].(slots := w.st.chains[r].slots[1..], inFlight := false)]
    requires w1.registrations == w.registrations[r := w.registrations[r]
             .(results := w.registrations[r].results + [accepted])]
    ensures PlansOk(w1)
  {
  }

  lemma SettledLogs(w: World, r: Token, g1: Registration, i: nat, accepted: bool, u: Token, g: Registration)
    requires LogsSay(w.accepts, w.reentries, u, g) && (u == r ==> g.plan == g1.plan && |g.results| < |g.plan|)
    requires u == r ==> g1.results == g.results + [accepted]
    requires u == r ==>
               Select(g.plan, g1.results, true) == Select(g.plan, g.results, true) + (if accepted then [i] else [])
    requires u == r ==>
               Select(g.plan, g1.results, false) == Select(g.plan, g.results, false) + (if accepted then [] else [i])
    ensures LogsSay(if accepted then w.accepts + [Event(r, i)] else w.accepts,
                    if accepted then w.reentries else w.reentries + [Event(r, i)], u, if u == r then g1 else g)
  {
    hide Project, Select;
    ProjectSnoc(w.accepts, Event(r, i), u);
    ProjectSnoc(w.reentries, Event(r, i), u);
    assert Project(w.accepts, u) + [] == Project(w.accepts, u)
           && Project(w.reentries, u) + [] == Project(w.reentries, u);
  }

  lemma CompleteLogs(w: World, w1: World, r: Token, i: nat, accepted: bool)
    requires LogsOk(w) && r in w.registrations
    requires |w.registrations[r].results| < |w.registrations[r].plan|
    requires w1.registrations == w.registrations[r := w.registrations[r]
             .(results := w.registrations[r].results + [accepted])]
    requires w1.accepts == if accepted then w.accepts + [Event(r, i)] else w.accepts
    requires w1.reentries == if accepted then w.reentries else w.reentries + [Event(r, i)]
    requires var g := w.registrations[r]; var g1 := w1.registrations[r];
             && Select(g.plan, g1.results, true) == Select(g.plan, g.results, true) + (if accepted then [i] else [])
             && Select(g.plan, g1.results, false) == Select(g.plan, g.results, false) + (if accepted then [] else [i])
    ensures LogsOk(w1)
  {
    hide Project, Select;
    forall u | u in w1.registrations
      ensures LogsSay(w1.accepts, w1.reentries, u, w1.registrations[u])
    {
      SettledLogs(w, r, w1.registrations[r], i, accepted, u, w.registrations[u]);
    }
  }

  lemma RegisterStepOrder(w: World, req: RegisterRequest)
    requires Inverse(w.st) && OneRecordPerSession(w.st) && TokensOk(w) && OrderInv(w)
    ensures OrderInv(RegisterStep(w, req))
  {
    RegisterEffect(w.st, w.now, w.nextToken, req);
    var (st, response) := Register(w.st, w.now, w.nextToken, req);
    if response.Registered? {
      RegisterOrder(w, req, st, response);
    } else {
      SameChainsOrder(w, AfterRegister(w, req, st, response));
    }
  }

  lemma PushStepOrder(w: World, req: PushRequest, nowIso: string)
    requires TokensOk(w) && OrderInv(w)
    ensures OrderInv(PushStep(w, req, nowIso))
  {
    var checked := CheckPush(w.st.participants, w.now, req);
    if checked.Success? {
      PushOrder(w, req.lease, MakeEnvelope(checked.value, req, nowIso), Route(w.st, w.now, req.to.text));
    }
  }

  lemma QuietStepOrder(w: World, a: Action)
    requires a.DoHeartbeat? || a.DoUnregister? || a.DoGc? || a.Advance? || a.Crash?
    requires OrderInv(w)
    ensures OrderInv(Step(w, a))
  {
    QuietSteps(w, a);
    SameChainsOrder(w, Step(w, a));
  }

  lemma StepKeepsOrder(w: World, a: Action)
    requires Inverse(w.st) && OneRecordPerSession(w.st) && TokensOk(w) && OrderInv(w)
    ensures OrderInv(Step(w, a))
  {
    match a
    case DoRegister(req) => RegisterStepOrder(w, req);
    case DoPush(req, nowIso) => PushStepOrder(w, req, nowIso);
    case DoStart(r) => StartOrder(w, r);
    case DoComplete(r, accepted) => CompleteOrder(w, r, accepted);
    case _ => QuietStepOrder(w, a);
  }

  lemma {:induction false} OrderInEveryRun(now: nat, run: seq<Action>)
    ensures TablesInv(Run(Start0(now), run)) && OrderInv(Run(Start0(now), run))
  {
    TablesAgreeInEveryRun(now, run);
    if run != [] {
      var init := run[..|run| - 1];
      OrderInEveryRun(now, init);
      StepKeepsOrder(Run(Start0(now), init), run[|run| - 1]);
    }
  }

  // ---- what it means for one registration ---------------------------------------------------

  /** `xs` is `ys` with some members left out: positions in `ys` that strictly increase. */
  ghost predicate PickedBy(xs: seq<nat>, ys: seq<nat>, at: seq<nat>) {
    && |at| == |xs|
    && (forall k :: 0 <= k < |at| ==> at[k] < |ys| && ys[at[k]] == xs[k])
    && (forall j, k :: 0 <= j < k < |at| ==> at[j] < at[k])
  }

  lemma PickedSnoc(xs: seq<nat>, ys: seq<nat>, at: seq<nat>, n: nat)
    requires PickedBy(xs, ys, at) && n < |ys| && forall k :: 0 <= k < |at| ==> at[k] < n
    ensures PickedBy(xs + [ys[n]], ys, at + [n])
  {
  }

  /** The places with the wanted outcome. */
  ghost predicate PlacesOf(at: seq<nat>, outcomes: seq<bool>, wanted: bool) {
    && (forall k :: 0 <= k < |at| ==> at[k] < |outcomes| && outcomes[at[k]] == wanted)
    && (forall n :: 0 <= n < |outcomes| && outcomes[n] == wanted ==> n in at)
  }

  lemma PlacesSnoc(at: seq<nat>, outcomes: seq<bool>, wanted: bool)
    requires outcomes != [] && PlacesOf(at, outcomes[..|outcomes| - 1], wanted)
    ensures var n := |outcomes| - 1; PlacesOf(if outcomes[n] == wanted then at + [n] else at, outcomes, wanted)
  {
    var n := |outcomes| - 1;
    assert (at + [n])[|at|] == n;
    forall m | 0 <= m < n && outcomes[m] == wanted
      ensures m in at && m in at + [n]
    {
      assert outcomes[..n][m] == wanted;
    }
  }

  lemma PickedStep(xs: seq<nat>, outcomes: seq<bool>, wanted: bool, at: seq<nat>)
    requires 0 < |outcomes| <= |xs|
    requires var n := |outcomes| - 1;
             PickedBy(Select(xs, outcomes[..n], wanted), xs, at) && PlacesOf(at, outcomes[..n], wanted)
    ensures var n := |outcomes| - 1;
            PickedBy(Select(xs, outcomes, wanted), xs, if outcomes[n] == wanted then at + [n] else at)
  {
    var n := |outcomes| - 1;
    var before := Select(xs, outcomes[..n], wanted);
    assert Select(xs, outcomes, wanted) == if outcomes[n] == wanted then before + [xs[n]] else before + [];
    assert before + [] == before;
    hide Select;
    if outcomes[n] == wanted {
      PickedSnoc(before, xs, at, n);
    }
  }

  lemma {:induction false} SelectIsPicked(xs: seq<nat>, outcomes: seq<bool>, wanted: bool) returns (at: seq<nat>)
    requires |outcomes| <= |xs|
    ensures PickedBy(Select(xs, outcomes, wanted), xs, at)
    ensures PlacesOf(at, outcomes, wanted)
  {
    hide PickedBy, PlacesOf, Select;
    if outcomes == [] {
      at := [];
      PickedNothing(xs, outcomes, wanted);
    } else {
      var n := |outcomes| - 1;
      at := SelectIsPicked(xs, outcomes[..n], wanted);
      PlacesSnoc(at, outcomes, wanted);
      PickedStep(xs, outcomes, wanted, at);
      at := if outcomes[n] == wanted then at + [n] else at;
    }
  }

  lemma PickedNothing(xs: seq<nat>, outcomes: seq<bool>, wanted: bool)
    requires outcomes == []
    ensures PickedBy(Select(xs, outcomes, wanted), xs, []) && PlacesOf([], outcomes, wanted)
  {
  }

  /** The order theorem. In every run, for every registration: the forwards dialled are a prefix
      of its plan, at most one of them is unsettled, and both the messages its adapter accepted
      and the messages that went back to the mailbox appear in plan order, each settled forward
      in exactly one of the two. */
  lemma DeliveryOrder(now: nat, run: seq<Action>, r: Token)
    requires r in Run(Start0(now), run).registrations
    ensures var w := Run(Start0(now), run);
            var g := w.registrations[r];
            && g.attempted <= g.plan
            && |g.results| <= |g.attempted| <= |g.results| + 1
            && (exists at :: PickedBy(Project(w.accepts, r), g.plan, at)
                             && forall n :: 0 <= n < |g.results| ==> (g.results[n] <==> n in at))
            && (exists at :: PickedBy(Project(w.reentries, r), g.plan, at)
                             && forall n :: 0 <= n < |g.results| ==> (!g.results[n] <==> n in at))
  {
    OrderInEveryRun(now, run);
    var w := Run(Start0(now), run);
    var g := w.registrations[r];
    var yes := SelectIsPicked(g.plan, g.results, true);
    assert PickedBy(Project(w.accepts, r), g.plan, yes);
    var no := SelectIsPicked(g.plan, g.results, false);
    assert PickedBy(Project(w.reentries, r), g.plan, no);
  }

  /** The plan starts with the unexpired mailbox of the session at registration, oldest first. */
  lemma PlanStartsWithMailbox(w: World, req: RegisterRequest)
    requires TablesInv(w) && Register(w.st, w.now, w.nextToken, req).1.Registered?
    ensures var w1 := RegisterStep(w, req);
            && w.nextToken in w1.registrations
            && w1.registrations[w.nextToken].sessionId == Validate(req).value.sessionId
            && w1.registrations[w.nextToken].plan
                 == EntryMails(Unexpired(Queue(w.st.mailbox, SessionHash(Validate(req).value.sessionId)), w.now))
            && SessionHash(Validate(req).value.sessionId) !in w1.st.mailbox
  {
    RegisterEffect(w.st, w.now, w.nextToken, req);
  }

  /** The live push a step routes to registration `r`, if it does. */
  ghost function RoutedLive(w: World, a: Action, r: Token): seq<nat> {
    if a.DoPush? && CheckPush(w.st.participants, w.now, a.request).Success?
       && Route(w.st, w.now, a.request.to.text) == Online(r)
    then [|w.pushes|] else []
  }

  /** After that a plan only grows at its end, by the live pushes routed to the registration. */
  lemma PlanOnlyGrows(w: World, a: Action, r: Token)
    requires TokensOk(w) && r in w.registrations
    ensures r in Step(w, a).registrations
    ensures Step(w, a).registrations[r].plan == w.registrations[r].plan + RoutedLive(w, a, r)
  {
    if a.DoPush? {
      var checked := CheckPush(w.st.participants, w.now, a.request);
      if checked.Success? {
        PushGrowsPlan(w, a.request.lease, MakeEnvelope(checked.value, a.request, a.nowIso),
                      Route(w.st, w.now, a.request.to.text), r);
      }
    } else {
      OtherStepsKeepPlan(w, a, r);
    }
  }

  /** The live pushes routed to registration `r` during a run, in the order their push steps ran. */
  ghost function LivePushes(w: World, run: seq<Action>, r: Token): seq<nat> {
    if run == [] then []
    else LivePushes(w, run[..|run| - 1], r) + RoutedLive(Run(w, run[..|run| - 1]), run[|run| - 1], r)
  }

  lemma {:induction false} PlanGrowsByLivePushes(w: World, run: seq<Action>, r: Token)
    requires TablesInv(w) && r in w.registrations
    ensures TablesInv(Run(w, run)) && r in Run(w, run).registrations
    ensures Run(w, run).registrations[r].plan == w.registrations[r].plan + LivePushes(w, run, r)
  {
    if run == [] {
      assert w.registrations[r].plan + [] == w.registrations[r].plan;
    } else {
      var init, a := run[..|run| - 1], run[|run| - 1];
      PlanGrowsByLivePushes(w, init, r);
      PlanOnlyGrows(Run(w, init), a, r);
      StepKeepsTables(Run(w, init), a);
      var plan, live := w.registrations[r].plan, LivePushes(w, init, r);
      assert plan + (live + RoutedLive(Run(w, init), a, r)) == (plan + live) + RoutedLive(Run(w, init), a, r);
    }
  }

  /** The plan of any registration, in any run: the unexpired mailbox of its session at the moment it
      registered, oldest first, and then the live pushes routed to it since, in order. */
  lemma PlanOfARegistration(now: nat, before: seq<Action>, req: RegisterRequest, after: seq<Action>)
    requires var w := Run(Start0(now), before); Register(w.st, w.now, w.nextToken, req).1.Registered?
    ensures var w := Run(Start0(now), before);
            var h := SessionHash(Validate(req).value.sessionId);
            var later := Run(Start0(now), before + [DoRegister(req)] + after);
            && w.nextToken in later.registrations
            && later.registrations[w.nextToken].plan
               == EntryMails(Unexpired(Queue(w.st.mailbox, h), w.now))
                  + LivePushes(RegisterStep(w, req), after, w.nextToken)
  {
    var w := Run(Start0(now), before);
    TablesAgreeInEveryRun(now, before);
    PlanStartsWithMailbox(w, req);
    StepKeepsTables(w, DoRegister(req));
    RunAppend(Start0(now), before + [DoRegister(req)], after);
    assert (before + [DoRegister(req)])[..|before|] == before;
    PlanGrowsByLivePushes(RegisterStep(w, req), after, w.nextToken);
  }

  lemma PushGrowsPlan(w: World, lease: Token, envelope: Envelope, dest: Destination, r: Token)
    requires r in w.registrations
    ensures var w1 := AfterPush(w, lease, envelope, dest);
            && r in w1.registrations && |w1.pushes| == |w.pushes| + 1
            && w1.registrations[r].plan == w.registrations[r].plan + (if dest == Online(r) then [|w.pushes|] else [])
  {
  }

  lemma OtherStepsKeepPlan(w: World, a: Action, r: Token)
    requires TokensOk(w) && r in w.registrations && !a.DoPush?
    ensures r in Step(w, a).registrations && Step(w, a).registrations[r].plan == w.registrations[r].plan
    ensures Step(w, a).pushes == w.pushes
  {
    hide RegisterStep, HeartbeatStep, UnregisterStep, PushStep, StartStep, CompleteStep, GcStep, CrashStep;
    match a
    case DoRegister(req) => RegisterKeepsPlan(w, req, r);
    case DoStart(u) => StartKeepsPlan(w, u, r);
    case DoComplete(u, reply) => CompleteKeepsPlan(w, u, reply, r);
    case _ => QuietSteps(w, a);
  }

  lemma RegisterKeepsPlan(w: World, req: RegisterRequest, r: Token)
    requires TokensOk(w) && r in w.registrations
    ensures var w1 := RegisterStep(w, req);
            r in w1.registrations && w1.registrations[r].plan == w.registrations[r].plan && w1.pushes == w.pushes
  {
  }

  lemma StartKeepsPlan(w: World, u: Token, r: Token)
    requires r in w.registrations
    ensures var w1 := StartStep(w, u);
            r in w1.registrations && w1.registrations[r].plan == w.registrations[r].plan && w1.pushes == w.pushes
  {
  }

  lemma CompleteKeepsPlan(w: World, u: Token, reply: bool, r: Token)
    requires r in w.registrations
    ensures var w1 := CompleteStep(w, u, reply);
            r in w1.registrations && w1.registrations[r].plan == w.registrations[r].plan && w1.pushes == w.pushes
  {
  }
}
