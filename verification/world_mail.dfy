/** What a queue in the mailbox says about the past: the order in which failed forwards came back,
    and how long expired mail had been waiting. */
module WorldMail {
  import opened Wrappers
  import opened BrokerModel
  import opened World
  import opened WorldTables
  import opened WorldLeases
  import opened WorldOrder
  import opened WorldPlaces
  import opened WorldTheorems

  // ---- how a step moves a queue ------------------------------------------------------------------

  /** A push that did not wait in the mailbox joins the end of a queue now: a new one, or one whose
      forward has just failed. */
  ghost predicate Arrives(w: World, w1: World, e: Entry<nat>) {
    && e.queuedAt == w.now && w1.now == w.now
    && (e.mail in w.place ==> !w.place[e.mail].InMail?)
    && ((e.mail == |w.pushes| && w1.reentries == w.reentries)
        || exists r :: w1.reentries == w.reentries + [Event(r, e.mail)])
  }

  /** A queue stays, is filtered by age, leaves the mailbox, or gets one entry more. */
  ghost predicate QueueMoves(w: World, w1: World, q: seq<Entry<nat>>, q1: seq<Entry<nat>>) {
    || q1 == q || q1 == [] || q1 == Unexpired(q, w.now)
    || (q1 != [] && q1[..|q1| - 1] == q && Arrives(w, w1, q1[|q1| - 1]))
  }

  /** The log of re-queued mail stays, or gets one message that stood on a chain. */
  ghost predicate LogMoves(w: World, w1: World) {
    || w1.reentries == w.reentries
    || exists r, i: nat :: w1.reentries == w.reentries + [Event(r, i)] && i in w.place && w.place[i].InChain?
  }

  lemma RegisterQueues(w: World, req: RegisterRequest, h: SessionHash)
    requires TablesInv(w)
    ensures var w1 := RegisterStep(w, req);
            QueueMoves(w, w1, Queue(w.st.mailbox, h), Queue(w1.st.mailbox, h)) && w1.reentries == w.reentries
  {
    hide Register, Validate;
    RegisterEffect(w.st, w.now, w.nextToken, req);
  }

  lemma AfterPushQueues(w: World, lease: Token, envelope: Envelope, dest: Destination, h: SessionHash)
    requires PlacesInv(w)
    ensures var w1 := AfterPush(w, lease, envelope, dest);
            QueueMoves(w, w1, Queue(w.st.mailbox, h), Queue(w1.st.mailbox, h)) && w1.reentries == w.reentries
  {
    var w1 := AfterPush(w, lease, envelope, dest);
    var q, q1 := Queue(w.st.mailbox, h), Queue(w1.st.mailbox, h);
    if q1 != q {
      assert q1[..|q1| - 1] == q;
    }
  }

  lemma PushQueues(w: World, req: PushRequest, nowIso: string, h: SessionHash)
    requires PlacesInv(w)
    ensures var w1 := PushStep(w, req, nowIso);
            QueueMoves(w, w1, Queue(w.st.mailbox, h), Queue(w1.st.mailbox, h)) && w1.reentries == w.reentries
  {
    var checked := CheckPush(w.st.participants, w.now, req);
    if checked.Success? {
      AfterPushQueues(w, req.lease, MakeEnvelope(checked.value, req, nowIso), Route(w.st, w.now, req.to.text), h);
    }
  }

  lemma CompleteQueues(w: World, r: Token, reply: bool, h: SessionHash)
    requires PlacesInv(w)
    ensures var w1 := CompleteStep(w, r, reply);
            QueueMoves(w, w1, Queue(w.st.mailbox, h), Queue(w1.st.mailbox, h)) && LogMoves(w, w1)
  {
    if CanComplete(w.st, r) && r in w.registrations {
      var w1 := CompleteStep(w, r, reply);
      var i := w.st.chains[r].slots[0].mail;
      assert SlotMails(w.st.chains[r].slots)[0] == i;
      assert i in w.place && w.place[i] == InChain(r);
      CompleteEffect(w, r, reply);
      var q, q1 := Queue(w.st.mailbox, h), Queue(w1.st.mailbox, h);
      if q1 != q {
        assert q1[..|q1| - 1] == q;
        assert w1.reentries == w.reentries + [Event(r, i)];
      }
    }
  }

  lemma QuietQueues(w: World, a: Action, h: SessionHash)
    requires a.DoHeartbeat? || a.DoUnregister? || a.DoGc? || a.Advance? || a.Crash?
    ensures var w1 := Step(w, a);
            QueueMoves(w, w1, Queue(w.st.mailbox, h), Queue(w1.st.mailbox, h)) && w1.reentries == w.reentries
  {
    match a
    case DoHeartbeat(lease) => HeartbeatRests(w, lease);
    case DoUnregister(lease) => UnregisterRests(w, lease);
    case _ =>
  }

  lemma StepMovesQueue(w: World, a: Action, h: SessionHash)
    requires TablesInv(w) && PlacesInv(w)
    ensures QueueMoves(w, Step(w, a), Queue(w.st.mailbox, h), Queue(Step(w, a).st.mailbox, h))
            && LogMoves(w, Step(w, a))
  {
    match a
    case DoRegister(req) => RegisterQueues(w, req, h);
    case DoPush(req, nowIso) => PushQueues(w, req, nowIso, h);
    case DoStart(r) =>
    case DoComplete(r, reply) => CompleteQueues(w, r, reply, h);
    case _ => QuietQueues(w, a, h);
  }

  // ---- failed forwards come back in order -----------------------------------------------------------

  /** The last line of the log about message `i`; -1 when there is none. */
  function LastLine(log: seq<Event>, i: nat): (k: int)
    ensures -1 <= k < |log| && (k >= 0 ==> log[k].mail == i)
    ensures k == -1 ==> forall e :: e in log ==> e.mail != i
  {
    if log == [] then -1
    else if log[|log| - 1].mail == i then |log| - 1
    else LastLine(log[..|log| - 1], i)
  }

  /** When both came back from a failed forward, the first did so before the second. */
  predicate Before(log: seq<Event>, a: Entry<nat>, b: Entry<nat>) {
    LastLine(log, a.mail) >= 0 && LastLine(log, b.mail) >= 0 ==> LastLine(log, a.mail) < LastLine(log, b.mail)
  }

  ghost predicate Ordered(log: seq<Event>, q: seq<Entry<nat>>) {
    forall j, k :: 0 <= j < k < |q| ==> Before(log, q[j], q[k])
  }

  lemma OrderedSnoc(log: seq<Event>, q: seq<Entry<nat>>, e: Entry<nat>)
    ensures Ordered(log, q + [e]) <==> Ordered(log, q) && forall x :: x in q ==> Before(log, x, e)
  {
    var all := q + [e];
    assert forall k :: 0 <= k < |q| ==> all[k] == q[k];
    if Ordered(log, all) {
      assert forall k :: 0 <= k < |q| ==> Before(log, all[k], all[|q|]);
    }
  }

  lemma {:induction false} OrderedUnexpired(log: seq<Event>, q: seq<Entry<nat>>, now: nat)
    requires Ordered(log, q)
    ensures Ordered(log, Unexpired(q, now))
  {
    if q != [] {
      var init, last := q[..|q| - 1], q[|q| - 1];
      assert q == init + [last];
      OrderedSnoc(log, init, last);
      OrderedUnexpired(log, init, now);
      UnexpiredMembers(init, now);
      OrderedSnoc(log, Unexpired(init, now), last);
    }
  }

  lemma NewHasNoLine(log: seq<Event>, n: nat)
    requires forall e :: e in log ==> e.mail < n
    ensures LastLine(log, n) == -1
  {
    if log != [] {
      NewHasNoLine(log[..|log| - 1], n);
      assert log[|log| - 1] in log;
    }
  }

  lemma LastLineSnoc(log: seq<Event>, e: Event, i: nat)
    ensures LastLine(log + [e], i) == if e.mail == i then |log| else LastLine(log, i)
  {
    assert (log + [e])[..|log|] == log;
  }

  lemma OrderedInLongerLog(log: seq<Event>, e: Event, q: seq<Entry<nat>>)
    requires Ordered(log, q) && e.mail !in EntryMails(q)
    ensures Ordered(log + [e], q)
  {
    forall j, k | 0 <= j < k < |q|
      ensures Before(log + [e], q[j], q[k])
    {
      assert EntryMails(q)[j] != e.mail && EntryMails(q)[k] != e.mail;
      LastLineSnoc(log, e, q[j].mail);
      LastLineSnoc(log, e, q[k].mail);
      assert Before(log, q[j], q[k]);
    }
  }

  ghost predicate ReentriesOk(w: World) {
    && (forall h :: h in w.st.mailbox ==> Ordered(w.reentries, w.st.mailbox[h]))
    && (forall e :: e in w.reentries ==> e.mail < |w.pushes|)
  }

  lemma QueueStaysOrdered(w: World, w1: World, q: seq<Entry<nat>>, q1: seq<Entry<nat>>)
    requires Ordered(w.reentries, q) && QueueMoves(w, w1, q, q1) && LogMoves(w, w1)
    requires forall x :: x in EntryMails(q) ==> x in w.place && w.place[x].InMail?
    requires forall e :: e in w.reentries ==> e.mail < |w.pushes|
    ensures Ordered(w1.reentries, q1)
  {
    if w1.reentries == w.reentries {
      OrderedWithoutReentry(w, w1, q, q1);
    } else {
      var r, i: nat :| w1.reentries == w.reentries + [Event(r, i)] && i in w.place && w.place[i].InChain?;
      OrderedInLongerLog(w.reentries, Event(r, i), q);
      OrderedWithReentry(w, w1, q, q1, Event(r, i));
    }
  }

  lemma OrderedWithoutReentry(w: World, w1: World, q: seq<Entry<nat>>, q1: seq<Entry<nat>>)
    requires Ordered(w.reentries, q) && QueueMoves(w, w1, q, q1) && w1.reentries == w.reentries
    requires forall e :: e in w.reentries ==> e.mail < |w.pushes|
    ensures Ordered(w.reentries, q1)
  {
    OrderedUnexpired(w.reentries, q, w.now);
    if q1 != [] && q1[..|q1| - 1] == q && Arrives(w, w1, q1[|q1| - 1]) {
      var e := q1[|q1| - 1];
      assert q1 == q + [e];
      NewHasNoLine(w.reentries, |w.pushes|);
      OrderedSnoc(w.reentries, q, e);
    }
  }

  lemma OrderedWithReentry(w: World, w1: World, q: seq<Entry<nat>>, q1: seq<Entry<nat>>, event: Event)
    requires Ordered(w1.reentries, q) && QueueMoves(w, w1, q, q1) && w1.reentries == w.reentries + [event]
    requires event.mail !in EntryMails(q)
    ensures Ordered(w1.reentries, q1)
  {
    OrderedUnexpired(w1.reentries, q, w.now);
    if q1 != [] && q1[..|q1| - 1] == q && Arrives(w, w1, q1[|q1| - 1]) {
      var e := q1[|q1| - 1];
      assert q1 == q + [e];
      LastLineSnoc(w.reentries, event, e.mail);
      assert e.mail == event.mail;
      forall x | x in q
        ensures Before(w1.reentries, x, e)
      {
        var k :| 0 <= k < |q| && q[k] == x;
        assert EntryMails(q)[k] == x.mail;
        LastLineSnoc(w.reentries, event, x.mail);
      }
      OrderedSnoc(w1.reentries, q, e);
    }
  }

  lemma StepKeepsReentries(w: World, a: Action)
    requires Inv(w) && ReentriesOk(w)
    ensures ReentriesOk(Step(w, a))
  {
    var w1 := Step(w, a);
    forall h | h in w1.st.mailbox
      ensures Ordered(w1.reentries, w1.st.mailbox[h])
    {
      StepKeepsQueueOrder(w, a, h);
    }
    StepKeepsLogBound(w, a);
  }

  lemma StepKeepsQueueOrder(w: World, a: Action, h: SessionHash)
    requires TablesInv(w) && PlacesInv(w) && ReentriesOk(w)
    ensures Ordered(Step(w, a).reentries, Queue(Step(w, a).st.mailbox, h))
  {
    StepMovesQueue(w, a, h);
    QueueIsInMail(w, h);
    QueueStaysOrdered(w, Step(w, a), Queue(w.st.mailbox, h), Queue(Step(w, a).st.mailbox, h));
  }

  lemma QueueIsInMail(w: World, h: SessionHash)
    requires PlacesInv(w)
    ensures forall x :: x in EntryMails(Queue(w.st.mailbox, h)) ==> x in w.place && w.place[x].InMail?
  {
  }

  lemma StepKeepsLogBound(w: World, a: Action)
    requires Inv(w) && forall e :: e in w.reentries ==> e.mail < |w.pushes|
    ensures forall e :: e in Step(w, a).reentries ==> e.mail < |Step(w, a).pushes|
  {
    hide Step, Inv, QueueMoves;
    InvParts(w);
    StepMovesQueue(w, a, SessionHash(""));
    StepExtends(w, a);
  }

  lemma {:induction false} ReentriesInEveryRun(now: nat, run: seq<Action>)
    ensures Inv(Run(Start0(now), run)) && ReentriesOk(Run(Start0(now), run))
  {
    InvInEveryRun(now, run);
    if run != [] {
      ReentriesInEveryRun(now, run[..|run| - 1]);
      StepKeepsReentries(Run(Start0(now), run[..|run| - 1]), run[|run| - 1]);
    }
  }

  lemma {:induction false} ProjectAt(log: seq<Event>, k: nat)
    requires k < |log|
    ensures var r := log[k].token; var at := |Project(log[..k], r)|;
            at < |Project(log, r)| && Project(log, r)[at] == log[k].mail
            && at < |Project(log[..k + 1], r)| <= |Project(log, r)|
  {
    var init := log[..|log| - 1];
    if k == |init| {
      assert log[..k + 1] == log;
    } else {
      ProjectAt(init, k);
      assert init[..k] == log[..k] && init[..k + 1] == log[..k + 1];
    }
  }

  lemma {:induction false} ProjectGrows(log: seq<Event>, j: nat, k: nat, r: Token)
    requires j <= k <= |log|
    ensures |Project(log[..j], r)| <= |Project(log[..k], r)|
  {
    if j < k {
      ProjectGrows(log, j, k - 1, r);
      assert log[..k][..k - 1] == log[..k - 1];
    }
  }

  /** Two lines of the log by one registration stand in the order of its plan. */
  lemma LinesFollowPlan(w: World, j: nat, k: nat) returns (x: nat, y: nat)
    requires LogsOk(w) && j < k < |w.reentries| && w.reentries[j].token == w.reentries[k].token
    ensures w.reentries[j].token in w.registrations
    ensures var g := w.registrations[w.reentries[j].token];
            && x < y < |g.results| <= |g.plan| && !g.results[x] && !g.results[y]
            && g.plan[x] == w.reentries[j].mail && g.plan[y] == w.reentries[k].mail
  {
    var log := w.reentries;
    var r := log[j].token;
    assert log[j] in log;
    var g := w.registrations[r];
    ProjectAt(log, j);
    ProjectAt(log, k);
    ProjectGrows(log, j + 1, k, r);
    var at := SelectIsPicked(g.plan, g.results, false);
    x, y := at[|Project(log[..j], r)|], at[|Project(log[..k], r)|];
  }

  /** In every run, two entries of one queue that came back last from failed forwards of the same
      registration stand in the order of its plan: failures never reorder mail. */
  lemma RequeuedInPlanOrder(now: nat, run: seq<Action>, h: SessionHash, j: nat, k: nat) returns (x: nat, y: nat)
    requires var w := Run(Start0(now), run);
             && h in w.st.mailbox && j < k < |w.st.mailbox[h]|
             && var a, b := LastLine(w.reentries, w.st.mailbox[h][j].mail),
                LastLine(w.reentries, w.st.mailbox[h][k].mail);
                a >= 0 && b >= 0 && w.reentries[a].token == w.reentries[b].token
    ensures var w := Run(Start0(now), run);
            var r := w.reentries[LastLine(w.reentries, w.st.mailbox[h][j].mail)].token;
            && r in w.registrations && x < y < |w.registrations[r].results| <= |w.registrations[r].plan|
            && !w.registrations[r].results[x] && !w.registrations[r].results[y]
            && w.registrations[r].plan[x] == w.st.mailbox[h][j].mail
            && w.registrations[r].plan[y] == w.st.mailbox[h][k].mail
  {
    ReentriesInEveryRun(now, run);
    var w := Run(Start0(now), run);
    var a, b := LastLine(w.reentries, w.st.mailbox[h][j].mail), LastLine(w.reentries, w.st.mailbox[h][k].mail);
    assert Before(w.reentries, w.st.mailbox[h][j], w.st.mailbox[h][k]);
    x, y := LinesFollowPlan(w, a, b);
  }

  // ---- expiry ------------------------------------------------------------------------------------------

  /** When push `i` last joined a queue of the mailbox. */
  ghost function QueuedAt(now: nat, run: seq<Action>, i: nat): Option<nat> {
    if run == [] then None
    else
      var w, w1 := Run(Start0(now), run[..|run| - 1]), Run(Start0(now), run);
      if i in w1.place && w1.place[i].InMail? && !(i in w.place && w.place[i].InMail?) then Some(w1.now)
      else QueuedAt(now, run[..|run| - 1], i)
  }

  lemma EntryOrigin(w: World, w1: World, q: seq<Entry<nat>>, q1: seq<Entry<nat>>, e: Entry<nat>)
    requires QueueMoves(w, w1, q, q1) && e in q1
    ensures e in q || Arrives(w, w1, e)
  {
    UnexpiredMembers(q, w.now);
    if q1 != [] && q1[..|q1| - 1] == q && Arrives(w, w1, q1[|q1| - 1]) {
      assert q1 == q + [q1[|q1| - 1]];
    }
  }

  lemma MailIsThere(w: World, h: SessionHash, e: Entry<nat>)
    requires PlacesInv(w) && e in Queue(w.st.mailbox, h)
    ensures e.mail in w.place && w.place[e.mail] == InMail(h)
  {
    MailOfEntry(w.st.mailbox[h], e);
  }

  lemma {:induction false} StampsInEveryRun(now: nat, run: seq<Action>, h: SessionHash, e: Entry<nat>)
    requires e in Queue(Run(Start0(now), run).st.mailbox, h)
    ensures QueuedAt(now, run, e.mail) == Some(e.queuedAt)
  {
    InvInEveryRun(now, run);
    MailIsThere(Run(Start0(now), run), h, e);
    if run != [] {
      var init, a := run[..|run| - 1], run[|run| - 1];
      var w := Run(Start0(now), init);
      InvInEveryRun(now, init);
      StepMovesQueue(w, a, h);
      EntryOrigin(w, Step(w, a), Queue(w.st.mailbox, h), Queue(Step(w, a).st.mailbox, h), e);
      if e in Queue(w.st.mailbox, h) {
        MailIsThere(w, h, e);
        StampsInEveryRun(now, init, h, e);
      }
    }
  }

  /** A message expires in a step only out of a queue, by an entry past its time to live. */
  ghost predicate ExpiresBy(w: World, i: nat, e: Entry<nat>) {
    && i in w.place && w.place[i].InMail? && e.mail == i
    && e in Queue(w.st.mailbox, w.place[i].hash) && !IsFresh(e, w.now)
  }

  lemma MailOfEntry(q: seq<Entry<nat>>, e: Entry<nat>)
    ensures e in q ==> e.mail in EntryMails(q)
  {
    if k :| 0 <= k < |q| && q[k] == e {
      assert EntryMails(q)[k] == e.mail;
    }
  }

  lemma NotKeptIsStale(w: World, i: nat)
    requires PlacesInv(w) && i in w.place && w.place[i].InMail?
    requires i !in EntryMails(Unexpired(Queue(w.st.mailbox, w.place[i].hash), w.now))
    ensures exists e :: ExpiresBy(w, i, e)
  {
    var q := Queue(w.st.mailbox, w.place[i].hash);
    var k :| 0 <= k < |q| && EntryMails(q)[k] == i;
    UnexpiredMembers(q, w.now);
    MailOfEntry(Unexpired(q, w.now), q[k]);
    assert ExpiresBy(w, i, q[k]);
  }

  lemma StepExpires(w: World, a: Action, i: nat)
    requires TablesInv(w) && PlacesInv(w) && i in Step(w, a).place && Step(w, a).place[i] == Expired
    ensures i in w.place
    ensures w.place[i] == Expired || exists e :: ExpiresBy(w, i, e)
  {
    match a
    case DoRegister(req) => RegisterExpires(w, req, i);
    case DoPush(req, nowIso) => PushExpires(w, req, nowIso, i);
    case DoStart(r) =>
    case DoComplete(r, reply) =>
    case DoHeartbeat(lease) => HeartbeatRests(w, lease);
    case DoUnregister(lease) => UnregisterRests(w, lease);
    case Advance(_) =>
    case _ => PruneExpires(w, i, a.Crash?);
  }

  lemma RegisterExpires(w: World, req: RegisterRequest, i: nat)
    requires TablesInv(w) && PlacesInv(w) && i in RegisterStep(w, req).place && RegisterStep(w, req).place[i] == Expired
    ensures i in w.place && (w.place[i] == Expired || exists e :: ExpiresBy(w, i, e))
  {
    if w.place[i] != Expired {
      NotKeptIsStale(w, i);
    }
  }

  lemma PushExpires(w: World, req: PushRequest, nowIso: string, i: nat)
    requires PlacesInv(w) && i in PushStep(w, req, nowIso).place && PushStep(w, req, nowIso).place[i] == Expired
    ensures i in w.place && w.place[i] == Expired
  {
    var checked := CheckPush(w.st.participants, w.now, req);
    hide PlacesInv, Route, Dispatch, AfterPush;
    if checked.Success? {
      AfterPushExpires(w, req.lease, MakeEnvelope(checked.value, req, nowIso), Route(w.st, w.now, req.to.text), i);
    }
  }

  lemma AfterPushExpires(w: World, lease: Token, envelope: Envelope, dest: Destination, i: nat)
    requires i in AfterPush(w, lease, envelope, dest).place && AfterPush(w, lease, envelope, dest).place[i] == Expired
    ensures i in w.place && w.place[i] == Expired
  {
  }

  lemma PruneExpires(w: World, i: nat, crash: bool)
    requires PlacesInv(w) && i in w.place && Pruned(w.place, w.st, w.now, crash)[i] == Expired
    ensures w.place[i] == Expired || exists e :: ExpiresBy(w, i, e)
  {
    if w.place[i].InMail? {
      NotKeptIsStale(w, i);
    }
  }

  /** In every run, expired mail had been in the mailbox for at least five minutes since it last came
      there: nothing is dropped early under the name of expiry. */
  lemma {:induction false} ExpiredMailHadItsTime(now: nat, run: seq<Action>, i: nat)
    requires i in Run(Start0(now), run).place && Run(Start0(now), run).place[i] == Expired
    ensures QueuedAt(now, run, i).Some? && QueuedAt(now, run, i).value + 300_000 <= Run(Start0(now), run).now
  {
    if run != [] {
      var init, a := run[..|run| - 1], run[|run| - 1];
      var w := Run(Start0(now), init);
      InvInEveryRun(now, init);
      StepExpires(w, a, i);
      StepKeepsClock(w, a);
      if w.place[i] == Expired {
        ExpiredMailHadItsTime(now, init, i);
      } else {
        var e :| ExpiresBy(w, i, e);
        StampsInEveryRun(now, init, w.place[i].hash, e);
      }
    }
  }
}
