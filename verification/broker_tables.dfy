/** What the broker's tables always say about one another, whatever the mail is. */
module BrokerTables {
  import opened Wrappers
  import opened Identity
  import opened BrokerModel

  /** `participants` and `byId` are inverse to each other. */
  ghost predicate Inverse<M>(s: State<M>) {
    && (forall t :: t in s.participants ==>
          s.participants[t].participantId in s.byId && s.byId[s.participants[t].participantId] == t)
    && (forall id :: id in s.byId ==>
          s.byId[id] in s.participants && s.participants[s.byId[id]].participantId == id)
  }

  ghost predicate OneRecordPerSession<M>(s: State<M>) {
    forall t, u :: t in s.participants && u in s.participants ==>
      s.participants[t].sessionId == s.participants[u].sessionId ==> t == u
  }

  /** No two recent ids belong to one session, and a registered session's recent id is its own. */
  ghost predicate RecentAgrees<M>(s: State<M>) {
    && (forall x, y :: x in s.recent && y in s.recent && s.recent[x].sessionId == s.recent[y].sessionId ==> x == y)
    && (forall t, x :: t in s.participants && x in s.recent ==>
          (s.recent[x].sessionId == s.participants[t].sessionId <==> x == s.participants[t].participantId))
  }

  ghost predicate ChainsAgree<M>(s: State<M>) {
    && (forall t :: t in s.participants ==>
          && t in s.chains
          && s.chains[t].participantId == s.participants[t].participantId
          && s.chains[t].sessionId == s.participants[t].sessionId)
    && (forall t :: t in s.chains && s.chains[t].inFlight ==> s.chains[t].slots != [])
  }

  /** A queue is in the mailbox exactly while it has an entry, and every id in use is one that
      push validation accepts. */
  ghost predicate WellFormed<M>(s: State<M>) {
    && (forall h :: h in s.mailbox ==> s.mailbox[h] != [])
    && (forall id :: id in s.byId ==> IsParticipantId(id))
  }

  ghost predicate TablesOk<M>(s: State<M>) {
    Inverse(s) && OneRecordPerSession(s) && RecentAgrees(s) && ChainsAgree(s) && WellFormed(s)
  }

  ghost predicate IsNew<M>(s: State<M>, token: Token) {
    token !in s.participants && token !in s.chains
  }

  /** No registered record belongs to the session. */
  ghost predicate NotRegistered<M>(s: State<M>, sessionId: string) {
    forall t :: t in s.participants ==> s.participants[t].sessionId != sessionId
  }

  lemma InstallKeepsInverse<M>(s: State<M>, now: nat, token: Token, p: Profile, id: string)
    requires Inverse(s) && OneRecordPerSession(s) && token !in s.participants && NotRegistered(s, p.sessionId)
    requires id !in s.byId
    ensures var s1 := Install(s, now, token, p, id, false).0; Inverse(s1) && OneRecordPerSession(s1)
  {
  }

  lemma InstallKeepsRecent<M>(s: State<M>, now: nat, token: Token, p: Profile, id: string)
    requires Inverse(s) && RecentAgrees(s) && token !in s.participants && NotRegistered(s, p.sessionId)
    requires id !in s.byId
    ensures RecentAgrees(Install(s, now, token, p, id, false).0)
  {
    var s1 := Install(s, now, token, p, id, false).0;
    forall x | x in s1.recent
      ensures s1.recent[x].sessionId == p.sessionId <==> x == id
      ensures x != id ==> x in s.recent && s1.recent[x] == s.recent[x]
    {
    }
    forall t | t in s1.participants && t != token
      ensures s1.participants[t] == s.participants[t] && s1.participants[t].participantId != id
      ensures s1.participants[t].sessionId != p.sessionId
    {
    }
  }

  lemma InstallKeepsTables<M>(s: State<M>, now: nat, token: Token, p: Profile, id: string, reclaimed: bool)
    requires TablesOk(s) && IsNew(s, token) && IsParticipantId(id) && NotRegistered(s, p.sessionId)
    ensures TablesOk(Install(s, now, token, p, id, reclaimed).0)
  {
    if id !in s.byId {
      InstallKeepsInverse(s, now, token, p, id);
      InstallKeepsRecent(s, now, token, p, id);
      var s1 := Install(s, now, token, p, id, reclaimed).0;
      assert s1 == Install(s, now, token, p, id, false).0;
      assert ChainsAgree(s1);
      assert WellFormed(s1);
    }
  }

  /** Clearing the expired record of a session before it registers again. */
  lemma ClearKeepsTables<M>(s: State<M>, t: Token)
    requires TablesOk(s) && t in s.participants
    ensures TablesOk(s.(participants := s.participants - {t}, byId := s.byId - {s.participants[t].participantId}))
  {
  }

  lemma ReclaimKeepsTables<M>(s: State<M>, now: nat, token: Token, p: Profile, t: Token)
    requires TablesOk(s) && IsNew(s, token) && ProfileOk(p) && FindBySession(s.participants, p.sessionId) == Some(t)
    ensures TablesOk(Reclaim(s, now, token, p, t).0)
  {
    var prior := s.participants[t];
    var cleared := s.(participants := s.participants - {t}, byId := s.byId - {prior.participantId});
    var id := p.name.GetOr(prior.participantId);
    assert IsNew(cleared, token) && NotRegistered(cleared, p.sessionId) && IsParticipantId(id);
    ClearKeepsTables(s, t);
    hide TablesOk, Install;
    InstallKeepsTables(cleared, now, token, p, id, id == prior.participantId);
  }

  lemma EnrollKeepsTables<M>(s: State<M>, now: nat, token: Token, p: Profile)
    requires TablesOk(s) && IsNew(s, token) && ProfileOk(p) && NotRegistered(s, p.sessionId)
    ensures TablesOk(Enroll(s, now, token, p).0)
  {
    BuildParticipantIdFindsFreeId(s.byId.Keys, p.kind, p.short);
    hide TablesOk, Install, BuildParticipantId;
    var choice := if p.name.Some? then p.name else BuildParticipantId(s.byId.Keys, p.kind, p.short);
    if choice.Some? {
      InstallKeepsTables(s, now, token, p, choice.value, false);
    }
  }

  /** Every register keeps the tables in agreement, including the one that first deletes an
      expired record and then fails because the wanted name is taken. */
  lemma RegisterKeepsTables<M>(s: State<M>, now: nat, token: Token, req: RegisterRequest)
    requires TablesOk(s) && IsNew(s, token)
    ensures TablesOk(Register(s, now, token, req).0)
  {
    hide TablesOk, Validate, Reclaim, Enroll;
    if Validate(req).Success? {
      var p := Validate(req).value;
      ValidateGivesGoodProfile(req);
      match FindBySession(s.participants, p.sessionId)
      case Some(t) => ReclaimKeepsTables(s, now, token, p, t);
      case None => EnrollKeepsTables(s, now, token, p);
    }
  }

  lemma HeartbeatKeepsTables<M>(s: State<M>, now: nat, lease: Token)
    requires TablesOk(s)
    ensures TablesOk(Heartbeat(s, now, lease).0)
  {
    if lease in s.participants && LeaseValid(s.participants[lease], now) {
      var s1 := Heartbeat(s, now, lease).0;
      MarkKeepsRecent(s, s1, lease, now);
      assert Inverse(s1);
      assert OneRecordPerSession(s1);
    }
  }

  /** Marking a registered record as seen, while the records keep their ids and sessions or are
      removed, leaves the recent table in agreement. */
  lemma MarkKeepsRecent<M>(s: State<M>, s1: State<M>, t: Token, now: nat)
    requires RecentAgrees(s) && Inverse(s) && t in s.participants
    requires s1.recent == MarkRecent(s.recent, s.participants[t], now)
    requires forall u :: u in s1.participants ==>
               && u in s.participants
               && s1.participants[u].participantId == s.participants[u].participantId
               && s1.participants[u].sessionId == s.participants[u].sessionId
    requires OneRecordPerSession(s)
    ensures RecentAgrees(s1)
  {
    var id, session := s.participants[t].participantId, s.participants[t].sessionId;
    forall x | x in s1.recent
      ensures s1.recent[x].sessionId == session <==> x == id
      ensures x != id ==> x in s.recent && s1.recent[x] == s.recent[x]
    {
    }
    forall u | u in s1.participants && u != t
      ensures s.participants[u].participantId != id && s.participants[u].sessionId != session
    {
    }
  }

  lemma UnregisterKeepsTables<M>(s: State<M>, now: nat, lease: Token)
    requires TablesOk(s)
    ensures TablesOk(Unregister(s, now, lease).0)
  {
    if lease in s.participants {
      var s1 := Unregister(s, now, lease).0;
      MarkKeepsRecent(s, s1, lease, now);
      assert Inverse(s1);
      assert OneRecordPerSession(s1);
    }
  }

  lemma DispatchKeepsTables<M>(s: State<M>, now: nat, to: string, mail: M, dest: Destination)
    requires TablesOk(s)
    ensures TablesOk(Dispatch(s, now, to, mail, dest))
  {
    var s1 := Dispatch(s, now, to, mail, dest);
    assert s1.participants == s.participants && s1.byId == s.byId && s1.recent == s.recent;
    SameNamesAgree(s, s1);
    DispatchKeepsChains(s, now, to, mail, dest);
  }

  lemma DispatchKeepsChains<M>(s: State<M>, now: nat, to: string, mail: M, dest: Destination)
    requires ChainsAgree(s) && WellFormed(s)
    ensures ChainsAgree(Dispatch(s, now, to, mail, dest)) && WellFormed(Dispatch(s, now, to, mail, dest))
  {
  }

  lemma SameNamesAgree<M>(s: State<M>, s1: State<M>)
    requires TablesOk(s)
    requires s1.participants == s.participants && s1.byId == s.byId && s1.recent == s.recent
    ensures Inverse(s1) && OneRecordPerSession(s1) && RecentAgrees(s1)
  {
  }

  lemma StartKeepsTables<M>(s: State<M>, r: Token)
    requires TablesOk(s) && CanStart(s, r)
    ensures TablesOk(Start(s, r))
  {
    SameNamesAgree(s, Start(s, r));
    assert ChainsAgree(Start(s, r));
  }

  lemma CompleteKeepsChains<M>(s: State<M>, now: nat, r: Token, accepted: bool)
    requires ChainsAgree(s) && WellFormed(s) && CanComplete(s, r)
    ensures ChainsAgree(Complete(s, now, r, accepted)) && WellFormed(Complete(s, now, r, accepted))
  {
  }

  lemma CompleteKeepsNames<M>(s: State<M>, now: nat, r: Token, accepted: bool)
    requires CanComplete(s, r)
    ensures var s1 := Complete(s, now, r, accepted);
            s1.participants == s.participants && s1.byId == s.byId && s1.recent == s.recent
  {
  }

  lemma CompleteKeepsTables<M>(s: State<M>, now: nat, r: Token, accepted: bool)
    requires TablesOk(s) && CanComplete(s, r)
    ensures TablesOk(Complete(s, now, r, accepted))
  {
    hide Complete, Inverse, OneRecordPerSession, RecentAgrees, ChainsAgree, WellFormed;
    CompleteKeepsNames(s, now, r, accepted);
    SameNamesAgree(s, Complete(s, now, r, accepted));
    CompleteKeepsChains(s, now, r, accepted);
  }

  lemma GcKeepsTables<M>(s: State<M>, now: nat)
    requires TablesOk(s)
    ensures TablesOk(GcTick(s, now))
  {
  }

  lemma ReloadKeepsTables<M>(s: State<M>, now: nat)
    requires TablesOk(s)
    ensures TablesOk(Reload(s, now))
  {
  }

  // ---- reclaim ------------------------------------------------------------------------

  /** A session whose lease has expired but whose record is still there gets the same id back,
      when it asks for no name or for that very name and keeps its kind. */
  lemma ReclaimKeepsId<M>(s: State<M>, now: nat, token: Token, t: Token, req: RegisterRequest)
    requires TablesOk(s) && t in s.participants && !LeaseValid(s.participants[t], now)
    requires Validate(req).Success?
    requires Validate(req).value.sessionId == s.participants[t].sessionId
    requires Validate(req).value.kind == s.participants[t].kind
    requires Validate(req).value.name in {None, Some(s.participants[t].participantId)}
    ensures Register(s, now, token, req).1 ==
              Registered(s.participants[t].participantId, token, now + 75_000, true)
  {
    assert FindBySession(s.participants, Validate(req).value.sessionId) == Some(t);
  }

  /** A display name that is already a canonical handle is registered under exactly that id, so
      a peer that asks for its own id by name is asking for "the same name". */
  lemma HandleNamesItself(req: RegisterRequest, id: string)
    requires Validate(req).Success? && req.displayName == Text(id) && id != "" && IsCanonical(id)
    ensures Validate(req).value.name == Some(id)
  {
    Text.CollapseSpacesIsIdentityOnTight(id);
    Text.TrimIsIdentityOnTight(id);
    SlugIsIdentityOnCanonical(id);
    hide Text.CollapseSpaces, Text.Trim, Text.JsLength, Slug, IsKind, ParseDelivery, IsNamedId;
  }
}
