/** The broker process: its tables as fields that the handlers update in place
    (broker/broker.js). Every method is proved against the functions of BrokerModel, whose
    consequences over whole runs are in the World modules. */
module BrokerProcess {
  import opened Wrappers
  import opened Text
  import opened Identity
  import opened Lines
  import opened BrokerModel
  import opened Json
  import opened MailboxFiles

  /** A participant record. Its delivery chain hangs on the object itself. */
  class Participant {
    const leaseToken: Token
    const participantId: string
    const kind: string
    const sessionId: string
    const displayName: Option<string>
    const description: Option<string>
    const delivery: Option<Delivery>
    const registeredAt: nat
    var lastHeartbeat: nat
    var leaseExpiresAt: nat
    var links: seq<Slot<Envelope>>  // links of the delivery chain that have not settled
    var inFlight: bool              // the first of them has been dialled

    constructor (token: Token, p: Profile, id: string, now: nat)
      ensures leaseToken == token && Rec() == NewRecord(p, id, now) && links == [] && !inFlight
    {
      leaseToken, participantId, kind, sessionId := token, id, p.kind, p.sessionId;
      displayName, description, delivery := p.displayName, p.description, p.delivery;
      registeredAt, lastHeartbeat, leaseExpiresAt := now, now, now + LEASE_TTL_MS;
      links, inFlight := [], false;
    }

    function Rec(): Record
      reads this
    {
      Record(participantId, kind, sessionId, displayName, description, delivery,
             registeredAt, lastHeartbeat, leaseExpiresAt)
    }

    function ToChain(): Chain<Envelope>
      reads this
    {
      Chain(participantId, sessionId, Reachable(delivery), links, inFlight)
    }

    /** enqueueDelivery */
    method EnqueueDelivery(slot: Slot<Envelope>)
      modifies this`links
      ensures links == old(links) + [slot]
    {
      links := links + [slot];
    }

    /** renewLease */
    method RenewLease(now: nat)
      modifies this`leaseExpiresAt, this`lastHeartbeat
      ensures leaseExpiresAt == now + LEASE_TTL_MS && lastHeartbeat == now
    {
      leaseExpiresAt := now + LEASE_TTL_MS;
      lastHeartbeat := now;
    }
  }

  datatype PushOutcome = Answered(response: Response) | Waiting(recipient: Token)

  class Broker {
    const codec: MailCodec
    var participants: map<Token, Participant>
    var byId: map<string, Token>
    var recent: map<string, Recent>
    var mailbox: map<SessionHash, seq<Entry<Envelope>>>
    var files: map<SessionHash, string>
    ghost var objects: map<Token, Participant>  // every record some chain may still refer to

    ghost function Records(): map<Token, Record>
      reads this`participants, this`objects, objects.Values
    {
      map t | t in participants && t in objects :: objects[t].Rec()
    }

    ghost function Chains(): map<Token, Chain<Envelope>>
      reads this`objects, objects.Values
    {
      map t | t in objects :: objects[t].ToChain()
    }

    /** The tables as a value of the model. */
    ghost function Tables(): State<Envelope>
      reads this, objects.Values
    {
      State(Records(), byId, recent, mailbox, Chains())
    }

    ghost predicate Wired()
      reads this`participants, this`objects, objects.Values
    {
      && (forall t :: t in participants ==> t in objects && participants[t] == objects[t])
      && (forall t :: t in objects ==> objects[t].leaseToken == t)
    }

    /** One record per session, no empty queue, and the mailbox directory holds exactly the
        in-memory queues. */
    ghost predicate Valid()
      reads this, objects.Values
    {
      && Wired()
      && (forall t, u :: t in participants && u in participants ==>
            participants[t].sessionId == participants[u].sessionId ==> t == u)
      && (forall h :: h in mailbox ==> mailbox[h] != [])
      && files == Mirror(codec, mailbox)
    }

    constructor (codec: MailCodec)
      ensures Valid() && Tables() == Init() && this.codec == codec
    {
      this.codec := codec;
      participants, byId, recent, mailbox, files, objects := map[], map[], map[], map[], map[], map[];
    }

    /** Only the lease of one registered record has changed. */
    twostate lemma LeaseChanged(t: Token)
      requires old(Wired()) && participants == old(participants) && objects == old(objects) && t in participants
      requires forall u :: u in objects && u != t ==> unchanged(objects[u])
      requires objects[t].ToChain() == old(objects[t].ToChain())
      ensures Wired() && Records() == old(Records())[t := objects[t].Rec()] && Chains() == old(Chains())
    {
    }

    /** Only the chain of one record has changed. */
    twostate lemma ChainChanged(t: Token)
      requires old(Wired()) && participants == old(participants) && objects == old(objects) && t in objects
      requires forall u :: u in objects && u != t ==> unchanged(objects[u])
      requires objects[t].Rec() == old(objects[t].Rec())
      ensures Wired() && Records() == old(Records()) && Chains() == old(Chains())[t := objects[t].ToChain()]
    {
    }

    // ---- small helpers ------------------------------------------------------------------

    method FindParticipantBySessionId(sessionId: string) returns (r: Option<Token>)
      requires Valid()
      ensures r == FindBySession(Tables().participants, sessionId)
      ensures r.None? ==> forall t :: t in participants ==> participants[t].sessionId != sessionId
    {
      var todo := participants.Keys;
      r := None;
      while todo != {}
        invariant todo <= participants.Keys
        invariant forall t :: t in participants && t !in todo ==> participants[t].sessionId != sessionId
        decreases todo
      {
        var t :| t in todo;
        assert t in Tables().participants && Tables().participants[t] == participants[t].Rec();
        if participants[t].sessionId == sessionId {
          return Some(t);
        }
        todo := todo - {t};
      }
      assert forall t :: t in Tables().participants ==> Tables().participants[t].sessionId == participants[t].sessionId;
    }

    method BuildId(kind: string, short: ShortId) returns (r: Option<string>)
      ensures r == BuildParticipantId(byId.Keys, kind, short)
    {
      var base := Base(kind, short);
      if base !in byId {
        return Some(base);
      }
      var i := 0;
      while i < 10
        invariant 0 <= i <= 10
        invariant BuildParticipantId(byId.Keys, kind, short) == FirstFree(byId.Keys, kind, short, i + 1)
      {
        var candidate := base + [DigitChar(i)];
        if candidate !in byId {
          return Some(candidate);
        }
        i := i + 1;
      }
      r := None;
    }

    method DeleteRecentAliases(sessionId: string, keep: string)
      modifies this`recent
      ensures recent == WithoutAliases(old(recent), sessionId, keep)
      ensures forall id :: id in recent <==> id in old(recent) && (id == keep || old(recent)[id].sessionId != sessionId)
      ensures forall id :: id in recent ==> recent[id] == old(recent)[id]
    {
      var todo := recent.Keys;
      while todo != {}
        invariant todo <= recent.Keys
        invariant forall id :: id in recent ==> id in old(recent) && recent[id] == old(recent)[id]
        invariant forall id :: id in old(recent) && id !in todo ==>
                    (id in recent <==> old(recent)[id].sessionId != sessionId || id == keep)
        invariant forall id :: id in todo ==> id in recent
        decreases todo
      {
        var id :| id in todo;
        todo := todo - {id};
        if recent[id].sessionId == sessionId && id != keep {
          recent := recent - {id};
        }
      }
    }

    method RewriteMailboxFile(h: SessionHash)
      requires h in mailbox ==> mailbox[h] != []
      modifies this`files
      ensures files == if h in mailbox then old(files)[h := FileText(codec, mailbox[h])] else old(files) - {h}
    {
      if h !in mailbox {
        files := files - {h};
        return;
      }
      var queue := mailbox[h];
      var text := codec.encode(queue[0]);
      var i := 1;
      while i < |queue|
        invariant 1 <= i <= |queue|
        invariant text == Join(PrintAll(codec, queue)[..i])
      {
        assert PrintAll(codec, queue)[..i + 1][..i] == PrintAll(codec, queue)[..i];
        text := text + "\n" + codec.encode(queue[i]);
        i := i + 1;
      }
      assert PrintAll(codec, queue)[..|queue|] == PrintAll(codec, queue);
      files := files[h := text + "\n"];
    }

    method EnqueueMailbox(h: SessionHash, participantId: string, envelope: Envelope, now: nat)
      requires files == Mirror(codec, mailbox)
      requires forall g :: g in mailbox ==> mailbox[g] != []
      modifies this`mailbox, this`files
      ensures mailbox == old(mailbox)[h := Queue(old(mailbox), h) + [Entry(participantId, envelope, now)]]
      ensures files == Mirror(codec, mailbox)
    {
      var queue := if h in mailbox then mailbox[h] else [];
      mailbox := mailbox[h := queue + [Entry(participantId, envelope, now)]];
      RewriteMailboxFile(h);
    }

    // ---- forwards -------------------------------------------------------------------------

    /** The chain of a record reaches its next link. */
    method StartForward(p: Participant)
      requires Valid() && p in objects.Values && p.links != [] && !p.inFlight
      modifies p`inFlight
      ensures Valid() && Tables() == Start(old(Tables()), p.leaseToken)
    {
      p.inFlight := true;
      ChainChanged(p.leaseToken);
    }

    /** The head link leaves the chain. */
    method PopLink(p: Participant) returns (head: Slot<Envelope>)
      requires Wired() && p in objects.Values && p.links != []
      modifies p`links, p`inFlight
      ensures Wired() && head == old(p.links)[0]
      ensures Records() == old(Records())
      ensures Chains() == old(Chains())[p.leaseToken := old(p.ToChain())
              .(slots := old(p.links)[1..], inFlight := false)]
      ensures Tables() == old(Tables()).(chains := Chains())
    {
      head := p.links[0];
      p.links := p.links[1..];
      p.inFlight := false;
      ChainChanged(p.leaseToken);
    }

    /** The head forward settles with the adapter's reply; a sender that waits is answered. */
    method CompleteForward(p: Participant, reply: bool, reason: string, now: nat) returns (answer: Option<Response>)
      requires Valid() && p in objects.Values && p.links != [] && p.inFlight
      modifies p`links, p`inFlight, this`mailbox, this`files
      ensures Valid()
      ensures Tables() == Complete(old(Tables()), now, p.leaseToken, reply && Reachable(p.delivery))
      ensures answer == ForwardAnswer(old(p.links)[0], reply && Reachable(p.delivery), reason)
    {
      var head := Settle(p, reply && Reachable(p.delivery), now);
      answer := ForwardAnswer(head, reply && Reachable(p.delivery), reason);
    }

    method Settle(p: Participant, accepted: bool, now: nat) returns (head: Slot<Envelope>)
      requires Valid() && p in objects.Values && CanComplete(Tables(), p.leaseToken)
      modifies p`links, p`inFlight, this`mailbox, this`files
      ensures Wired() && files == Mirror(codec, mailbox)
      ensures Tables() == Complete(old(Tables()), now, p.leaseToken, accepted)
      ensures head == old(p.links)[0]
    {
      CompleteByTable(Tables(), now, p.leaseToken, accepted);
      head := PopLink(p);
      if !accepted {
        Requeue(SessionHash(p.sessionId), head, now);
      }
    }

    method Requeue(h: SessionHash, head: Slot<Envelope>, now: nat)
      requires files == Mirror(codec, mailbox) && forall g :: g in mailbox ==> mailbox[g] != []
      modifies this`mailbox, this`files
      ensures Tables() == old(Tables()).(mailbox := mailbox) && files == Mirror(codec, mailbox)
      ensures mailbox == old(mailbox)[h := Queue(old(mailbox), h) + [Entry(head.to, head.mail, now)]]
    {
      EnqueueMailbox(h, head.to, head.mail, now);
    }

    // ---- heartbeat and unregister ------------------------------------------------------------

    method Renew(p: Participant, now: nat)
      requires Wired() && p.leaseToken in participants && participants[p.leaseToken] == p
      modifies this`recent, p`leaseExpiresAt, p`lastHeartbeat
      ensures Wired() && Chains() == old(Chains())
      ensures Records() == old(Records())[p.leaseToken := old(p.Rec())
              .(leaseExpiresAt := now + LEASE_TTL_MS, lastHeartbeat := now)]
      ensures recent == MarkRecent(old(recent), p.Rec(), now)
    {
      p.RenewLease(now);
      recent := MarkRecent(recent, p.Rec(), now);
      LeaseChanged(p.leaseToken);
    }

    method HandleHeartbeat(lease: Token, now: nat) returns (r: Response)
      requires Valid()
      modifies this`recent, objects.Values
      ensures Valid() && objects == old(objects)
      ensures Tables() == Heartbeat(old(Tables()), now, lease).0 && r == Heartbeat(old(Tables()), now, lease).1
    {
      if lease !in participants {
        r := Error("invalid_lease");
      } else if !LeaseValid(participants[lease].Rec(), now) {
        r := Error("lease_expired");
      } else {
        Renew(participants[lease], now);
        r := Renewed(participants[lease].leaseExpiresAt);
      }
    }

    method HandleUnregister(lease: Token, now: nat) returns (r: Response)
      requires Valid()
      modifies this`participants, this`byId, this`recent
      ensures Valid()
      ensures Tables() == Unregister(old(Tables()), now, lease).0 && r == Unregister(old(Tables()), now, lease).1
    {
      if lease !in participants {
        r := Error("invalid_lease");
      } else {
        Remove(lease, now);
        r := Unregistered;
      }
    }

    /** One record has left the table. */
    twostate lemma RecordRemoved(t: Token)
      requires old(Wired()) && participants == old(participants) - {t} && objects == old(objects)
      requires forall u :: u in objects ==> unchanged(objects[u])
      ensures Wired() && Records() == old(Records()) - {t} && Chains() == old(Chains())
    {
    }

    method Remove(lease: Token, now: nat)
      requires Wired() && lease in participants
      modifies this`participants, this`byId, this`recent
      ensures Wired() && participants == old(participants) - {lease}
      ensures Tables() == Unregister(old(Tables()), now, lease).0
    {
      var p := participants[lease];
      participants := participants - {lease};
      if p.participantId in byId && byId[p.participantId] == lease {
        byId := byId - {p.participantId};
      }
      recent := MarkRecent(recent, p.Rec(), now);
      RecordRemoved(lease);
    }

    // ---- push ----------------------------------------------------------------------------------

    /** handlePush from the look-up of the recipient to its `await`. */
    method Deliver(to: string, envelope: Envelope, now: nat) returns (dest: Destination)
      requires Valid()
      modifies this`mailbox, this`files, objects.Values
      ensures Valid() && objects == old(objects)
      ensures dest == Route(old(Tables()), now, to)
      ensures Tables() == Dispatch(old(Tables()), now, to, envelope, dest)
    {
      hide LeaseValid, Mirror;
      if to in byId && byId[to] in participants && LeaseValid(participants[byId[to]].Rec(), now) {
        participants[byId[to]].EnqueueDelivery(Live(to, envelope));
        ChainChanged(byId[to]);
        dest := Online(byId[to]);
      } else if to in recent {
        EnqueueMailbox(SessionHash(recent[to].sessionId), to, envelope, now);
        dest := Offline(recent[to].sessionId);
      } else {
        dest := Unknown;
      }
    }

    /** handlePush up to its `await`. The envelope's `from` is the id bound to the lease. */
    method HandlePush(req: PushRequest, now: nat, nowIso: string) returns (r: PushOutcome)
      requires Valid()
      modifies this`mailbox, this`files, objects.Values
      ensures Valid() && objects == old(objects)
      ensures match CheckPush(old(Tables()).participants, now, req)
              case Failure(code) => r == Answered(Error(code)) && Tables() == old(Tables())
              case Success(from) =>
                var dest := Route(old(Tables()), now, req.to.text);
                && Tables() == Dispatch(old(Tables()), now, req.to.text, MakeEnvelope(from, req, nowIso), dest)
                && r == match RouteAnswer(from, dest)
                        case None => Waiting(dest.token)
                        case Some(response) => Answered(response)
    {
      if req.lease !in participants || !LeaseValid(participants[req.lease].Rec(), now) {
        r := Answered(Error("invalid_or_expired_lease"));
      } else if !(req.to.Text? && IsParticipantId(req.to.text)) {
        r := Answered(Error("invalid_to_participant_id"));
      } else if !(req.id.Text? && 1 <= JsLength(req.id.text) <= 128) {
        r := Answered(Error("invalid_message_id"));
      } else if !(req.body.Text? && req.body.text != "") {
        r := Answered(Error("invalid_message_body"));
      } else {
        var from := participants[req.lease].participantId;
        var dest := Deliver(req.to.text, MakeEnvelope(from, req, nowIso), now);
        match dest
        case Online(t) => r := Waiting(t);
        case Offline(_) => r := Answered(Queued(from, "recipient_offline"));
        case Unknown => r := Answered(Failed(from, "no_such_participant"));
      }
    }

    // ---- register --------------------------------------------------------------------------------

    /** enqueueMailboxFlushOnRegister */
    method FlushMailbox(p: Participant, now: nat)
      requires files == Mirror(codec, mailbox) && forall h :: h in mailbox ==> mailbox[h] != []
      modifies this`mailbox, this`files, p`links
      ensures mailbox == old(mailbox) - {SessionHash(p.sessionId)} && files == Mirror(codec, mailbox)
      ensures p.links == old(p.links) + FlushSlots(Unexpired(Queue(old(mailbox), SessionHash(p.sessionId)), now))
      ensures old(p.links) == [] ==>
              p.links == FlushSlots(Unexpired(Queue(old(mailbox), SessionHash(p.sessionId)), now))
    {
      var h := SessionHash(p.sessionId);
      if h in mailbox {
        var queue := mailbox[h];
        mailbox := mailbox - {h};
        RewriteMailboxFile(h);
        var i := 0;
        assert p.links + FlushSlots(Unexpired(queue[..0], now)) == p.links;
        while i < |queue|
          invariant 0 <= i <= |queue|
          invariant p.links == old(p.links) + FlushSlots(Unexpired(queue[..i], now))
          modifies p`links
        {
          assert queue[..i + 1][..i] == queue[..i];
          if now - queue[i].queuedAt < MAILBOX_TTL_MS {
            FlushSlotsSnoc(Unexpired(queue[..i], now), queue[i]);
            p.EnqueueDelivery(Flushed(queue[i].participantId, queue[i].mail));
          }
          i := i + 1;
        }
        assert queue[..|queue|] == queue;
      }
    }

    /** The new record enters the tables, its chain still empty. */
    method AddRecord(token: Token, profile: Profile, id: string, now: nat) returns (p: Participant)
      requires Wired() && token !in objects
      modifies this`participants, this`byId, this`recent, this`objects
      ensures Wired() && fresh(p) && p.leaseToken == token
      ensures p.ToChain() == Chain(id, profile.sessionId, Reachable(profile.delivery), [], false)
      ensures objects == old(objects)[token := p] && participants == old(participants)[token := p]
      ensures Records() == old(Records())[token := NewRecord(profile, id, now)]
      ensures Chains() == old(Chains())[token := Chain(id, profile.sessionId, Reachable(profile.delivery), [], false)]
      ensures byId == old(byId)[id := token]
      ensures recent == MarkRecent(WithoutAliases(old(recent), profile.sessionId, id), NewRecord(profile, id, now), now)
    {
      p := new Participant(token, profile, id, now);
      participants := participants[token := p];
      objects := objects[token := p];
      byId := byId[id := token];
      DeleteRecentAliases(profile.sessionId, id);
      recent := MarkRecent(recent, p.Rec(), now);
      RecordAdded(token);
    }

    /** The flush, seen from the tables. */
    method FlushOntoChain(p: Participant, now: nat)
      requires Wired() && p.leaseToken in objects && objects[p.leaseToken] == p && p.links == []
      requires files == Mirror(codec, mailbox) && forall h :: h in mailbox ==> mailbox[h] != []
      modifies this`mailbox, this`files, p`links
      ensures Wired() && files == Mirror(codec, mailbox)
      ensures mailbox == old(mailbox) - {SessionHash(p.sessionId)}
      ensures Records() == old(Records())
      ensures Chains() == old(Chains())[p.leaseToken :=
                Chain(p.participantId, p.sessionId, Reachable(p.delivery),
                      FlushSlots(Unexpired(Queue(old(mailbox), SessionHash(p.sessionId)), now)), p.inFlight)]
    {
      FlushMailbox(p, now);
      ChainChanged(p.leaseToken);
    }

    /** The second half of handleRegister, for an id that is free. */
    method AdmitFree(token: Token, profile: Profile, id: string, now: nat)
      requires Wired() && token !in objects && id !in byId
      requires files == Mirror(codec, mailbox) && forall h :: h in mailbox ==> mailbox[h] != []
      modifies this
      ensures Wired() && token in participants && participants[token].sessionId == profile.sessionId
      ensures participants == old(participants)[token := participants[token]]
      ensures files == Mirror(codec, mailbox)
      ensures InstallParts(old(Tables()), Tables(), now, token, profile, id)
    {
      var p := AddRecord(token, profile, id, now);
      ghost var slots := FlushSlots(Unexpired(Queue(mailbox, SessionHash(profile.sessionId)), now));
      UpdateTwice(old(Chains()), token, p.ToChain(), p.ToChain().(slots := slots));
      FlushOntoChain(p, now);
    }

    method Admit(token: Token, profile: Profile, id: string, reclaimed: bool, now: nat) returns (r: Response)
      requires Valid() && token !in objects
      requires forall t :: t in participants ==> participants[t].sessionId != profile.sessionId
      modifies this
      ensures Valid()
      ensures Tables() == Install(old(Tables()), now, token, profile, id, reclaimed).0
      ensures r == Install(old(Tables()), now, token, profile, id, reclaimed).1
    {
      if id in byId {
        r := Error("participant_id_in_use");
      } else {
        AdmitFree(token, profile, id, now);
        PartsMakeInstall(old(Tables()), Tables(), now, token, profile, id, reclaimed);
        r := Registered(id, token, now + LEASE_TTL_MS, reclaimed);
      }
    }

    /** One record has been added, the others are as before. */
    twostate lemma RecordAdded(t: Token)
      requires old(Wired()) && t !in old(objects) && t in objects && t in participants && participants[t] == objects[t]
      requires participants == old(participants)[t := participants[t]] && objects == old(objects)[t := objects[t]]
      requires forall u :: u in old(objects) ==> unchanged(old(objects)[u])
      requires objects[t].leaseToken == t
      ensures Wired() && Records() == old(Records())[t := objects[t].Rec()]
      ensures Chains() == old(Chains())[t := objects[t].ToChain()]
    {
    }

    method ReclaimSession(t: Token, profile: Profile, token: Token, now: nat) returns (r: Response)
      requires Valid() && token !in objects
      requires t in participants && participants[t].sessionId == profile.sessionId
      modifies this
      ensures Valid()
      ensures Tables() == Reclaim(old(Tables()), now, token, profile, t).0
      ensures r == Reclaim(old(Tables()), now, token, profile, t).1
    {
      hide Install, Mirror, LeaseValid;
      var prior := participants[t];
      if prior.kind != profile.kind {
        r := Error("kind_mismatch_for_sessionId");
      } else if LeaseValid(prior.Rec(), now) {
        r := Error("session_lease_active");
      } else {
        participants := participants - {t};
        byId := byId - {prior.participantId};
        RecordRemoved(t);
        var id := profile.name.GetOr(prior.participantId);
        r := Admit(token, profile, id, id == prior.participantId, now);
      }
    }

    method EnrollSession(profile: Profile, token: Token, now: nat) returns (r: Response)
      requires Valid() && token !in objects
      requires forall t :: t in participants ==> participants[t].sessionId != profile.sessionId
      modifies this
      ensures Valid()
      ensures Tables() == Enroll(old(Tables()), now, token, profile).0
      ensures r == Enroll(old(Tables()), now, token, profile).1
    {
      var id := profile.name;
      if id.None? {
        id := BuildId(profile.kind, profile.short);
      }
      if id.None? {
        r := Error("internal");
      } else {
        r := Admit(token, profile, id.value, false, now);
      }
    }

    method HandleRegister(req: RegisterRequest, token: Token, now: nat) returns (r: Response)
      requires Valid() && token !in objects
      modifies this
      ensures Valid()
      ensures Tables() == Register(old(Tables()), now, token, req).0
      ensures r == Register(old(Tables()), now, token, req).1
    {
      hide Validate, Reclaim, Enroll, Mirror;
      var validated := Validate(req);
      match validated
      case Failure(code) =>
        r := Error(code);
      case Success(profile) =>
        var existing := FindParticipantBySessionId(profile.sessionId);
        match existing
        case Some(t) => r := ReclaimSession(t, profile, token, now);
        case None => r := EnrollSession(profile, token, now);
    }

    // ---- garbage collection ------------------------------------------------------------------------

    /** The record of `t` has passed its collection time. */
    ghost predicate Stale(records: map<Token, Record>, t: Token, now: nat) {
      t in records && Collectable(records[t], now)
    }

    method CollectRecords(now: nat)
      requires Wired()
      modifies this`participants, this`byId
      ensures Wired()
      ensures participants == map t | t in old(participants) && !Stale(old(Records()), t, now) :: old(participants)[t]
      ensures byId == KeptIds(old(Records()), old(byId), now)
    {
      hide Collectable, LeaseValid, KeptIds;
      ghost var records := Records();
      var todo := participants.Keys;
      while todo != {}
        invariant todo <= participants.Keys
        invariant forall t :: t in participants ==> t in old(participants) && participants[t] == old(participants)[t]
        invariant forall t :: t in old(participants) && t !in todo ==> (t in participants <==> !Stale(records, t, now))
        invariant forall id :: id in byId ==> id in old(byId) && byId[id] == old(byId)[id]
        invariant forall id :: id in old(byId) ==>
                    (id in byId <==> !(Stale(records, old(byId)[id], now) && old(byId)[id] !in todo
                                       && records[old(byId)[id]].participantId == id))
        decreases todo
      {
        var t :| t in todo;
        todo := todo - {t};
        CollectOne(t, now);
      }
      KeptIdsReached(records, old(byId), byId, now);
    }

    lemma KeptIdsReached(records: map<Token, Record>, before: map<string, Token>, after: map<string, Token>, now: nat)
      requires forall id :: id in after ==> id in before && after[id] == before[id]
      requires forall id :: id in before ==>
                 (id in after <==> !(Stale(records, before[id], now) && records[before[id]].participantId == id))
      ensures after == KeptIds(records, before, now)
    {
    }

    method CollectOne(t: Token, now: nat)
      requires Wired() && t in participants
      modifies this`participants, this`byId
      ensures Wired()
      ensures participants == if Stale(old(Records()), t, now) then old(participants) - {t} else old(participants)
      ensures byId == if Stale(old(Records()), t, now) && old(participants)[t].participantId in old(byId)
                         && old(byId)[old(participants)[t].participantId] == t
                      then old(byId) - {old(participants)[t].participantId} else old(byId)
    {
      var p := participants[t];
      assert p.Rec() == Records()[t];
      if Collectable(p.Rec(), now) {
        participants := participants - {t};
        if p.participantId in byId && byId[p.participantId] == t {
          byId := byId - {p.participantId};
        }
      }
    }

    method CollectRecent(now: nat)
      modifies this`recent
      ensures recent == KeptRecent(old(recent), now)
    {
      var todo := recent.Keys;
      while todo != {}
        invariant todo <= recent.Keys
        invariant forall id :: id in recent ==> id in old(recent) && recent[id] == old(recent)[id]
        invariant forall id :: id in old(recent) && id !in todo ==>
                    (id in recent <==> now - old(recent)[id].lastSeenAt < STALE_GC_MS)
        invariant forall id :: id in todo ==> id in recent
        decreases todo
      {
        var id :| id in todo;
        todo := todo - {id};
        if now - recent[id].lastSeenAt >= STALE_GC_MS {
          recent := recent - {id};
        }
      }
    }

    method ExpireMail(now: nat)
      requires files == Mirror(codec, mailbox) && forall h :: h in mailbox ==> mailbox[h] != []
      modifies this`mailbox, this`files
      ensures mailbox == PruneMailbox(old(mailbox), now)
      ensures files == Mirror(codec, mailbox) && forall h :: h in mailbox ==> mailbox[h] != []
    {
      var todo := mailbox.Keys;
      while todo != {}
        invariant todo <= mailbox.Keys
        invariant files == Mirror(codec, mailbox) && forall h :: h in mailbox ==> mailbox[h] != []
        invariant forall h :: h in todo ==> h in old(mailbox) && mailbox[h] == old(mailbox)[h]
        invariant forall h :: h in mailbox && h !in todo ==>
                    h in old(mailbox) && mailbox[h] == Unexpired(old(mailbox)[h], now)
        invariant forall h :: h in old(mailbox) && h !in mailbox ==> Unexpired(old(mailbox)[h], now) == []
        decreases todo
      {
        var h :| h in todo;
        todo := todo - {h};
        ExpireQueue(h, now);
      }
    }

    method ExpireQueue(h: SessionHash, now: nat)
      requires files == Mirror(codec, mailbox) && h in mailbox && forall g :: g in mailbox ==> mailbox[g] != []
      modifies this`mailbox, this`files
      ensures mailbox == if Unexpired(old(mailbox)[h], now) == [] then old(mailbox) - {h}
                         else old(mailbox)[h := Unexpired(old(mailbox)[h], now)]
      ensures files == Mirror(codec, mailbox)
    {
      var queue := mailbox[h];
      var kept := Unexpired(queue, now);
      UnexpiredMembers(queue, now);
      if |kept| != |queue| {
        mailbox := if |kept| == 0 then mailbox - {h} else mailbox[h := kept];
        RewriteMailboxFile(h);
      }
    }

    method CollectNames(now: nat)
      requires Wired()
      modifies this`participants, this`byId
      ensures Wired() && Chains() == old(Chains())
      ensures forall t :: t in participants ==> t in old(participants) && participants[t] == old(participants)[t]
      ensures Records() == KeptRecords(old(Records()), now)
      ensures byId == KeptIds(old(Records()), old(byId), now)
    {
      CollectRecords(now);
      ParticipantsDropped(map t | t in old(participants) && !Stale(old(Records()), t, now) :: old(participants)[t]);
    }

    method CollectTables(now: nat)
      requires Wired()
      modifies this`participants, this`byId, this`recent
      ensures Wired()
      ensures forall t :: t in participants ==> t in old(participants) && participants[t] == old(participants)[t]
      ensures Tables() == GcTick(old(Tables()), now).(mailbox := old(mailbox))
    {
      hide KeptRecords, KeptIds, KeptRecent, PruneMailbox;
      CollectNames(now);
      CollectRecent(now);
    }

    /** gcTick */
    method Gc(now: nat)
      requires Valid()
      modifies this`participants, this`byId, this`recent, this`mailbox, this`files
      ensures Valid() && Tables() == GcTick(old(Tables()), now)
    {
      hide KeptRecords, KeptIds, KeptRecent, PruneMailbox, Mirror;
      CollectTables(now);
      ExpireMail(now);
    }

    /** Records have only left the table. */
    twostate lemma ParticipantsDropped(kept: map<Token, Participant>)
      requires old(Wired()) && participants == kept && objects == old(objects)
      requires forall t :: t in kept ==> t in old(participants) && kept[t] == old(participants)[t]
      requires forall t :: t in objects ==> unchanged(objects[t])
      ensures Wired() && Chains() == old(Chains())
      ensures Records() == map t | t in old(Records()) && t in kept :: old(Records())[t]
    {
    }

    // ---- start-up ------------------------------------------------------------------------------------

    method ParseMailboxFile(content: string, now: nat) returns (queue: seq<Entry<Envelope>>)
      ensures queue == LoadFile(codec, content, now)
    {
      var lines := Split(content);
      queue := [];
      var i := 0;
      while i < |lines|
        invariant 0 <= i <= |lines|
        invariant queue == LoadLines(codec, lines[..i], now)
      {
        assert lines[..i + 1][..i] == lines[..i];
        if !IsBlank(lines[i]) {
          var parsed := codec.decode(lines[i]);
          if parsed.Some? && now - parsed.value.queuedAt < MAILBOX_TTL_MS {
            queue := queue + [parsed.value];
          }
        }
        i := i + 1;
      }
      assert lines[..|lines|] == lines;
    }

    /** loadMailboxFromDisk: whatever the directory holds, afterwards it mirrors the mailbox. */
    method LoadMailboxFromDisk(now: nat)
      requires mailbox == map[]
      modifies this`mailbox, this`files
      ensures mailbox == LoadAll(codec, old(files), now) && files == Mirror(codec, mailbox)
    {
      hide LoadFile, FileText;
      var todo := files.Keys;
      while todo != {}
        invariant todo <= files.Keys
        invariant forall h :: h in todo ==> h in old(files) && files[h] == old(files)[h] && h !in mailbox
        invariant forall h :: h in mailbox ==>
                    h in old(files) && mailbox[h] == LoadFile(codec, old(files)[h], now) != []
        invariant forall h :: h in old(files) && h !in todo && h !in mailbox ==>
                    LoadFile(codec, old(files)[h], now) == []
        invariant forall h :: h in files && h !in todo ==> h in mailbox && files[h] == FileText(codec, mailbox[h])
        invariant forall h :: h in mailbox ==> h in files
        decreases todo
      {
        var h :| h in todo;
        todo := todo - {h};
        LoadOneFile(h, now);
      }
    }

    method LoadOneFile(h: SessionHash, now: nat)
      requires h in files
      modifies this`mailbox, this`files
      ensures LoadFile(codec, old(files)[h], now) == [] ==> mailbox == old(mailbox) && files == old(files) - {h}
      ensures LoadFile(codec, old(files)[h], now) != [] ==>
                && mailbox == old(mailbox)[h := LoadFile(codec, old(files)[h], now)]
                && files == old(files)[h := FileText(codec, LoadFile(codec, old(files)[h], now))]
    {
      var queue := ParseMailboxFile(files[h], now);
      if |queue| > 0 {
        mailbox := mailbox[h := queue];
        RewriteMailboxFile(h);
      } else {
        files := files - {h};
      }
    }

    /** A broker process that starts over a mailbox directory. */
    constructor Restart(codec: MailCodec, directory: map<SessionHash, string>, now: nat)
      ensures Valid() && this.codec == codec
      ensures Tables() == Init<Envelope>().(mailbox := LoadAll(codec, directory, now))
    {
      this.codec := codec;
      participants, byId, recent, mailbox, objects := map[], map[], map[], map[], map[];
      files := directory;
      new;
      LoadMailboxFromDisk(now);
    }
  }

  /** The end of a broker that ran and the start of the next: when the first was valid, the second
      holds exactly its unexpired mail, and the model's restart step says so too. */
  lemma RestartKeepsMail(codec: MailCodec, before: State<Envelope>, now: nat)
    requires Faithful(codec) && forall h :: h in before.mailbox ==> before.mailbox[h] != []
    ensures Init<Envelope>().(mailbox := LoadAll(codec, Mirror(codec, before.mailbox), now)) == Reload(before, now)
  {
    CrashThenLoad(codec, before.mailbox, now);
  }

  /** Table by table, what a settled forward does. */
  lemma CompleteByTable(s: State<Envelope>, now: nat, r: Token, accepted: bool)
    requires CanComplete(s, r)
    ensures var c := s.chains[r];
            var popped := s.chains[r := c.(slots := c.slots[1..], inFlight := false)];
            var h := SessionHash(c.sessionId);
            Complete(s, now, r, accepted)
            == s.(chains := popped,
                  mailbox := if accepted then s.mailbox
                             else s.mailbox[h := Queue(s.mailbox, h) + [Entry(c.slots[0].to, c.slots[0].mail, now)]])
  {
  }

  /** Table by table, what a register that succeeds does. */
  ghost predicate InstallParts(s: State<Envelope>, s1: State<Envelope>, now: nat, token: Token, p: Profile,
                               id: string) {
    var h := SessionHash(p.sessionId);
    && s1.participants == s.participants[token := NewRecord(p, id, now)]
    && s1.byId == s.byId[id := token]
    && s1.recent == MarkRecent(WithoutAliases(s.recent, p.sessionId, id), NewRecord(p, id, now), now)
    && s1.mailbox == s.mailbox - {h}
    && s1.chains == s.chains[token := Chain(id, p.sessionId, Reachable(p.delivery),
                                            FlushSlots(Unexpired(Queue(s.mailbox, h), now)), false)]
  }

  lemma PartsMakeInstall(s: State<Envelope>, s1: State<Envelope>, now: nat, token: Token, p: Profile, id: string,
                         reclaimed: bool)
    requires InstallParts(s, s1, now, token, p, id) && id !in s.byId
    ensures s1 == Install(s, now, token, p, id, reclaimed).0
  {
  }

  lemma UpdateTwice(chains: map<Token, Chain<Envelope>>, t: Token, a: Chain<Envelope>, b: Chain<Envelope>)
    ensures chains[t := a][t := b] == chains[t := b]
  {
  }

  lemma FlushSlotsSnoc(q: seq<Entry<Envelope>>, e: Entry<Envelope>)
    ensures FlushSlots(q + [e]) == FlushSlots(q) + [Flushed(e.participantId, e.mail)]
  {
  }
}
