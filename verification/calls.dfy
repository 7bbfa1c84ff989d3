/** Requests and responses on one connection: the client's line reader and queue of waiting calls
    (client/client.js), and the broker's serial answering (handleConnection in broker/broker.js). */
module Calls {
  import opened Wrappers
  import opened Text
  import opened Lines
  import opened Json
  import opened BrokerModel

  /** The JSON texts of one connection. */
  datatype Protocol<!Q> = Protocol(requests: Codec<Q>, responses: Codec<Response>)

  ghost predicate Reliable<Q(!new)>(json: Protocol<Q>) {
    Faithful(json.requests) && Faithful(json.responses)
  }

  datatype Outcome = Resolved(response: Response) | RejectedWith(error: string)

  datatype Settlement = Settlement(call: nat, outcome: Outcome)

  /** What a line from the broker makes of the call it is matched with. */
  function OutcomeOf(response: Option<Response>): Outcome {
    match response
    case None => RejectedWith("invalid_response")
    case Some(Error(code)) => RejectedWith(if code == "" then "broker_error" else code)
    case Some(r) => Resolved(r)
  }

  // ---- the client --------------------------------------------------------------------------------

  /** The part of a BusClient that calls depend on. Calls are numbered; `settled` are the promises
      that have been resolved or rejected, in order. */
  datatype Client = Client(buffer: string, pending: seq<nat>, connected: bool, calls: nat, settled: seq<Settlement>)

  function Min(a: nat, b: nat): nat { if a < b then a else b }

  /** A line settles the call that has waited longest; a line nobody waits for is dropped. */
  function SettleOne<Q>(json: Protocol<Q>, c: Client, line: string): Client {
    if c.pending == [] then c
    else c.(pending := c.pending[1..],
            settled := c.settled + [Settlement(c.pending[0], OutcomeOf(json.responses.decode(line)))])
  }

  function SettleAll<Q>(json: Protocol<Q>, c: Client, lines: seq<string>): Client {
    if lines == [] then c
    else SettleOne(json, SettleAll(json, c, lines[..|lines| - 1]), lines[|lines| - 1])
  }

  function OnDataState<Q>(json: Protocol<Q>, c: Client, chunk: string): Client {
    var x := Extract(c.buffer + chunk);
    SettleAll(json, c.(buffer := x.rest), NonBlank(x.lines))
  }

  function RejectAll(pending: seq<nat>, error: string): (r: seq<Settlement>)
    ensures |r| == |pending|
  {
    seq(|pending|, k requires 0 <= k < |pending| => Settlement(pending[k], RejectedWith(error)))
  }

  function OnCloseState(c: Client): Client {
    c.(connected := false, pending := [], settled := c.settled + RejectAll(c.pending, "broker_disconnected"))
  }

  function SendState(c: Client): Client {
    if c.connected then c.(pending := c.pending + [c.calls], calls := c.calls + 1)
    else c.(calls := c.calls + 1, settled := c.settled + [Settlement(c.calls, RejectedWith("not_connected"))])
  }

  class BusClient<Q> {
    const json: Protocol<Q>
    const reader: LineReader
    var pending: seq<nat>
    var connected: bool
    var calls: nat
    var settled: seq<Settlement>
    var written: string

    constructor (json: Protocol<Q>)
      ensures this.json == json && fresh(reader) && State() == Client("", [], false, 0, []) && written == ""
    {
      this.json := json;
      reader := new LineReader();
      pending, connected, calls, settled, written := [], false, 0, [], "";
    }

    function State(): Client
      reads this, reader
    {
      Client(reader.buffer, pending, connected, calls, settled)
    }

    /** A new socket. The receive buffer keeps what the last one left in it. */
    method Connect()
      modifies this`connected
      ensures connected
    {
      connected := true;
    }

    method Send(q: Q) returns (call: nat)
      modifies this
      ensures call == old(calls) && State() == SendState(old(State()))
      ensures written == old(written) + (if old(connected) then json.requests.encode(q) + "\n" else "")
    {
      call := calls;
      calls := calls + 1;
      if connected {
        pending := pending + [call];
        written := written + (json.requests.encode(q) + "\n");
      } else {
        settled := settled + [Settlement(call, RejectedWith("not_connected"))];
      }
    }

    method OnLine(line: string)
      modifies this`pending, this`settled
      ensures State() == SettleOne(json, old(State()), line)
    {
      if pending != [] {
        var call := pending[0];
        pending := pending[1..];
        settled := settled + [Settlement(call, OutcomeOf(json.responses.decode(line)))];
      }
    }

    method OnData(chunk: string)
      modifies this`pending, this`settled, reader
      ensures State() == OnDataState(json, old(State()), chunk)
    {
      var lines := reader.OnData(chunk);
      SettleLines(lines);
    }

    method SettleLines(lines: seq<string>)
      modifies this`pending, this`settled
      ensures State() == SettleAll(json, old(State()), lines)
    {
      var i := 0;
      while i < |lines|
        invariant i <= |lines|
        invariant State() == SettleAll(json, old(State()), lines[..i])
      {
        assert lines[..i + 1][..i] == lines[..i];
        OnLine(lines[i]);
        i := i + 1;
      }
      assert lines[..i] == lines;
    }

    method OnClose()
      modifies this
      ensures State() == OnCloseState(old(State())) && written == old(written)
    {
      var i := 0;
      while i < |pending|
        invariant i <= |pending| && pending == old(pending)
        invariant settled == old(settled) + RejectAll(pending[..i], "broker_disconnected")
        invariant calls == old(calls) && written == old(written)
      {
        assert RejectAll(pending[..i + 1], "broker_disconnected")
            == RejectAll(pending[..i], "broker_disconnected")
              + [Settlement(pending[i], RejectedWith("broker_disconnected"))];
        settled := settled + [Settlement(pending[i], RejectedWith("broker_disconnected"))];
        i := i + 1;
      }
      assert pending[..|pending|] == pending;
      pending, connected := [], false;
    }
  }

  /** Together the lines settle waiting calls first come, first served. */
  lemma {:induction false} SettleAllIs<Q>(json: Protocol<Q>, c: Client, lines: seq<string>)
    ensures var c1, n := SettleAll(json, c, lines), Min(|c.pending|, |lines|);
            && c1.pending == c.pending[n..] && c1.buffer == c.buffer && c1.connected == c.connected
               && c1.calls == c.calls
            && |c1.settled| == |c.settled| + n && c1.settled[..|c.settled|] == c.settled
            && forall k :: 0 <= k < n ==>
                 c1.settled[|c.settled| + k] == Settlement(c.pending[k], OutcomeOf(json.responses.decode(lines[k])))
  {
    if lines != [] {
      SettleAllIs(json, c, lines[..|lines| - 1]);
    }
  }

  // ---- one direction of a connection ---------------------------------------------------------------

  ghost predicate AllLines(lines: seq<string>) {
    forall k :: 0 <= k < |lines| ==> NoNewline(lines[k]) && !IsBlank(lines[k])
  }

  /** A reader that had `head` in its buffer when the first of the lines `sent` was written has
      handed out `got`, keeps `buffer`, and `wire` is still under way. */
  ghost predicate PipeOk(head: string, sent: seq<string>, got: seq<string>, buffer: string, wire: string) {
    && NoNewline(head) && AllLines(sent)
    && (forall k :: 0 <= k < |got| ==> NoNewline(got[k])) && NoNewline(buffer)
    && (Unlines(got) + buffer) + wire == head + Unlines(sent)
  }

  /** The lines such a reader will hand out in the end. */
  function Shifted(head: string, sent: seq<string>): seq<string> {
    if sent == [] then [] else [head + sent[0]] + sent[1..]
  }

  lemma NothingShifted(sent: seq<string>)
    ensures Shifted("", sent) == sent
  {
    if sent != [] {
      assert "" + sent[0] == sent[0];
    }
  }

  lemma ShiftedExtract(head: string, sent: seq<string>)
    requires NoNewline(head) && AllLines(sent)
    ensures Extract(head + Unlines(sent)) == Extracted(Shifted(head, sent), if sent == [] then head else "")
  {
    if sent == [] {
      assert head + Unlines(sent) == head;
      ExtractLast(head);
    } else {
      var lines := Shifted(head, sent);
      assert lines[1..] == sent[1..];
      assert head + Unlines(sent) == Unlines(lines) + "";
      ExtractUnlines(lines, "");
    }
  }

  /** So far it has handed out a prefix of them, and all of them when the wire is empty. */
  lemma GotIsPrefix(head: string, sent: seq<string>, got: seq<string>, buffer: string, wire: string)
    requires PipeOk(head, sent, got, buffer, wire)
    ensures got <= Shifted(head, sent)
    ensures wire == "" ==> got == Shifted(head, sent)
  {
    ShiftedExtract(head, sent);
    ExtractUnlines(got, buffer);
    ExtractInChunks(Unlines(got) + buffer, wire);
    if wire == "" {
      assert buffer + wire == buffer;
      ExtractLast(buffer);
    }
  }

  lemma PipePut(head: string, sent: seq<string>, got: seq<string>, buffer: string, wire: string, line: string)
    requires PipeOk(head, sent, got, buffer, wire) && NoNewline(line) && !IsBlank(line)
    ensures PipeOk(head, sent + [line], got, buffer, wire + (line + "\n"))
  {
    UnlinesAppend(sent, [line]);
    assert Unlines([line]) == line + "\n" by {
      assert [line][1..] == [];
      assert (line + "\n") + "" == line + "\n";
    }
    ConcatIsAssociative(Unlines(got) + buffer, wire, line + "\n");
    ConcatIsAssociative(head, Unlines(sent), line + "\n");
  }

  lemma LinesAppend(a: seq<string>, b: seq<string>)
    requires (forall k :: 0 <= k < |a| ==> NoNewline(a[k])) && (forall k :: 0 <= k < |b| ==> NoNewline(b[k]))
    ensures forall k :: 0 <= k < |a + b| ==> NoNewline((a + b)[k])
  {
  }

  lemma PipeMoves(head: string, sent: seq<string>, got: seq<string>, buffer: string, wire: string, n: nat)
    requires PipeOk(head, sent, got, buffer, wire) && n <= |wire|
    ensures var x := Extract(buffer + wire[..n]); PipeOk(head, sent, got + x.lines, x.rest, wire[n..])
  {
    hide Extract, Unlines, NoNewline;
    var x := Extract(buffer + wire[..n]);
    ExtractIsFaithful(buffer + wire[..n]);
    LinesAppend(got, x.lines);
    UnlinesAppend(got, x.lines);
    ConcatIsAssociative(Unlines(got), Unlines(x.lines), x.rest);
    ConcatIsAssociative(Unlines(got), buffer, wire[..n]);
    ConcatIsAssociative(Unlines(got) + buffer, wire[..n], wire[n..]);
    assert wire[..n] + wire[n..] == wire;
  }

  lemma PipeTake(head: string, sent: seq<string>, got: seq<string>, buffer: string, wire: string, n: nat)
    requires PipeOk(head, sent, got, buffer, wire) && n <= |wire|
    ensures var x := Extract(buffer + wire[..n]);
            PipeOk(head, sent, got + x.lines, x.rest, wire[n..]) && NonBlank(x.lines) == x.lines
  {
    hide Extract, PipeOk, Shifted, NonBlank, IsBlank;
    var x := Extract(buffer + wire[..n]);
    PipeMoves(head, sent, got, buffer, wire, n);
    GotIsPrefix(head, sent, got + x.lines, x.rest, wire[n..]);
    PipeHasLines(head, sent, got, buffer, wire);
    ShiftedNotBlank(head, sent);
    forall l | l in x.lines
      ensures !IsBlank(l)
    {
      assert l in got + x.lines;
    }
    NonBlankIsIdentity(x.lines);
  }

  lemma PipeHasLines(head: string, sent: seq<string>, got: seq<string>, buffer: string, wire: string)
    requires PipeOk(head, sent, got, buffer, wire)
    ensures AllLines(sent)
  {
  }

  lemma ShiftedNotBlank(head: string, sent: seq<string>)
    requires AllLines(sent)
    ensures forall l :: l in Shifted(head, sent) ==> !IsBlank(l)
  {
    if sent != [] {
      var k :| 0 <= k < |sent[0]| && !IsSpace(sent[0][k]);
      assert (head + sent[0])[|head| + k] == sent[0][k];
    }
  }

  // ---- one connection as a step machine -------------------------------------------------------------

  datatype Served = Served(line: string, response: Response)

  /** `up` and `down` are under way; `reader` and `queue` are the broker's receive buffer and the
      lines it has not answered yet. `sent`, `served` and `heard` are history. */
  datatype Connection<Q> = Connection(client: Client, up: string, reader: string, queue: seq<string>, down: string,
                                      sent: seq<Q>, served: seq<Served>, heard: seq<string>)

  datatype Event<Q> =
    | Ask(q: Q)
    | ToBroker(n: nat)
    | Answer(response: Response)
    | ToClient(n: nat)
    | Close

  /** The socket is open and the client's receive buffer holds `stale`. */
  function Opened<Q>(stale: string): Connection<Q> {
    Connection(Client(stale, [], true, 0, []), "", "", [], "", [], [], [])
  }

  /** The broker answers the oldest line; what it says to a request is up to its tables. */
  function ReplyLine<Q>(json: Protocol<Q>, line: string, response: Response): Response {
    if json.requests.decode(line).None? then Error("invalid_json") else response
  }

  function Happen<Q>(json: Protocol<Q>, c: Connection<Q>, e: Event<Q>): Connection<Q> {
    match e
    case Ask(q) =>
      if c.client.connected
      then c.(client := SendState(c.client), up := c.up + (json.requests.encode(q) + "\n"), sent := c.sent + [q])
      else c.(client := SendState(c.client))
    case ToBroker(n) =>
      if n > |c.up| then c
      else
        var x := Extract(c.reader + c.up[..n]);
        c.(up := c.up[n..], reader := x.rest, queue := c.queue + NonBlank(x.lines))
    case Answer(response) =>
      if c.queue == [] then c
      else
        var r := ReplyLine(json, c.queue[0], response);
        c.(queue := c.queue[1..], down := c.down + (json.responses.encode(r) + "\n"),
           served := c.served + [Served(c.queue[0], r)])
    case ToClient(n) =>
      if n > |c.down| || !c.client.connected then c
      else
        c.(client := OnDataState(json, c.client, c.down[..n]), down := c.down[n..],
           heard := c.heard + NonBlank(Extract(c.client.buffer + c.down[..n]).lines))
    case Close =>
      if c.client.connected then c.(client := OnCloseState(c.client)) else c
  }

  /** The broker's end: handleConnection with its chain of lines being answered. */
  class BrokerConnection<Q> {
    const json: Protocol<Q>
    const reader: LineReader
    var queue: seq<string>
    var written: string

    constructor (json: Protocol<Q>)
      ensures this.json == json && fresh(reader) && reader.buffer == "" && queue == [] && written == ""
    {
      this.json := json;
      reader := new LineReader();
      queue, written := [], "";
    }

    method OnData(chunk: string)
      modifies this`queue, reader
      ensures reader.buffer == Extract(old(reader.buffer) + chunk).rest
      ensures queue == old(queue) + NonBlank(Extract(old(reader.buffer) + chunk).lines)
    {
      var lines := reader.OnData(chunk);
      queue := queue + lines;
    }

    /** The handler of the oldest line has its response. */
    method AnswerNext(response: Response)
      requires queue != []
      modifies this
      ensures queue == old(queue)[1..]
      ensures written == old(written) + (json.responses.encode(ReplyLine(json, old(queue)[0], response)) + "\n")
      ensures json.requests.decode(old(queue)[0]).None? ==>
                written == old(written) + (json.responses.encode(Error("invalid_json")) + "\n")
    {
      if json.requests.decode(queue[0]).None? {
        written := written + (json.responses.encode(Error("invalid_json")) + "\n");
      } else {
        written := written + (json.responses.encode(response) + "\n");
      }
      queue := queue[1..];
    }
  }

  function History<Q>(json: Protocol<Q>, stale: string, events: seq<Event<Q>>): Connection<Q> {
    if events == [] then Opened(stale)
    else Happen(json, History(json, stale, events[..|events| - 1]), events[|events| - 1])
  }

  function AskLines<Q>(json: Protocol<Q>, sent: seq<Q>): (r: seq<string>)
    ensures |r| == |sent|
  {
    seq(|sent|, k requires 0 <= k < |sent| => json.requests.encode(sent[k]))
  }

  function AnswerLines<Q>(json: Protocol<Q>, served: seq<Served>): (r: seq<string>)
    ensures |r| == |served|
  {
    seq(|served|, k requires 0 <= k < |served| => json.responses.encode(served[k].response))
  }

  function ServedLines(served: seq<Served>): (r: seq<string>)
    ensures |r| == |served|
  {
    seq(|served|, k requires 0 <= k < |served| => served[k].line)
  }

  ghost predicate UpOk<Q(!new)>(json: Protocol<Q>, c: Connection<Q>) {
    PipeOk("", AskLines(json, c.sent), ServedLines(c.served) + c.queue, c.reader, c.up)
  }

  ghost predicate DownOk<Q(!new)>(json: Protocol<Q>, stale: string, c: Connection<Q>) {
    PipeOk(stale, AnswerLines(json, c.served), c.heard, c.client.buffer, c.down)
  }

  lemma ShiftedAt(head: string, sent: seq<string>, k: nat)
    requires k < |sent|
    ensures |Shifted(head, sent)| == |sent| && Shifted(head, sent)[k] == if k == 0 then head + sent[0] else sent[k]
  {
  }

  /** What a call has come to: the answer to its line when one was heard, else the disconnect when
      its request was sent, else it never got a socket. */
  function Fate<Q>(json: Protocol<Q>, heard: seq<string>, sent: nat, k: nat): Outcome {
    if k < |heard| then OutcomeOf(json.responses.decode(heard[k]))
    else if k < sent then RejectedWith("broker_disconnected")
    else RejectedWith("not_connected")
  }

  /** The calls settled so far, each once and in order. */
  ghost predicate SettledInOrder<Q(!new)>(json: Protocol<Q>, settled: seq<Settlement>, heard: seq<string>, sent: nat) {
    forall k :: 0 <= k < |settled| ==> settled[k] == Settlement(k, Fate(json, heard, sent, k))
  }

  /** Calls are settled in order, each once: as many as there were answers while the socket is
      open, all of them when it is closed. */
  ghost predicate CallsOk<Q(!new)>(json: Protocol<Q>, c: Connection<Q>) {
    var client, h := c.client, |c.heard|;
    && h <= |c.sent| <= client.calls
    && (client.connected ==>
          && client.calls == |c.sent| && |client.settled| == h
          && |client.pending| == client.calls - h
          && forall k :: 0 <= k < |client.pending| ==> client.pending[k] == h + k)
    && (!client.connected ==> client.pending == [] && |client.settled| == client.calls)
    && SettledInOrder(json, client.settled, c.heard, |c.sent|)
  }

  ghost predicate ConnectionOk<Q(!new)>(json: Protocol<Q>, stale: string, c: Connection<Q>) {
    UpOk(json, c) && DownOk(json, stale, c) && CallsOk(json, c)
  }

  lemma HeardIsServed<Q(!new)>(json: Protocol<Q>, stale: string, c: Connection<Q>)
    requires UpOk(json, c) && DownOk(json, stale, c)
    ensures |c.heard| <= |c.served| <= |c.sent|
  {
    GotIsPrefix("", AskLines(json, c.sent), ServedLines(c.served) + c.queue, c.reader, c.up);
    GotIsPrefix(stale, AnswerLines(json, c.served), c.heard, c.client.buffer, c.down);
  }

  lemma AskKeeps<Q(!new)>(json: Protocol<Q>, stale: string, c: Connection<Q>, q: Q)
    requires Reliable(json) && ConnectionOk(json, stale, c)
    ensures ConnectionOk(json, stale, Happen(json, c, Ask(q)))
  {
    var c1 := Happen(json, c, Ask(q));
    if c.client.connected {
      PipePut("", AskLines(json, c.sent), ServedLines(c.served) + c.queue, c.reader, c.up, json.requests.encode(q));
      assert AskLines(json, c1.sent) == AskLines(json, c.sent) + [json.requests.encode(q)];
    }
  }

  lemma QueueGrows(served: seq<string>, queue: seq<string>, lines: seq<string>)
    ensures served + (queue + lines) == (served + queue) + lines
  {
  }

  lemma ToBrokerKeeps<Q(!new)>(json: Protocol<Q>, stale: string, c: Connection<Q>, n: nat)
    requires ConnectionOk(json, stale, c)
    ensures ConnectionOk(json, stale, Happen(json, c, ToBroker(n)))
  {
    if n <= |c.up| {
      PipeTake("", AskLines(json, c.sent), ServedLines(c.served) + c.queue, c.reader, c.up, n);
      QueueGrows(ServedLines(c.served), c.queue, Extract(c.reader + c.up[..n]).lines);
    }
  }

  lemma AnswerKeeps<Q(!new)>(json: Protocol<Q>, stale: string, c: Connection<Q>, response: Response)
    requires Reliable(json) && ConnectionOk(json, stale, c)
    ensures ConnectionOk(json, stale, Happen(json, c, Answer(response)))
  {
    if c.queue != [] {
      var r := ReplyLine(json, c.queue[0], response);
      PipePut(stale, AnswerLines(json, c.served), c.heard, c.client.buffer, c.down, json.responses.encode(r));
      var served1 := c.served + [Served(c.queue[0], r)];
      assert AnswerLines(json, served1) == AnswerLines(json, c.served) + [json.responses.encode(r)];
      assert ServedLines(served1) + c.queue[1..] == ServedLines(c.served) + c.queue;
    }
  }

  /** What a chunk does to the client's end. */
  lemma ToClientEffect<Q>(json: Protocol<Q>, c: Connection<Q>, n: nat)
    requires n <= |c.down| && c.client.connected
    ensures var x := Extract(c.client.buffer + c.down[..n]); var c1 := Happen(json, c, ToClient(n));
            && c1 == c.(client := c1.client, down := c.down[n..], heard := c.heard + NonBlank(x.lines))
            && c1.client == SettleAll(json, c.client.(buffer := x.rest), NonBlank(x.lines))
            && c1.client.buffer == x.rest
  {
    hide Extract, NonBlank;
    var x := Extract(c.client.buffer + c.down[..n]);
    SettleAllIs(json, c.client.(buffer := x.rest), NonBlank(x.lines));
  }

  lemma ToClientDown<Q(!new)>(json: Protocol<Q>, stale: string, c: Connection<Q>, n: nat)
    requires DownOk(json, stale, c) && n <= |c.down| && c.client.connected
    ensures DownOk(json, stale, Happen(json, c, ToClient(n)))
  {
    hide PipeOk, Extract, NonBlank, AnswerLines, Happen, SettleAll;
    PipeTake(stale, AnswerLines(json, c.served), c.heard, c.client.buffer, c.down, n);
    ToClientEffect(json, c, n);
  }

  lemma ToClientKeeps<Q(!new)>(json: Protocol<Q>, stale: string, c: Connection<Q>, n: nat)
    requires ConnectionOk(json, stale, c)
    ensures ConnectionOk(json, stale, Happen(json, c, ToClient(n)))
  {
    hide PipeOk, Extract, NonBlank, AnswerLines, SettleAll, CallsOk, DownOk;
    if n <= |c.down| && c.client.connected {
      var c1 := Happen(json, c, ToClient(n));
      var x := Extract(c.client.buffer + c.down[..n]);
      ToClientEffect(json, c, n);
      ToClientDown(json, stale, c, n);
      HeardIsServed(json, stale, c1);
      HearKeepsCalls(json, c, c1, x.rest, NonBlank(x.lines));
    }
  }

  lemma HearSettles<Q(!new)>(json: Protocol<Q>, c: Client, c1: Client, heard: seq<string>, lines: seq<string>,
                      sent: nat)
    requires SettledInOrder(json, c.settled, heard, sent) && |c.settled| == |heard| && |lines| <= |c.pending|
    requires forall k :: 0 <= k < |c.pending| ==> c.pending[k] == |heard| + k
    requires c1 == SettleAll(json, c, lines)
    ensures SettledInOrder(json, c1.settled, heard + lines, sent) && |c1.settled| == |heard + lines|
    ensures c1.pending == c.pending[|lines|..] && c1.connected == c.connected && c1.calls == c.calls
  {
    hide SettleAll, OutcomeOf;
    SettleAllIs(json, c, lines);
    var h := |heard|;
    forall k | 0 <= k < |c1.settled|
      ensures c1.settled[k] == Settlement(k, Fate(json, heard + lines, sent, k))
    {
      if k < h {
        assert c1.settled[..h][k] == c.settled[k];
      } else {
        assert c1.settled[h + (k - h)] == Settlement(c.pending[k - h], OutcomeOf(json.responses.decode(lines[k - h])));
      }
    }
  }

  lemma HearKeepsCalls<Q(!new)>(json: Protocol<Q>, c: Connection<Q>, c1: Connection<Q>, rest: string,
                                lines: seq<string>)
    requires CallsOk(json, c) && c.client.connected && |c.heard + lines| <= |c.sent|
    requires c1.heard == c.heard + lines && c1.sent == c.sent
    requires c1.client == SettleAll(json, c.client.(buffer := rest), lines)
    ensures CallsOk(json, c1)
  {
    hide SettleAll, SettledInOrder;
    HearSettles(json, c.client.(buffer := rest), c1.client, c.heard, lines, |c.sent|);
  }

  lemma CloseKeeps<Q(!new)>(json: Protocol<Q>, stale: string, c: Connection<Q>)
    requires ConnectionOk(json, stale, c)
    ensures ConnectionOk(json, stale, Happen(json, c, Close))
  {
  }

  lemma {:induction false} HistoryKeeps<Q(!new)>(json: Protocol<Q>, stale: string, events: seq<Event<Q>>)
    requires Reliable(json) && NoNewline(stale)
    ensures ConnectionOk(json, stale, History(json, stale, events))
  {
    if events == [] {
      assert Unlines([]) + "" + "" == "" + Unlines([]);
      assert (Unlines([]) + stale) + "" == stale + Unlines([]);
    } else {
      var init := events[..|events| - 1];
      HistoryKeeps(json, stale, init);
      var c := History(json, stale, init);
      match events[|events| - 1]
      case Ask(q) => AskKeeps(json, stale, c, q);
      case ToBroker(n) => ToBrokerKeeps(json, stale, c, n);
      case Answer(response) => AnswerKeeps(json, stale, c, response);
      case ToClient(n) => ToClientKeeps(json, stale, c, n);
      case Close => CloseKeeps(json, stale, c);
    }
  }

  // ---- what a caller gets ----------------------------------------------------------------------------

  /** The broker answers every request once, in the order they were sent, whatever the chunks. */
  lemma EachRequestAnsweredOnce<Q(!new)>(json: Protocol<Q>, stale: string, events: seq<Event<Q>>)
    requires Reliable(json) && NoNewline(stale)
    ensures var c := History(json, stale, events);
            && |c.served| + |c.queue| <= |c.sent|
            && (forall k :: 0 <= k < |c.served| ==> json.requests.decode(c.served[k].line) == Some(c.sent[k]))
            && (c.up == "" ==> |c.served| + |c.queue| == |c.sent|)
  {
    HistoryKeeps(json, stale, events);
    var c := History(json, stale, events);
    var got, lines := ServedLines(c.served) + c.queue, AskLines(json, c.sent);
    GotIsPrefix("", lines, got, c.reader, c.up);
    NothingShifted(lines);
    forall k | 0 <= k < |c.served|
      ensures json.requests.decode(c.served[k].line) == Some(c.sent[k])
    {
      assert got[k] == lines[k];
    }
  }

  /** What a caller makes of a response: an error rejects its promise with the code, or with
      `broker_error` when there is none; every other response resolves it. */
  ghost predicate Answers(o: Outcome, response: Response) {
    && (forall code :: response == Error(code) ==> o == RejectedWith(if code == "" then "broker_error" else code))
    && (!response.Error? ==> o == Resolved(response))
  }

  /** The same for a line that may not parse. */
  ghost predicate ReadAs(o: Outcome, read: Option<Response>) {
    if read.Some? then Answers(o, read.value) else o == RejectedWith("invalid_response")
  }

  /** The reading a call is settled with: the response the broker gave to its own request, except that
      the first one is read with what the receive buffer held when the socket was opened. */
  function Heard<Q>(json: Protocol<Q>, stale: string, response: Response, k: nat): Option<Response> {
    if k == 0 then json.responses.decode(stale + json.responses.encode(response)) else Some(response)
  }

  lemma OutcomeIsReading(read: Option<Response>)
    ensures ReadAs(OutcomeOf(read), read)
  {
  }

  lemma HeardAt<Q(!new)>(json: Protocol<Q>, stale: string, c: Connection<Q>, k: nat)
    requires Reliable(json) && UpOk(json, c) && DownOk(json, stale, c) && k < |c.heard|
    ensures k < |c.served| && json.responses.decode(c.heard[k]) == Heard(json, stale, c.served[k].response, k)
  {
    HeardIsServed(json, stale, c);
    var lines := AnswerLines(json, c.served);
    GotIsPrefix(stale, lines, c.heard, c.client.buffer, c.down);
    ShiftedAt(stale, lines, k);
    assert c.heard[k] == Shifted(stale, lines)[k];
  }

  /** Settlement `k` is that of call `k`: the response to its own request, or the disconnect of the socket
      its request went out on, or no socket. */
  ghost predicate SettledRight<Q(!new)>(json: Protocol<Q>, stale: string, c: Connection<Q>, k: nat)
    requires k < |c.client.settled|
  {
    var s := c.client.settled[k];
    && s.call == k
    && (|| (k < |c.served| && ReadAs(s.outcome, Heard(json, stale, c.served[k].response, k)))
        || (!c.client.connected && k < |c.sent| && s.outcome == RejectedWith("broker_disconnected"))
        || (!c.client.connected && |c.sent| <= k && s.outcome == RejectedWith("not_connected")))
  }

  /** Every `_send` is settled at most once and in order: with the response to its own request, or by
      the disconnect; all are settled once the socket is closed, or once nothing is under way. */
  lemma EachCallSettledOnce<Q(!new)>(json: Protocol<Q>, stale: string, events: seq<Event<Q>>)
    requires Reliable(json) && NoNewline(stale)
    ensures var c := History(json, stale, events);
            && |c.client.settled| + |c.client.pending| == c.client.calls
            && (forall k :: 0 <= k < |c.client.settled| ==> SettledRight(json, stale, c, k))
            && (!c.client.connected || (c.up == "" && c.queue == [] && c.down == "") ==> c.client.pending == [])
  {
    hide History, UpOk, DownOk, CallsOk, SettledRight;
    HistoryKeeps(json, stale, events);
    var c := History(json, stale, events);
    SettledAsHeard(json, stale, c);
    if c.up == "" && c.queue == [] && c.down == "" {
      AllHeard(json, stale, c);
    }
  }

  lemma SettledAsHeard<Q(!new)>(json: Protocol<Q>, stale: string, c: Connection<Q>)
    requires Reliable(json) && ConnectionOk(json, stale, c)
    ensures |c.client.settled| + |c.client.pending| == c.client.calls
    ensures forall k :: 0 <= k < |c.client.settled| ==> SettledRight(json, stale, c, k)
    ensures !c.client.connected || |c.heard| == |c.sent| ==> c.client.pending == []
  {
    hide UpOk, DownOk, SettledRight, Reliable;
    forall k: nat | k < |c.client.settled|
      ensures SettledRight(json, stale, c, k)
    {
      OneSettledRight(json, stale, c, k);
    }
  }

  lemma OneSettledRight<Q(!new)>(json: Protocol<Q>, stale: string, c: Connection<Q>, k: nat)
    requires Reliable(json) && ConnectionOk(json, stale, c) && k < |c.client.settled|
    ensures SettledRight(json, stale, c, k)
  {
    hide UpOk, DownOk, Heard, OutcomeOf, Reliable;
    assert c.client.settled[k] == Settlement(k, Fate(json, c.heard, |c.sent|, k));
    if k < |c.heard| {
      HeardAt(json, stale, c, k);
      OutcomeIsReading(json.responses.decode(c.heard[k]));
    }
  }

  /** When nothing is under way every request has been answered and every answer heard. */
  lemma AllHeard<Q(!new)>(json: Protocol<Q>, stale: string, c: Connection<Q>)
    requires UpOk(json, c) && DownOk(json, stale, c) && c.up == "" && c.queue == [] && c.down == ""
    ensures |c.heard| == |c.sent|
  {
    hide PipeOk;
    GotIsPrefix("", AskLines(json, c.sent), ServedLines(c.served) + c.queue, c.reader, c.up);
    GotIsPrefix(stale, AnswerLines(json, c.served), c.heard, c.client.buffer, c.down);
  }

  lemma HistorySnoc<Q>(json: Protocol<Q>, stale: string, events: seq<Event<Q>>, e: Event<Q>)
    ensures History(json, stale, events + [e]) == Happen(json, History(json, stale, events), e)
  {
    assert (events + [e])[..|events|] == events;
  }

  /** One call, asked and answered, with the answer on its way to the client. */
  function OneCall<Q>(json: Protocol<Q>, q: Q, response: Response): seq<Event<Q>> {
    [Ask(q), ToBroker(|json.requests.encode(q)| + 1), Answer(response)]
  }

  /** A whole line arrives at once. */
  lemma LineArrives(head: string, line: string)
    requires NoNewline(head) && NoNewline(line) && !IsBlank(line)
    ensures Extract(head + (line + "\n")) == Extracted([head + line], "")
    ensures NonBlank([head + line]) == [head + line]
  {
    var k :| 0 <= k < |line| && !IsSpace(line[k]);
    assert (head + line)[|head| + k] == line[k];
    NonBlankIsIdentity([head + line]);
    assert head + (line + "\n") == (head + line) + "\n" + "";
    ExtractCons(head + line, "");
    ExtractLast("");
  }

  lemma AskArrives<Q(!new)>(json: Protocol<Q>, c: Connection<Q>, line: string)
    requires c.up == line + "\n" && c.reader == "" && NoNewline(line) && !IsBlank(line)
    ensures Happen(json, c, ToBroker(|line| + 1)) == c.(up := "", queue := c.queue + [line])
  {
    LineArrives("", line);
    assert "" + line == line;
    assert c.up[..|line| + 1] == c.up && c.up[|line| + 1..] == "";
  }

  lemma AnswerArrives<Q(!new)>(json: Protocol<Q>, c: Connection<Q>, stale: string, line: string)
    requires c.down == line + "\n" && c.client == Client(stale, [0], true, 1, []) && c.heard == []
    requires NoNewline(stale) && NoNewline(line) && !IsBlank(line)
    ensures var c1 := Happen(json, c, ToClient(|line| + 1));
            && c1.client == Client("", [], true, 1, [Settlement(0, OutcomeOf(json.responses.decode(stale + line)))])
            && c1.heard == [stale + line] && c1.served == c.served
  {
    hide Extract, NonBlank, NoNewline, IsBlank;
    LineArrives(stale, line);
    assert c.down[..|line| + 1] == c.down;
    var emptied := c.client.(buffer := "");
    assert [stale + line][..0] == [];
    assert SettleAll(json, emptied, [stale + line]) == SettleOne(json, emptied, stale + line);
  }

  lemma OneCallAsked<Q(!new)>(json: Protocol<Q>, stale: string, q: Q)
    requires Reliable(json)
    ensures var c := History(json, stale, [Ask(q), ToBroker(|json.requests.encode(q)| + 1)]);
            && c.client == Client(stale, [0], true, 1, []) && c.heard == [] && c.served == [] && c.down == ""
            && c.queue == [json.requests.encode(q)]
  {
    hide History, Happen;
    var line := json.requests.encode(q);
    assert [Ask(q)] == [] + [Ask(q)];
    HistorySnoc(json, stale, [], Ask(q));
    HistorySnoc(json, stale, [Ask(q)], ToBroker(|line| + 1));
    assert [Ask(q)] + [ToBroker(|line| + 1)] == [Ask(q), ToBroker(|line| + 1)];
    FirstAsk(json, stale, q);
    AskArrives(json, History(json, stale, [Ask(q)]), line);
  }

  lemma FirstAsk<Q>(json: Protocol<Q>, stale: string, q: Q)
    ensures History(json, stale, []) == Opened(stale)
    ensures var c := Happen(json, Opened(stale), Ask(q));
            && c.client == Client(stale, [0], true, 1, []) && c.up == json.requests.encode(q) + "\n"
            && c.reader == "" && c.queue == [] && c.down == "" && c.served == [] && c.heard == []
  {
    assert "" + (json.requests.encode(q) + "\n") == json.requests.encode(q) + "\n";
  }

  lemma OneCallAnswered<Q(!new)>(json: Protocol<Q>, stale: string, q: Q, response: Response)
    requires Reliable(json)
    ensures var c := History(json, stale, OneCall(json, q, response));
            && c.client == Client(stale, [0], true, 1, []) && c.heard == []
            && c.served == [Served(json.requests.encode(q), response)]
               && c.down == json.responses.encode(response) + "\n"
  {
    OneCallAsked(json, stale, q);
    var asked := [Ask(q), ToBroker(|json.requests.encode(q)| + 1)];
    HistorySnoc(json, stale, asked, Answer(response));
    assert OneCall(json, q, response) == asked + [Answer(response)];
    assert "" + (json.responses.encode(response) + "\n") == json.responses.encode(response) + "\n";
  }

  /** The same with the answer arrived. */
  function AnsweredCall<Q>(json: Protocol<Q>, q: Q, response: Response): seq<Event<Q>> {
    OneCall(json, q, response) + [ToClient(|json.responses.encode(response)| + 1)]
  }

  /** The first answer is read with what the receive buffer held at the start: for any response there
      is a run that settles call 0 with that reading. */
  lemma StaleBufferIsRead<Q(!new)>(json: Protocol<Q>, stale: string, q: Q, response: Response)
    requires Reliable(json) && NoNewline(stale)
    ensures var c := History(json, stale, AnsweredCall(json, q, response));
            && |c.client.settled| == 1 && c.client.settled[0].call == 0
            && ReadAs(c.client.settled[0].outcome, Heard(json, stale, response, 0))
            && |c.heard| == 1 && c.served == [Served(json.requests.encode(q), response)]
  {
    hide History, Happen, OneCall, NoNewline, IsBlank;
    OneCallAnswered(json, stale, q, response);
    HistorySnoc(json, stale, OneCall(json, q, response), ToClient(|json.responses.encode(response)| + 1));
    AnswerArrives(json, History(json, stale, OneCall(json, q, response)), stale, json.responses.encode(response));
    OutcomeIsReading(Heard(json, stale, response, 0));
  }

  /** Call `k` is settled with the response to its own request. */
  ghost predicate OwnResponse<Q(!new)>(c: Connection<Q>, k: nat) {
    k < |c.served| && k < |c.client.settled| && Answers(c.client.settled[k].outcome, c.served[k].response)
  }

  /** So is every call whose answer was heard. */
  ghost predicate OwnResponses<Q(!new)>(c: Connection<Q>) {
    forall k: nat :: k < |c.heard| ==> OwnResponse(c, k)
  }

  lemma HeardIsSettled<Q(!new)>(json: Protocol<Q>, stale: string, events: seq<Event<Q>>, k: nat)
    requires Reliable(json) && NoNewline(stale) && k < |History(json, stale, events).heard|
    ensures var c := History(json, stale, events);
            && k < |c.served| && k < |c.client.settled|
            && ReadAs(c.client.settled[k].outcome, Heard(json, stale, c.served[k].response, k))
  {
    HistoryKeeps(json, stale, events);
    HeardAt(json, stale, History(json, stale, events), k);
    OutcomeIsReading(json.responses.decode(History(json, stale, events).heard[k]));
  }

  lemma BlankBufferIsEnough<Q(!new)>(json: Protocol<Q>, stale: string, events: seq<Event<Q>>)
    requires Reliable(json) && ObjectTexts(json.responses) && NoNewline(stale) && IsJsonBlank(stale)
    ensures OwnResponses(History(json, stale, events))
  {
    hide History, Answers, Heard, ObjectTexts;
    var c := History(json, stale, events);
    forall k: nat | k < |c.heard|
      ensures OwnResponse(c, k)
    {
      HeardIsSettled(json, stale, events, k);
      BlankIsSkipped(json, stale, c.served[k].response, k);
    }
  }

  lemma BlankIsSkipped<Q(!new)>(json: Protocol<Q>, stale: string, response: Response, k: nat)
    requires ObjectTexts(json.responses) && IsJsonBlank(stale)
    ensures Heard(json, stale, response, k) == Some(response)
  {
  }

  /** Any other text spoils the first answer, whatever the broker says in it. */
  lemma StaleBufferSpoils<Q(!new)>(json: Protocol<Q>, stale: string, q: Q, response: Response)
    requires Reliable(json) && ObjectTexts(json.responses) && NoNewline(stale) && !IsJsonBlank(stale)
    ensures var c := History(json, stale, AnsweredCall(json, q, response));
            && c.client.settled == [Settlement(0, RejectedWith("invalid_response"))]
            && |c.heard| == 1 && |c.served| == 1 && c.served[0].response == response
  {
    StaleBufferIsRead(json, stale, q, response);
  }

  /** The matching theorem. In every run calls get their own responses exactly when the receive buffer
      holds nothing but white space at the start. */
  lemma OwnResponsesIffBufferBlank<Q(!new)>(json: Protocol<Q>, stale: string, q: Q)
    requires Reliable(json) && ObjectTexts(json.responses) && NoNewline(stale)
    ensures (forall events :: OwnResponses(History(json, stale, events))) <==> IsJsonBlank(stale)
  {
    if IsJsonBlank(stale) {
      forall events
        ensures OwnResponses(History(json, stale, events))
      {
        BlankBufferIsEnough(json, stale, events);
      }
    } else {
      StaleBufferSpoils(json, stale, q, Unregistered);
      var c := History(json, stale, AnsweredCall(json, q, Unregistered));
      assert !OwnResponse(c, 0);
      assert !OwnResponses(c);
    }
  }

  /** And a socket that closes in the middle of an answer leaves the part it has received in the
      buffer for the next one: for any answer and any cut there is a run that does. */
  lemma CutAnswerStays<Q(!new)>(json: Protocol<Q>, q: Q, response: Response, n: nat)
    requires Reliable(json) && n <= |json.responses.encode(response)|
    ensures var c := History(json, "", OneCall(json, q, response) + [ToClient(n)] + [Close]);
            !c.client.connected && c.client.buffer == json.responses.encode(response)[..n]
  {
    OneCallAnswered(json, "", q, response);
    HistorySnoc(json, "", OneCall(json, q, response), ToClient(n));
    HistorySnoc(json, "", OneCall(json, q, response) + [ToClient(n)], Close);
    var c := History(json, "", OneCall(json, q, response));
    var part := json.responses.encode(response)[..n];
    assert "" + c.down[..n] == part;
    ExtractLast(part);
  }

  /** Together: a socket that closes after any part of an answer makes the next socket's first call
      fail with `invalid_response`, whatever was asked and however the broker answered it. */
  lemma CutAnswerSpoilsNextCall<Q(!new)>(json: Protocol<Q>, q: Q, response: Response, n: nat, next: Q, answer: Response)
    requires Reliable(json) && ObjectTexts(json.responses) && 1 <= n <= |json.responses.encode(response)|
    ensures var cut := History(json, "", OneCall(json, q, response) + [ToClient(n)] + [Close]);
            var c := History(json, cut.client.buffer, AnsweredCall(json, next, answer));
            && c.client.settled == [Settlement(0, RejectedWith("invalid_response"))]
            && c.served == [Served(json.requests.encode(next), answer)]
  {
    CutAnswerStays(json, q, response, n);
    var stale := json.responses.encode(response)[..n];
    assert stale[0] == '{';
    StaleBufferSpoils(json, stale, next, answer);
    StaleBufferIsRead(json, stale, next, answer);
  }
}
