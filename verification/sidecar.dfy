/** The PTY sidecar's deliver branch: authorise, deduplicate, render, type, and submit after a
    delay (adapters/claude-pty/sidecar.js, adapters/codex-pty/sidecar.js). */
module Sidecar {
  import opened Wrappers
  import opened Sequences
  import opened BrokerModel
  import opened Decisions
  import opened Dedupe
  import opened Sanitizer

  const CR: char := '\r'

  datatype DeliverRequest = DeliverRequest(authorized: bool, id: Field, body: Field,
                                           from: Option<string>, sentAt: Option<string>)

  datatype Reply = AcceptedReply | Rejected(reason: string)

  /** `slice(from, to)` for a string and bounds that are not negative. */
  function Slice(s: string, from: nat, to: nat): string
    requires from <= to
  {
    if |s| <= from then "" else if |s| <= to then s[from..] else s[from..to]
  }

  function TimeSlice(sentAt: Option<string>): string {
    match sentAt
    case Some(s) => Slice(s, 11, 16) + "Z"
    case None => ""
  }

  /** renderEnvelope. The time slice is the one part that is not sanitized. */
  function RenderEnvelope(req: DeliverRequest): string {
    "[from:" + SanitizeForTTY(req.from) + " \U{00B7} msg:" + SanitizeForTTY(Some(TextOf(req.id))) + " \U{00B7} "
    + TimeSlice(req.sentAt) + "] " + SanitizeForTTY(Some(TextOf(req.body)))
  }

  /** What the deliver branch says to a request after a list of earlier dedupe queries. `failAt`
      is the character whose write throws, if one does. */
  function ReplyTo(calls: seq<string>, req: DeliverRequest, failAt: Option<nat>): Reply {
    if !req.authorized then Rejected("unauthorized")
    else if !(req.id.Text? && req.id.text != "") then Rejected("missing_id")
    else if !req.body.Text? then Rejected("missing_body")
    else if req.id.text in Last(Misses(calls, DEDUPE_SIZE), DEDUPE_SIZE) then Rejected("duplicate")
    else if failAt.Some? && failAt.value < |RenderEnvelope(req)| then Rejected("write_error")
    else AcceptedReply
  }

  /** The request gets as far as the dedupe query. */
  predicate Queries(req: DeliverRequest) {
    req.authorized && req.id.Text? && req.id.text != "" && req.body.Text?
  }

  // ---- the terminal ---------------------------------------------------------------------------

  /** Everything typed so far, the submit timers still pending, and the lines of the accepted
      deliveries in order. */
  datatype Tty = Tty(stream: string, timers: nat, lines: seq<string>)

  datatype TtyEvent = Typed(line: string) | Broken(prefix: string) | Fire(written: bool)

  function TtyStep(t: Tty, e: TtyEvent): Tty {
    match e
    case Typed(line) => Tty(t.stream + line, t.timers + 1, t.lines + [line])
    case Broken(prefix) => t.(stream := t.stream + prefix)
    case Fire(written) =>
      if t.timers == 0 then t
      else Tty(if written then t.stream + [CR] else t.stream, t.timers - 1, t.lines)
  }

  function TtyRun(events: seq<TtyEvent>): Tty {
    if events == [] then Tty("", 0, []) else TtyStep(TtyRun(events[..|events| - 1]), events[|events| - 1])
  }

  // ---- the process --------------------------------------------------------------------------------

  class PtySidecar {
    const window: FifoWindow
    var tty: string
    var timers: nat
    ghost var lines: seq<string>

    ghost predicate Valid()
      reads this, window
    {
      window.Valid()
    }

    ghost function Screen(): Tty
      reads this
    {
      Tty(tty, timers, lines)
    }

    constructor ()
      ensures Valid() && fresh(window) && window.calls == [] && Screen() == TtyRun([])
    {
      window := new FifoWindow();
      tty, timers, lines := "", 0, [];
    }

    /** Types a text character by character; `failAt` is the write that throws, if one does. */
    method Write(text: string, failAt: Option<nat>) returns (ok: bool)
      modifies this`tty
      ensures ok <==> failAt.None? || failAt.value >= |text|
      ensures tty == old(tty) + (if ok then text else text[..failAt.value])
    {
      var i := 0;
      ok := true;
      while i < |text|
        invariant 0 <= i <= |text|
        invariant tty == old(tty) + text[..i]
        invariant failAt.Some? ==> i <= failAt.value || |text| <= failAt.value
      {
        if failAt == Some(i) {
          return false;
        }
        tty := tty + [text[i]];
        i := i + 1;
      }
      assert text[..|text|] == text;
    }

    method Deliver(req: DeliverRequest, failAt: Option<nat>) returns (reply: Reply)
      requires Valid()
      modifies this`tty, this`timers, this`lines, window
      ensures Valid()
      ensures reply == ReplyTo(old(window.calls), req, failAt)
      ensures window.calls == old(window.calls) + (if Queries(req) then [req.id.text] else [])
      ensures reply == AcceptedReply ==> Screen() == TtyStep(old(Screen()), Typed(RenderEnvelope(req)))
      ensures reply == Rejected("write_error") ==>
                Screen() == TtyStep(old(Screen()), Broken(RenderEnvelope(req)[..failAt.value]))
      ensures reply != AcceptedReply && reply != Rejected("write_error") ==> Screen() == old(Screen())
    {
      if !req.authorized {
        return Rejected("unauthorized");
      }
      if !(req.id.Text? && req.id.text != "") {
        return Rejected("missing_id");
      }
      if !req.body.Text? {
        return Rejected("missing_body");
      }
      var seen := window.SeenBefore(req.id.text);
      if seen {
        return Rejected("duplicate");
      }
      var rendered := RenderEnvelope(req);
      var ok := Write(rendered, failAt);
      if !ok {
        return Rejected("write_error");
      }
      timers := timers + 1;
      lines := lines + [rendered];
      return AcceptedReply;
    }

    /** A submit timer goes off; a write that throws is swallowed. */
    method Submit(written: bool)
      requires Valid() && timers > 0
      modifies this`tty, this`timers
      ensures Valid() && Screen() == TtyStep(old(Screen()), Fire(written))
    {
      timers := timers - 1;
      if written {
        tty := tty + [CR];
      }
    }
  }

  // ---- the character stream -----------------------------------------------------------------------

  /** Every line followed by its submit key. */
  function Submitted(lines: seq<string>): string {
    if lines == [] then "" else Submitted(lines[..|lines| - 1]) + lines[|lines| - 1] + [CR]
  }

  function DropCr(s: string): string {
    if s == "" then "" else DropCr(s[..|s| - 1]) + (if s[|s| - 1] == CR then "" else [s[|s| - 1]])
  }

  function CountCr(s: string): nat {
    if s == "" then 0 else CountCr(s[..|s| - 1]) + (if s[|s| - 1] == CR then 1 else 0)
  }

  predicate CrFree(s: string) { forall k :: 0 <= k < |s| ==> s[k] != CR }

  lemma {:induction false} CrAppend(a: string, b: string)
    ensures DropCr(a + b) == DropCr(a) + DropCr(b)
    ensures CountCr(a + b) == CountCr(a) + CountCr(b)
  {
    if b == "" {
      assert a + b == a;
    } else {
      assert (a + b)[..|a + b| - 1] == a + b[..|b| - 1];
      CrAppend(a, b[..|b| - 1]);
    }
  }

  lemma {:induction false} CrCounts(s: string)
    ensures |DropCr(s)| + CountCr(s) == |s|
    ensures CrFree(s) <==> CountCr(s) == 0
    ensures CrFree(s) ==> DropCr(s) == s
  {
    if s != "" {
      CrCounts(s[..|s| - 1]);
      assert s == s[..|s| - 1] + [s[|s| - 1]];
    }
  }

  lemma {:induction false} ConcatCounts(lines: seq<string>)
    ensures (forall k :: 0 <= k < |lines| ==> CrFree(lines[k])) <==> CountCr(Concat(lines)) == 0
  {
    if lines != [] {
      var init, last := lines[..|lines| - 1], lines[|lines| - 1];
      ConcatCounts(init);
      CrAppend(Concat(init), last);
      CrCounts(last);
      assert forall k :: 0 <= k < |init| ==> init[k] == lines[k];
    }
  }

  /** Writes never throw. */
  ghost predicate Smooth(events: seq<TtyEvent>) {
    forall e :: e in events ==> !e.Broken? && e != Fire(false)
  }

  /** The stream theorem, under any interleaving of deliveries and submit timers: without the
      submit keys the stream is the accepted lines in order without theirs, and it holds one
      submit key for every acceptance whose timer has gone off, besides those in the lines. */
  lemma {:induction false} StreamIsTheLines(events: seq<TtyEvent>)
    requires Smooth(events)
    ensures var t := TtyRun(events);
            && DropCr(t.stream) == DropCr(Concat(t.lines))
            && CountCr(t.stream) + t.timers == |t.lines| + CountCr(Concat(t.lines))
  {
    if events != [] {
      var init, e := events[..|events| - 1], events[|events| - 1];
      StreamIsTheLines(init);
      var t := TtyRun(init);
      match e
      case Typed(line) =>
        CrAppend(t.stream, line);
        CrAppend(Concat(t.lines), line);
        assert (t.lines + [line])[..|t.lines|] == t.lines;
      case Fire(_) =>
        CrAppend(t.stream, [CR]);
        assert DropCr([CR]) == "" && CountCr([CR]) == 1 by {
          assert [CR][..0] == "";
        }
    }
  }

  /** So the stream without submit keys is the lines exactly when no line holds a submit key
      itself, and then the submit keys never outnumber the acceptances and match them when no
      timer is pending. */
  lemma StreamIsExactIffLinesAreCrFree(events: seq<TtyEvent>)
    requires Smooth(events)
    ensures var t := TtyRun(events);
            && (DropCr(t.stream) == Concat(t.lines) <==> forall k :: 0 <= k < |t.lines| ==> CrFree(t.lines[k]))
            && ((forall k :: 0 <= k < |t.lines| ==> CrFree(t.lines[k])) ==>
                  CountCr(t.stream) <= |t.lines| && (CountCr(t.stream) == |t.lines| <==> t.timers == 0))
  {
    StreamIsTheLines(events);
    var t := TtyRun(events);
    ConcatCounts(t.lines);
    CrCounts(Concat(t.lines));
  }

  /** Every delivery comes after the previous timer has gone off. */
  ghost predicate Unhurried(events: seq<TtyEvent>) {
    forall k :: 0 <= k < |events| && events[k].Typed? ==> TtyRun(events[..k]).timers == 0
  }

  /** Then the stream is line, submit key, line, submit key and so on. */
  lemma {:induction false} UnhurriedStream(events: seq<TtyEvent>)
    requires Smooth(events) && Unhurried(events)
    ensures var t := TtyRun(events);
            && t.timers <= 1 && (t.timers == 1 ==> t.lines != [])
            && (t.timers == 0 ==> t.stream == Submitted(t.lines))
            && (t.timers == 1 ==> t.stream == Submitted(t.lines[..|t.lines| - 1]) + t.lines[|t.lines| - 1])
  {
    if events != [] {
      var init, e := events[..|events| - 1], events[|events| - 1];
      assert forall k :: 0 <= k < |init| ==> init[..k] == events[..k] && init[k] == events[k];
      UnhurriedStream(init);
      var t := TtyRun(init);
      if e.Typed? {
        assert (t.lines + [e.line])[..|t.lines|] == t.lines;
      }
    }
  }

  /** All of a rendered line but its time slice is clean. */
  lemma RenderedParts(req: DeliverRequest) returns (head: string, tail: string)
    ensures RenderEnvelope(req) == head + TimeSlice(req.sentAt) + tail && IsClean(head) && IsClean(tail)
  {
    hide SanitizeForTTY, TimeSlice;
    SanitizedIsClean(req.from);
    SanitizedIsClean(Some(TextOf(req.id)));
    SanitizedIsClean(Some(TextOf(req.body)));
    head := "[from:" + SanitizeForTTY(req.from) + " \U{00B7} msg:" + SanitizeForTTY(Some(TextOf(req.id)))
      + " \U{00B7} ";
    tail := "] " + SanitizeForTTY(Some(TextOf(req.body)));
    assert RenderEnvelope(req) == head + TimeSlice(req.sentAt) + tail;
  }

  /** A rendered line can hold a control character, and so a submit key, only in the time slice. */
  lemma RenderedIsCleanIffTimeIs(req: DeliverRequest)
    ensures IsClean(RenderEnvelope(req)) <==> IsClean(TimeSlice(req.sentAt))
    ensures CrFree(RenderEnvelope(req)) <==> CrFree(TimeSlice(req.sentAt))
  {
    hide RenderEnvelope;
    var head, tail := RenderedParts(req);
    var time := TimeSlice(req.sentAt);
    assert IsControl(CR);
    forall k | 0 <= k < |time|
      ensures (head + time + tail)[|head| + k] == time[k]
    {
    }
  }

  /** The time shown: the characters 11 to 15 of the time stamp, as far as it has them, and a Z. */
  lemma TimeShown(s: string)
    ensures |s| >= 16 ==> TimeSlice(Some(s)) == [s[11]] + [s[12]] + [s[13]] + [s[14]] + [s[15]] + "Z"
    ensures 11 < |s| < 16 ==> TimeSlice(Some(s)) == s[11..] + "Z"
    ensures |s| <= 11 ==> TimeSlice(Some(s)) == "Z"
    ensures TimeSlice(None) == ""
  {
  }

  /** What a delivery is refused for, the first reason that applies. */
  function DeliveryRows(calls: seq<string>, req: DeliverRequest, failAt: Option<nat>): seq<Row> {
    [Row(!req.authorized, "unauthorized"), Row(!(req.id.Text? && req.id.text != ""), "missing_id")]
    + ([Row(!req.body.Text?, "missing_body"),
        Row(req.id.Text? && req.id.text in Last(Misses(calls, 256), 256), "duplicate")]
       + [Row(failAt.Some? && failAt.value < |RenderEnvelope(req)|, "write_error")])
  }

  /** It is accepted exactly when no reason applies, and the window is asked exactly when none of the first
      three does. */
  lemma DeliveryDecides(calls: seq<string>, req: DeliverRequest, failAt: Option<nat>)
    ensures var refusal := FirstOf(DeliveryRows(calls, req, failAt));
            && ReplyTo(calls, req, failAt) == (if refusal.Some? then Rejected(refusal.value) else AcceptedReply)
            && (Queries(req) <==> FirstOf(DeliveryRows(calls, req, failAt)[..3]).None?)
  {
    hide FirstOf, RenderEnvelope, Misses, Last;
    var rows := DeliveryRows(calls, req, failAt);
    FirstOfAppend([rows[0], rows[1]], [rows[2], rows[3]] + [rows[4]]);
    FirstOfAppend([rows[2], rows[3]], [rows[4]]);
    FirstOfTwo(rows[0], rows[1]);
    FirstOfTwo(rows[2], rows[3]);
    FirstOfOne(rows[4]);
    assert rows == [rows[0], rows[1]] + ([rows[2], rows[3]] + [rows[4]]);
    FirstOfAppend([rows[0], rows[1]], [rows[2]]);
    FirstOfOne(rows[2]);
    assert rows[..3] == [rows[0], rows[1]] + [rows[2]];
  }
}
