/** The deliver branch of the Codex app-server adapter (adapters/codex-app-server/adapter.py). */
module AppServer {
  import opened Wrappers
  import opened Sequences
  import opened Text
  import opened BrokerModel
  import opened Decisions
  import D = Dedupe
  import S = Sidecar

  /** A deliver request. `terminal`: typing into the bound terminal works; `helper`: the reason the
      app-server helper gives when it refuses. */
  datatype TurnRequest = TurnRequest(authorized: bool, id: Field, body: Field, terminal: bool, helper: Option<string>)

  /** The id and body are such that the request gets as far as the dedupe query. */
  predicate Queries(d: TurnRequest) {
    && d.authorized && d.id.Text? && d.id.text != "" && |d.id.text| <= 128
    && d.body.Text? && d.body.text != ""
  }

  function ReplyTo(calls: seq<string>, d: TurnRequest): S.Reply {
    if !d.authorized then S.Rejected("unauthorized")
    else if !(d.id.Text? && d.id.text != "" && |d.id.text| <= 128) then S.Rejected("missing_id")
    else if !(d.body.Text? && d.body.text != "") then S.Rejected("missing_body")
    else if d.id.text in calls && |D.After(calls, d.id.text)| < D.DEDUPE_SIZE then S.Rejected("duplicate")
    else if d.terminal || d.helper.None? then S.AcceptedReply
    else S.Rejected(d.helper.value)
  }

  class Adapter {
    const window: D.LruWindow
    var turns: seq<string>
    ghost var tried: seq<string>

    /** `tried` are the ids that passed the window, `turns` those that became a turn. */
    ghost predicate Valid()
      reads this, window
    {
      && window.Valid() && window.size == D.DEDUPE_SIZE
      && tried == D.LruMisses(window.calls, D.DEDUPE_SIZE)
      && multiset(turns) <= multiset(tried)
    }

    constructor ()
      ensures Valid() && fresh(window) && window.calls == [] && turns == []
    {
      window := new D.LruWindow(D.DEDUPE_SIZE);
      turns, tried := [], [];
    }

    method Deliver(d: TurnRequest) returns (reply: S.Reply)
      requires Valid()
      modifies this, window
      ensures Valid()
      ensures reply == ReplyTo(old(window.calls), d)
      ensures window.calls == old(window.calls) + (if Queries(d) then [d.id.text] else [])
      ensures turns == old(turns) + (if reply == S.AcceptedReply then [d.id.text] else [])
    {
      if !d.authorized {
        reply := S.Rejected("unauthorized");
      } else if !(d.id.Text? && d.id.text != "" && |d.id.text| <= 128) {
        reply := S.Rejected("missing_id");
      } else if !(d.body.Text? && d.body.text != "") {
        reply := S.Rejected("missing_body");
      } else {
        var seen := SeenBefore(d.id.text);
        if seen {
          reply := S.Rejected("duplicate");
        } else if d.terminal || d.helper.None? {
          turns := turns + [d.id.text];
          reply := S.AcceptedReply;
        } else {
          reply := S.Rejected(d.helper.value);
        }
      }
    }

    method SeenBefore(id: string) returns (seen: bool)
      requires Valid()
      modifies this`tried, window
      ensures Valid() && window.calls == old(window.calls) + [id]
      ensures seen <==> id in old(window.calls) && |D.After(old(window.calls), id)| < 256
      ensures tried == old(tried) + (if seen then [] else [id])
    {
      D.HitIffRecent(window.calls, id, D.DEDUPE_SIZE);
      assert (window.calls + [id])[..|window.calls|] == window.calls;
      seen := window.SeenBefore(id);
      if !seen {
        tried := tried + [id];
      }
    }
  }

  lemma {:induction false} DistinctCounts(xs: seq<string>, x: string)
    requires Distinct(xs)
    ensures multiset(xs)[x] <= 1
  {
    if xs != [] {
      var init, last := xs[..|xs| - 1], xs[|xs| - 1];
      assert xs == init + [last];
      DistinctCounts(init, x);
      assert last !in init;
    }
  }

  /** While at most 256 different ids have been asked for, no id is tried twice, whether or not the
      helper says that it became a turn. */
  lemma FewIdsTriedOnce(a: Adapter, id: string)
    requires a.Valid() && |D.Elements(a.window.calls)| <= 256
    ensures multiset(a.turns)[id] <= multiset(a.tried)[id] <= 1
  {
    D.FewValuesMissOnce(a.window.calls, 256);
    DistinctCounts(a.tried, id);
  }

  lemma {:induction false} LengthInUnits(s: string)
    ensures |s| <= JsLength(s)
  {
    if s != [] {
      LengthInUnits(s[1..]);
    }
  }

  /** Whatever the broker lets through is well formed for both kinds of adapter: an authorised
      delivery of it is never refused for its id or its body. */
  lemma BrokerMailIsWellFormed(participants: map<BrokerModel.Token, Record>, now: nat, req: PushRequest, nowIso: string,
                               terminal: bool, helper: Option<string>)
    requires CheckPush(participants, now, req).Success?
    ensures var e := MakeEnvelope(CheckPush(participants, now, req).value, req, nowIso);
            && Queries(TurnRequest(true, BrokerModel.Text(e.id), BrokerModel.Text(e.body), terminal, helper))
            && S.Queries(S.DeliverRequest(true, BrokerModel.Text(e.id), BrokerModel.Text(e.body), Some(e.from),
               Some(e.sentAt)))
  {
    LengthInUnits(req.id.text);
  }

  /** What a delivery is refused for, the first reason that applies; a helper is only asked when typing into
      the terminal does not work. */
  function TurnRows(calls: seq<string>, d: TurnRequest): seq<Row> {
    [Row(!d.authorized, "unauthorized"), Row(!(d.id.Text? && 1 <= |d.id.text| <= 128), "missing_id")]
    + ([Row(!(d.body.Text? && d.body.text != ""), "missing_body"),
        Row(d.id.Text? && d.id.text in calls && |D.After(calls, d.id.text)| < 256, "duplicate")]
       + [Row(!d.terminal && d.helper.Some?, d.helper.GetOr(""))])
  }

  /** It is accepted, and becomes a turn, exactly when no reason applies, and the window is asked exactly
      when none of the first three does. */
  lemma TurnDecides(calls: seq<string>, d: TurnRequest)
    ensures var refusal := FirstOf(TurnRows(calls, d));
            && ReplyTo(calls, d) == (if refusal.Some? then S.Rejected(refusal.value) else S.AcceptedReply)
            && (Queries(d) <==> FirstOf(TurnRows(calls, d)[..3]).None?)
  {
    hide FirstOf, D.After;
    var rows := TurnRows(calls, d);
    FirstOfAppend([rows[0], rows[1]], [rows[2], rows[3]] + [rows[4]]);
    FirstOfAppend([rows[2], rows[3]], [rows[4]]);
    FirstOfTwo(rows[0], rows[1]);
    FirstOfTwo(rows[2], rows[3]);
    FirstOfOne(rows[4]);
    assert rows == [rows[0], rows[1]] + ([rows[2], rows[3]] + [rows[4]]);
    FirstOfAppend([rows[0], rows[1]], [rows[2]]);
    FirstOfOne(rows[2]);
    assert rows[..3] == [rows[0], rows[1]] + [rows[2]];
  }
}
