/** The mailbox directory: what a queue looks like on disk and what a restart makes of it. */
module MailboxFiles {
  import opened Wrappers
  import opened Text
  import opened Lines
  import opened Json
  import opened BrokerModel

  type MailCodec = Codec<Entry<Envelope>>

  function PrintAll(codec: MailCodec, q: seq<Entry<Envelope>>): (r: seq<string>)
    ensures |r| == |q|
  {
    seq(|q|, k requires 0 <= k < |q| => codec.encode(q[k]))
  }

  /** `join('\n')` */
  function Join(lines: seq<string>): string {
    if lines == [] then ""
    else if |lines| == 1 then lines[0]
    else Join(lines[..|lines| - 1]) + "\n" + lines[|lines| - 1]
  }

  /** The text rewriteMailboxFile writes for a queue that is not empty. */
  function FileText(codec: MailCodec, q: seq<Entry<Envelope>>): string {
    Join(PrintAll(codec, q)) + "\n"
  }

  /** Write-through: one file per queue, holding its text; no queue, no file. */
  function Mirror(codec: MailCodec, mailbox: map<SessionHash, seq<Entry<Envelope>>>): map<SessionHash, string> {
    map h | h in mailbox :: FileText(codec, mailbox[h])
  }

  /** The lines of a file that are kept at start-up, oldest first. */
  function LoadLines(codec: MailCodec, lines: seq<string>, now: nat): seq<Entry<Envelope>> {
    if lines == [] then []
    else
      var before := LoadLines(codec, lines[..|lines| - 1], now);
      var line := lines[|lines| - 1];
      if IsBlank(line) then before
      else
        match codec.decode(line)
        case None => before
        case Some(e) => if IsFresh(e, now) then before + [e] else before
  }

  function LoadFile(codec: MailCodec, content: string, now: nat): seq<Entry<Envelope>> {
    LoadLines(codec, Split(content), now)
  }

  /** The mailbox table after start-up. */
  function LoadAll(codec: MailCodec, files: map<SessionHash, string>, now: nat)
    : map<SessionHash, seq<Entry<Envelope>>> {
    map h | h in files && LoadFile(codec, files[h], now) != [] :: LoadFile(codec, files[h], now)
  }

  lemma {:induction false} JoinIsUnlines(lines: seq<string>)
    requires lines != []
    ensures Join(lines) + "\n" == Unlines(lines)
  {
    if |lines| == 1 {
      assert Unlines(lines[1..]) == "";
    } else {
      var init, last := lines[..|lines| - 1], lines[|lines| - 1];
      JoinIsUnlines(init);
      assert lines == init + [last];
      UnlinesAppend(init, [last]);
      assert Unlines([last]) == last + "\n" + Unlines([last][1..]);
      assert Unlines([last][1..]) == "";
    }
  }

  lemma {:induction false} LoadPrinted(codec: MailCodec, q: seq<Entry<Envelope>>, now: nat)
    requires Faithful(codec)
    ensures LoadLines(codec, PrintAll(codec, q), now) == Unexpired(q, now)
  {
    if q != [] {
      var init, last := q[..|q| - 1], q[|q| - 1];
      LoadPrinted(codec, init, now);
      assert PrintAll(codec, q)[..|q| - 1] == PrintAll(codec, init);
      assert codec.decode(codec.encode(last)) == Some(last);
    }
  }

  /** Printing a queue, then splitting and parsing the file, gives back the queue minus the
      entries that have expired meanwhile. */
  lemma PrintThenLoad(codec: MailCodec, q: seq<Entry<Envelope>>, now: nat)
    requires Faithful(codec) && q != []
    ensures LoadFile(codec, FileText(codec, q), now) == Unexpired(q, now)
  {
    var lines := PrintAll(codec, q);
    JoinIsUnlines(lines);
    assert Unlines(lines) + "" == Unlines(lines);
    ExtractUnlines(lines, "");
    assert (lines + [""])[..|lines|] == lines;
    LoadPrinted(codec, q, now);
  }

  /** A crash at any moment loses no queued mail: the mailbox loaded from the mirrored files is the
      old one, in order, without the expired entries and without empty queues. */
  lemma CrashThenLoad(codec: MailCodec, mailbox: map<SessionHash, seq<Entry<Envelope>>>, now: nat)
    requires Faithful(codec) && forall h :: h in mailbox ==> mailbox[h] != []
    ensures LoadAll(codec, Mirror(codec, mailbox), now) == PruneMailbox(mailbox, now)
  {
    forall h | h in mailbox
      ensures LoadFile(codec, Mirror(codec, mailbox)[h], now) == Unexpired(mailbox[h], now)
    {
      PrintThenLoad(codec, mailbox[h], now);
    }
  }

  lemma {:induction false} LoadAppend(codec: MailCodec, a: seq<string>, b: seq<string>, now: nat)
    ensures LoadLines(codec, a + b, now) == LoadLines(codec, a, now) + LoadLines(codec, b, now)
  {
    if b == [] {
      assert a + b == a;
    } else {
      assert (a + b)[..|a + b| - 1] == a + b[..|b| - 1];
      LoadAppend(codec, a, b[..|b| - 1], now);
    }
  }

  /** What one line of a file comes to, among any others: an entry, if the line parses and the entry was
      queued less than 300 s ago; else nothing. A line that does not parse spoils no other. */
  lemma LineComesTo(codec: MailCodec, a: seq<string>, line: string, b: seq<string>, now: nat)
    ensures LoadLines(codec, a + [line] + b, now)
            == LoadLines(codec, a, now)
               + (if Trim(line) == "" || codec.decode(line) == None then []
                  else if now < codec.decode(line).value.queuedAt + 300_000 then [codec.decode(line).value] else [])
               + LoadLines(codec, b, now)
  {
    TrimIsEmptyIffBlank(line);
    LoadAppend(codec, a + [line], b, now);
    LoadAppend(codec, a, [line], now);
    assert [line][..0] == [];
  }

  /** The lines of a file put together again are the file. */
  lemma SplitThenJoin(content: string)
    ensures Join(Split(content)) == content
    ensures forall k :: 0 <= k < |Split(content)| ==> NoNewline(Split(content)[k])
  {
    var x := Extract(content);
    ExtractIsFaithful(content);
    if x.lines == [] {
      assert Unlines([]) + x.rest == x.rest;
    } else {
      JoinIsUnlines(x.lines);
      assert Split(content)[..|x.lines|] == x.lines;
    }
  }
}
