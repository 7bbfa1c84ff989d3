/** Newline-delimited text: splitting a stream into lines, whatever chunks it arrives in. */
module Lines {
  import opened Sequences
  import opened Text

  predicate NoNewline(s: string) { forall k :: 0 <= k < |s| ==> s[k] != '\n' }

  /** `indexOf('\n')`, or the length when there is none. */
  function NewlineAt(s: string): (k: nat)
    ensures k <= |s| && (forall j :: 0 <= j < k ==> s[j] != '\n') && (k < |s| ==> s[k] == '\n')
  {
    if s == [] || s[0] == '\n' then 0 else 1 + NewlineAt(s[1..])
  }

  lemma NewlineAtIsFirst(s: string, k: nat)
    requires k <= |s| && (forall j :: 0 <= j < k ==> s[j] != '\n') && (k < |s| ==> s[k] == '\n')
    ensures NewlineAt(s) == k
  {
    assert !(NewlineAt(s) < k) && !(k < NewlineAt(s));
  }

  /** The complete lines of a text and what follows the last newline. */
  datatype Extracted = Extracted(lines: seq<string>, rest: string)

  function Extract(s: string): Extracted
    decreases |s|
  {
    var nl := NewlineAt(s);
    if nl == |s| then Extracted([], s)
    else
      var tail := Extract(s[nl + 1..]);
      Extracted([s[..nl]] + tail.lines, tail.rest)
  }

  /** Every line followed by its newline. */
  function Unlines(lines: seq<string>): string {
    if lines == [] then "" else lines[0] + "\n" + Unlines(lines[1..])
  }

  lemma UnlinesNone()
    ensures Unlines([]) == ""
  {
  }

  lemma UnlinesCons(line: string, tail: seq<string>)
    ensures Unlines([line] + tail) == line + "\n" + Unlines(tail)
  {
    assert ([line] + tail)[1..] == tail;
  }

  lemma ConcatIsAssociative(a: string, b: string, c: string)
    ensures (a + b) + c == a + (b + c)
  {
  }

  lemma ExtractCons(line: string, tail: string)
    requires NoNewline(line)
    ensures Extract(line + "\n" + tail) == Extracted([line] + Extract(tail).lines, Extract(tail).rest)
  {
    var s := line + "\n" + tail;
    NewlineAtIsFirst(s, |line|);
    assert s[..|line|] == line && s[|line| + 1..] == tail;
  }

  lemma ExtractLast(s: string)
    requires NoNewline(s)
    ensures Extract(s) == Extracted([], s)
  {
    NewlineAtIsFirst(s, |s|);
  }

  /** Splitting loses nothing and no line holds a newline. */
  lemma {:induction false} ExtractIsFaithful(s: string)
    ensures Unlines(Extract(s).lines) + Extract(s).rest == s
    ensures forall k :: 0 <= k < |Extract(s).lines| ==> NoNewline(Extract(s).lines[k])
    ensures NoNewline(Extract(s).rest)
    decreases |s|
  {
    var nl := NewlineAt(s);
    if nl < |s| {
      var line, after := s[..nl], s[nl + 1..];
      assert s == line + "\n" + after;
      ExtractIsFaithful(after);
      ExtractCons(line, after);
      FaithfulCons(line, Extract(after), after);
    } else {
      ExtractLast(s);
    }
  }

  lemma FaithfulCons(line: string, tail: Extracted, after: string)
    requires Unlines(tail.lines) + tail.rest == after
    ensures Unlines([line] + tail.lines) + tail.rest == line + "\n" + after
  {
    UnlinesCons(line, tail.lines);
    ConcatIsAssociative(line + "\n", Unlines(tail.lines), tail.rest);
  }

  /** And there is only one way to split: printing lines and splitting gives them back. */
  lemma {:induction false} ExtractUnlines(lines: seq<string>, rest: string)
    requires (forall k :: 0 <= k < |lines| ==> NoNewline(lines[k])) && NoNewline(rest)
    ensures Extract(Unlines(lines) + rest) == Extracted(lines, rest)
  {
    hide Extract, Unlines, NoNewline;
    if lines == [] {
      UnlinesNone();
      assert "" + rest == rest;
      ExtractLast(rest);
    } else {
      var tail := Unlines(lines[1..]) + rest;
      UnlinesCons(lines[0], lines[1..]);
      ConcatIsAssociative(lines[0] + "\n", Unlines(lines[1..]), rest);
      ExtractUnlines(lines[1..], rest);
      ExtractCons(lines[0], tail);
      assert lines == [lines[0]] + lines[1..];
    }
  }

  lemma {:induction false} UnlinesAppend(a: seq<string>, b: seq<string>)
    ensures Unlines(a + b) == Unlines(a) + Unlines(b)
  {
    if a == [] {
      assert a + b == b;
    } else {
      assert (a + b)[1..] == a[1..] + b;
      UnlinesAppend(a[1..], b);
      ConcatIsAssociative(a[0] + "\n", Unlines(a[1..]), Unlines(b));
    }
  }

  /** Chunking does not matter: the lines of a text are those of a first part, then those of the
      rest of the first part followed by the second part. */
  lemma ExtractInChunks(a: string, b: string)
    ensures Extract(a + b) == Extracted(Extract(a).lines + Extract(Extract(a).rest + b).lines,
                                        Extract(Extract(a).rest + b).rest)
  {
    var x := Extract(a);
    var y := Extract(x.rest + b);
    ExtractIsFaithful(a);
    ExtractIsFaithful(x.rest + b);
    UnlinesAppend(x.lines, y.lines);
    ConcatIsAssociative(Unlines(x.lines), x.rest, b);
    ConcatIsAssociative(Unlines(x.lines), Unlines(y.lines), y.rest);
    assert a + b == Unlines(x.lines + y.lines) + y.rest;
    ExtractUnlines(x.lines + y.lines, y.rest);
  }

  /** `split('\n')` */
  function Split(s: string): seq<string> {
    Extract(s).lines + [Extract(s).rest]
  }

  /** The lines that are not white space only. */
  function NonBlank(lines: seq<string>): seq<string> {
    if lines == [] then []
    else NonBlank(lines[..|lines| - 1]) + (if IsBlank(lines[|lines| - 1]) then [] else [lines[|lines| - 1]])
  }

  lemma {:induction false} NonBlankAppend(a: seq<string>, b: seq<string>)
    ensures NonBlank(a + b) == NonBlank(a) + NonBlank(b)
  {
    if b == [] {
      assert a + b == a;
    } else {
      assert (a + b)[..|a + b| - 1] == a + b[..|b| - 1];
      NonBlankAppend(a, b[..|b| - 1]);
    }
  }

  lemma {:induction false} NonBlankIsIdentity(lines: seq<string>)
    requires forall l :: l in lines ==> !IsBlank(l)
    ensures NonBlank(lines) == lines
  {
    if lines != [] {
      NonBlankIsIdentity(lines[..|lines| - 1]);
      assert lines == lines[..|lines| - 1] + [lines[|lines| - 1]];
    }
  }

  /** The receiving end of a connection: broker, client and sidecar all run this loop. */
  class LineReader {
    var buffer: string

    constructor ()
      ensures buffer == ""
    {
      buffer := "";
    }

    /** Appends a chunk and takes every complete line off the buffer; blank ones are skipped. */
    method OnData(chunk: string) returns (lines: seq<string>)
      modifies this
      ensures lines == NonBlank(Extract(old(buffer) + chunk).lines)
      ensures buffer == Extract(old(buffer) + chunk).rest
    {
      ghost var whole := buffer + chunk;
      buffer := buffer + chunk;
      lines := [];
      ghost var taken: seq<string> := [];
      var nl := NewlineAt(buffer);
      while nl < |buffer|
        invariant nl == NewlineAt(buffer)
        invariant Extract(whole) == Extracted(taken + Extract(buffer).lines, Extract(buffer).rest)
        invariant lines == NonBlank(taken)
        decreases |buffer|
      {
        var line := buffer[..nl];
        MoveLine(taken, line, Extract(buffer[nl + 1..]).lines);
        buffer := buffer[nl + 1..];
        taken := taken + [line];
        if !IsBlank(line) {
          lines := lines + [line];
        }
        nl := NewlineAt(buffer);
      }
      assert taken + [] == taken;
    }
  }

  lemma MoveLine(taken: seq<string>, line: string, tail: seq<string>)
    ensures taken + ([line] + tail) == (taken + [line]) + tail
    ensures NonBlank(taken + [line]) == NonBlank(taken) + (if IsBlank(line) then [] else [line])
  {
    assert (taken + [line])[..|taken|] == taken;
  }

  /** Everything a reader hands out over a list of chunks, and what it keeps. */
  function Received(chunks: seq<string>): (seq<string>, string) {
    if chunks == [] then ([], "")
    else
      var before := Received(chunks[..|chunks| - 1]);
      var x := Extract(before.1 + chunks[|chunks| - 1]);
      (before.0 + NonBlank(x.lines), x.rest)
  }

  /** For any chunking, the lines handed out are the non-blank lines of the whole stream. */
  lemma {:induction false} ChunkingDoesNotMatter(chunks: seq<string>)
    ensures Received(chunks) == (NonBlank(Extract(Concat(chunks)).lines), Extract(Concat(chunks)).rest)
  {
    if chunks == [] {
      assert Extract("") == Extracted([], "");
    } else {
      var init, last := chunks[..|chunks| - 1], chunks[|chunks| - 1];
      ChunkingDoesNotMatter(init);
      ExtractInChunks(Concat(init), last);
      NonBlankAppend(Extract(Concat(init)).lines, Extract(Extract(Concat(init)).rest + last).lines);
    }
  }

  /** A line is skipped exactly when it is white space, wherever it stands. */
  lemma NonBlankAt(a: seq<string>, line: string, b: seq<string>)
    ensures NonBlank(a + [line] + b) == NonBlank(a) + (if Trim(line) == "" then [] else [line]) + NonBlank(b)
  {
    TrimIsEmptyIffBlank(line);
    NonBlankAppend(a + [line], b);
    MoveLine(a, line, []);
  }
}
