/** What may reach a live terminal: `sanitizeForTTY` of the PTY sidecars
    (adapters/claude-pty/sidecar.js, adapters/codex-pty/sidecar.js). */
module Sanitizer {
  import opened Wrappers

  const ESC: char := '\U{001B}'

  // The byte classes of a control sequence (compare section 5.4 of ECMA-48): the parameter
  // bytes the pattern admits, the intermediate bytes and the final bytes share no character.
  predicate IsParameter(c: char) { '0' <= c <= '9' || c == ';' || c == '?' }

  predicate IsIntermediate(c: char) { ' ' <= c <= '/' }

  predicate IsFinal(c: char) { '@' <= c <= '~' }

  /** The second character of a two-character escape: `[@-_]`. */
  predicate IsEscapeByte(c: char) { '@' <= c <= '_' }

  /** CONTROL_CHARS_RE: C0, DEL and C1. */
  predicate IsControl(c: char) { c < ' ' || '\U{007F}' <= c <= '\U{009F}' }

  // ---- the pattern, declaratively --------------------------------------------------------------

  /** `ESC [ parameter* intermediate* final` is exactly the first `n` characters; the parameters
      end at `p`. */
  ghost predicate IsControlSequence(t: string, p: nat, n: nat) {
    && 2 <= p < n <= |t| && t[0] == ESC && t[1] == '['
    && (forall k :: 2 <= k < p ==> IsParameter(t[k]))
    && (forall k :: p <= k < n - 1 ==> IsIntermediate(t[k]))
    && IsFinal(t[n - 1])
  }

  /** ANSI_ESCAPE_RE matches the first `n` characters: its first alternative if that can match at
      all, otherwise its second. */
  ghost predicate Matches(t: string, n: nat) {
    || (exists p: nat :: IsControlSequence(t, p, n))
    || (n == 2 && |t| >= 2 && t[0] == ESC && IsEscapeByte(t[1]) && !exists p: nat, m: nat :: IsControlSequence(t, p, m))
  }

  /** The classes are disjoint, so there is never a choice of how far a match goes. */
  lemma MatchLengthIsUnique(t: string, n: nat, m: nat)
    requires Matches(t, n) && Matches(t, m)
    ensures n == m
  {
    if p: nat, q: nat :| IsControlSequence(t, p, n) && IsControlSequence(t, q, m) {
      assert !IsParameter(t[n - 1]) && !IsIntermediate(t[n - 1]);
      assert !IsParameter(t[m - 1]) && !IsIntermediate(t[m - 1]);
    }
  }

  // ---- the scanner --------------------------------------------------------------------------------

  function SkipParameters(t: string, k: nat): (r: nat)
    requires k <= |t|
    ensures k <= r <= |t| && (forall j :: k <= j < r ==> IsParameter(t[j])) && (r < |t| ==> !IsParameter(t[r]))
    decreases |t| - k
  {
    if k < |t| && IsParameter(t[k]) then SkipParameters(t, k + 1) else k
  }

  function SkipIntermediates(t: string, k: nat): (r: nat)
    requires k <= |t|
    ensures k <= r <= |t| && (forall j :: k <= j < r ==> IsIntermediate(t[j])) && (r < |t| ==> !IsIntermediate(t[r]))
    decreases |t| - k
  {
    if k < |t| && IsIntermediate(t[k]) then SkipIntermediates(t, k + 1) else k
  }

  /** The length of the match at the start of the text, looking at each character once. */
  function MatchLength(t: string): (r: Option<nat>)
    ensures r.Some? ==> 2 <= r.value <= |t|
  {
    if |t| < 2 || t[0] != ESC then None
    else
      var final := if t[1] == '[' then SkipIntermediates(t, SkipParameters(t, 2)) else |t|;
      if final < |t| && IsFinal(t[final]) then Some(final + 1)
      else if IsEscapeByte(t[1]) then Some(2)
      else None
  }

  lemma ScannedSequence(t: string, p: nat, n: nat)
    requires IsControlSequence(t, p, n)
    ensures p == SkipParameters(t, 2) && n == SkipIntermediates(t, p) + 1
  {
    assert !IsParameter(t[p]) && !IsIntermediate(t[n - 1]);
    assert !(SkipParameters(t, 2) < p) && !(p < SkipParameters(t, 2));
    assert !(SkipIntermediates(t, p) < n - 1) && !(n - 1 < SkipIntermediates(t, p));
  }

  /** The scanner decides the pattern: it finds a match exactly when there is one, and its length. */
  lemma ScannerDecidesPattern(t: string, n: nat)
    ensures MatchLength(t) == Some(n) <==> Matches(t, n)
  {
    if p: nat, m: nat :| IsControlSequence(t, p, m) {
      ScannedSequence(t, p, m);
      assert MatchLength(t) == Some(m);
      assert Matches(t, m);
      if Matches(t, n) {
        MatchLengthIsUnique(t, n, m);
      }
    } else if |t| >= 2 && t[0] == ESC && t[1] == '[' {
      var p := SkipParameters(t, 2);
      var f := SkipIntermediates(t, p);
      assert !IsControlSequence(t, p, f + 1);
    }
  }

  // ---- replacing ------------------------------------------------------------------------------------

  /** `replace(ANSI_ESCAPE_RE, '')`: every leftmost match is dropped. */
  function StripEscapes(s: string): string
    decreases |s|
  {
    if s == "" then ""
    else
      match MatchLength(s)
      case Some(n) => StripEscapes(s[n..])
      case None => [s[0]] + StripEscapes(s[1..])
  }

  function Plain(c: char): char { if IsControl(c) then ' ' else c }

  /** `replace(CONTROL_CHARS_RE, ' ')` */
  function BlankControls(s: string): (r: string)
    ensures |r| == |s| && forall k :: 0 <= k < |s| ==> r[k] == Plain(s[k])
  {
    if s == "" then "" else [Plain(s[0])] + BlankControls(s[1..])
  }

  /** sanitizeForTTY; None is null or undefined. */
  function SanitizeForTTY(value: Option<string>): string {
    BlankControls(StripEscapes(value.GetOr("")))
  }

  predicate IsClean(s: string) { forall k :: 0 <= k < |s| ==> !IsControl(s[k]) }

  /** No control character comes out, even when dropping one escape joins the halves of another. */
  lemma SanitizedIsClean(value: Option<string>)
    ensures IsClean(SanitizeForTTY(value))
  {
  }

  lemma {:induction false} StripIsIdentityOnClean(s: string)
    requires IsClean(s)
    ensures StripEscapes(s) == s
    decreases |s|
  {
    if s != "" {
      assert s[0] != ESC;
      StripIsIdentityOnClean(s[1..]);
    }
  }

  /** Clean text passes unchanged. */
  lemma SanitizeIsIdentityOnClean(s: string)
    requires IsClean(s)
    ensures SanitizeForTTY(Some(s)) == s
  {
    StripIsIdentityOnClean(s);
    assert BlankControls(s) == s;
  }

  /** Null and undefined are shown as nothing. */
  lemma NothingIsEmpty()
    ensures SanitizeForTTY(None) == ""
  {
  }

  lemma SanitizeIsIdempotent(value: Option<string>)
    ensures SanitizeForTTY(Some(SanitizeForTTY(value))) == SanitizeForTTY(value)
  {
    SanitizedIsClean(value);
    SanitizeIsIdentityOnClean(SanitizeForTTY(value));
  }

  // ---- what is kept -------------------------------------------------------------------------------------

  /** The positions, from `at` on, that no match covers, when matching starts at `at`. */
  function Kept(s: string, at: nat): seq<nat>
    requires at <= |s|
    decreases |s| - at
  {
    if at == |s| then []
    else
      match MatchLength(s[at..])
      case Some(n) => Kept(s, at + n)
      case None => [at] + Kept(s, at + 1)
  }

  datatype Match = Match(from: nat, len: nat)

  /** The leftmost, non-overlapping matches. */
  function Found(s: string, at: nat): seq<Match>
    requires at <= |s|
    decreases |s| - at
  {
    if at == |s| then []
    else
      match MatchLength(s[at..])
      case Some(n) => [Match(at, n)] + Found(s, at + n)
      case None => Found(s, at + 1)
  }

  ghost predicate Covered(found: seq<Match>, j: nat) {
    exists k :: 0 <= k < |found| && found[k].from <= j < found[k].from + found[k].len
  }

  /** `out` is `s` at the places `at`, which increase from `from` on. */
  ghost predicate PickedAt(s: string, out: string, at: seq<nat>, from: nat) {
    && |at| == |out|
    && (forall k :: 0 <= k < |at| ==> from <= at[k] < |s| && out[k] == s[at[k]])
    && (forall j, k :: 0 <= j < k < |at| ==> at[j] < at[k])
  }

  lemma PickedCons(s: string, out: string, at: seq<nat>, from: nat)
    requires from < |s| && PickedAt(s, out, at, from + 1)
    ensures PickedAt(s, [s[from]] + out, [from] + at, from)
  {
  }

  lemma {:induction false} StripKeeps(s: string, at: nat)
    requires at <= |s|
    ensures PickedAt(s, StripEscapes(s[at..]), Kept(s, at), at)
    decreases |s| - at
  {
    if at < |s| {
      match MatchLength(s[at..])
      case Some(n) =>
        StripKeeps(s, at + n);
        assert s[at..][n..] == s[at + n..];
      case None =>
        StripKeeps(s, at + 1);
        assert s[at..][1..] == s[at + 1..] && s[at..][0] == s[at];
        PickedCons(s, StripEscapes(s[at + 1..]), Kept(s, at + 1), at);
    }
  }

  lemma CoveredCons(head: Match, found: seq<Match>, j: nat)
    ensures Covered([head] + found, j) <==> head.from <= j < head.from + head.len || Covered(found, j)
  {
    var all := [head] + found;
    if Covered(found, j) {
      var k :| 0 <= k < |found| && found[k].from <= j < found[k].from + found[k].len;
      assert all[k + 1] == found[k];
    }
    if head.from <= j < head.from + head.len {
      assert all[0] == head;
    }
  }

  /** These are matches the scanner finds, none before `at`. */
  ghost predicate ScannedFrom(s: string, found: seq<Match>, at: nat) {
    forall k :: 0 <= k < |found| ==>
      && at <= found[k].from && found[k].from + found[k].len <= |s|
      && MatchLength(s[found[k].from..]) == Some(found[k].len)
  }

  lemma ScannedCons(s: string, head: Match, found: seq<Match>, at: nat)
    requires ScannedFrom(s, found, head.from + head.len) && ScannedFrom(s, [head], at)
    ensures ScannedFrom(s, [head] + found, at)
  {
    assert [head][0] == head;
  }

  lemma {:induction false} FoundIsLater(s: string, at: nat)
    requires at <= |s|
    ensures ScannedFrom(s, Found(s, at), at)
    decreases |s| - at
  {
    if at < |s| {
      match MatchLength(s[at..])
      case Some(n) =>
        FoundIsLater(s, at + n);
        ScannedCons(s, Match(at, n), Found(s, at + n), at);
      case None => FoundIsLater(s, at + 1);
    }
  }

  lemma NotCoveredBefore(s: string, at: nat, j: nat)
    requires j < at <= |s|
    ensures !Covered(Found(s, at), j)
  {
    FoundIsLater(s, at);
  }

  ghost predicate NoneBefore(kept: seq<nat>, at: nat) {
    forall k :: 0 <= k < |kept| ==> at <= kept[k]
  }

  lemma KeptIsLater(s: string, at: nat)
    requires at <= |s|
    ensures NoneBefore(Kept(s, at), at)
  {
    StripKeeps(s, at);
  }

  /** From `at` on, `kept` are the places no match covers. */
  ghost predicate Complement(s: string, kept: seq<nat>, found: seq<Match>, at: nat) {
    forall j :: at <= j < |s| ==> (j in kept <==> !Covered(found, j))
  }

  lemma ComplementMatch(s: string, kept: seq<nat>, found: seq<Match>, at: nat, n: nat)
    requires Complement(s, kept, found, at + n) && NoneBefore(kept, at + n)
    ensures Complement(s, kept, [Match(at, n)] + found, at)
  {
    forall j | at <= j < |s|
      ensures j in kept <==> !Covered([Match(at, n)] + found, j)
    {
      CoveredCons(Match(at, n), found, j);
    }
  }

  lemma ComplementSkip(s: string, kept: seq<nat>, found: seq<Match>, at: nat)
    requires Complement(s, kept, found, at + 1) && !Covered(found, at)
    ensures Complement(s, [at] + kept, found, at)
  {
  }

  lemma KeptStep(s: string, at: nat)
    requires at < |s|
    ensures match MatchLength(s[at..])
            case Some(n) => Kept(s, at) == Kept(s, at + n) && Found(s, at) == [Match(at, n)] + Found(s, at + n)
            case None => Kept(s, at) == [at] + Kept(s, at + 1) && Found(s, at) == Found(s, at + 1)
  {
  }

  lemma {:induction false} KeptIsUncovered(s: string, at: nat)
    requires at <= |s|
    ensures Complement(s, Kept(s, at), Found(s, at), at)
    decreases |s| - at
  {
    if at < |s| {
      var kept, found := Kept(s, at), Found(s, at);
      KeptStep(s, at);
      match MatchLength(s[at..])
      case Some(n) =>
        KeptIsUncovered(s, at + n);
        KeptIsLater(s, at + n);
        ComplementMatch(s, kept, found[1..], at, n);
      case None =>
        KeptIsUncovered(s, at + 1);
        NotCoveredBefore(s, at + 1, at);
        ComplementSkip(s, kept[1..], found, at);
    }
  }

  lemma {:induction false} NoScanWhereKept(s: string, at: nat, j: nat)
    requires at <= |s| && j in Kept(s, at)
    ensures j < |s| && MatchLength(s[j..]) == None
    decreases |s| - at
  {
    match MatchLength(s[at..])
    case Some(n) => NoScanWhereKept(s, at + n, j);
    case None =>
      if j != at {
        NoScanWhereKept(s, at + 1, j);
      }
  }

  /** One match ends before the next begins. */
  ghost predicate InSequence(found: seq<Match>) {
    forall j, k :: 0 <= j < k < |found| ==> found[j].from + found[j].len <= found[k].from
  }

  lemma InSequenceCons(head: Match, found: seq<Match>)
    requires InSequence(found) && forall k :: 0 <= k < |found| ==> head.from + head.len <= found[k].from
    ensures InSequence([head] + found)
  {
  }

  lemma {:induction false} FoundInSequence(s: string, at: nat)
    requires at <= |s|
    ensures InSequence(Found(s, at))
    decreases |s| - at
  {
    if at < |s| {
      match MatchLength(s[at..])
      case Some(n) =>
        FoundInSequence(s, at + n);
        FoundIsLater(s, at + n);
        InSequenceCons(Match(at, n), Found(s, at + n));
      case None => FoundInSequence(s, at + 1);
    }
  }

  /** These are matches of the pattern in the text. */
  ghost predicate AllMatch(s: string, found: seq<Match>) {
    forall k :: 0 <= k < |found| ==> found[k].from + found[k].len <= |s| && Matches(s[found[k].from..], found[k].len)
  }

  lemma FoundMatches(s: string)
    ensures AllMatch(s, Found(s, 0))
  {
    FoundIsLater(s, 0);
    forall k | 0 <= k < |Found(s, 0)|
      ensures Matches(s[Found(s, 0)[k].from..], Found(s, 0)[k].len)
    {
      ScannerDecidesPattern(s[Found(s, 0)[k].from..], Found(s, 0)[k].len);
    }
  }

  lemma NoMatchWhereKept(s: string, j: nat, n: nat)
    requires j < |s| && j in Kept(s, 0)
    ensures !Matches(s[j..], n)
  {
    NoScanWhereKept(s, 0, j);
    ScannerDecidesPattern(s[j..], n);
  }

  /** The whole specification of the sanitizer: the matches found follow one another without overlap,
      no match begins at a place they do not cover, and the output is the characters at exactly these
      places, in order, with controls as spaces. That is leftmost replacement. */
  lemma SanitizerKeepsTheRest(s: string)
    ensures var at := Kept(s, 0); var out := SanitizeForTTY(Some(s)); var found := Found(s, 0);
            && |at| == |out|
            && (forall k :: 0 <= k < |at| ==>
                  at[k] < |s| && out[k] == if IsControl(s[at[k]]) then ' ' else s[at[k]])
            && (forall j, k :: 0 <= j < k < |at| ==> at[j] < at[k])
            && AllMatch(s, found) && InSequence(found)
            && (forall j :: 0 <= j < |s| ==> (j in at <==> !Covered(found, j)))
            && (forall j, n: nat :: 0 <= j < |s| && j in at ==> !Matches(s[j..], n))
  {
    StripKeeps(s, 0);
    assert s[0..] == s;
    FoundMatches(s);
    FoundInSequence(s, 0);
    KeptIsUncovered(s, 0);
    forall j, n: nat | 0 <= j < |s| && j in Kept(s, 0)
      ensures !Matches(s[j..], n)
    {
      NoMatchWhereKept(s, j, n);
    }
  }
}
