/** The regular expressions of the source, as they are written there, and the proof that the model's
    predicates are what they match. */
module Patterns {
  import opened Wrappers
  import opened Identity
  import Text
  import Sanitizer
  import Policy

  /** A bracket expression without its brackets, such as `a-z0-9_-`. */
  predicate InClass(cls: string, c: char) {
    if |cls| >= 3 && cls[1] == '-' then cls[0] <= c <= cls[2] || InClass(cls[3..], c)
    else cls != "" && (c == cls[0] || InClass(cls[1..], c))
  }

  /** One bracket expression with its repetition; no `max`: any number of times. */
  datatype Piece = Piece(cls: string, min: nat, max: Option<nat>)

  function One(cls: string): Piece { Piece(cls, 1, Some(1)) }

  function Times(cls: string, min: nat, max: nat): Piece { Piece(cls, min, Some(max)) }

  function Star(cls: string): Piece { Piece(cls, 0, None) }

  ghost predicate Takes(p: Piece, s: string, k: nat) {
    k <= |s| && p.min <= k && (p.max.Some? ==> k <= p.max.value) && forall j :: 0 <= j < k ==> InClass(p.cls, s[j])
  }

  /** The pieces match the whole text, one after the other. */
  ghost predicate Accepts(pieces: seq<Piece>, s: string)
    decreases |pieces|
  {
    if pieces == [] then s == ""
    else exists k: nat :: Takes(pieces[0], s, k) && Accepts(pieces[1..], s[k..])
  }

  // KIND_RE, NAMED_PARTICIPANT_ID_RE, LEGACY_PARTICIPANT_ID_RE
  const KIND_RE: seq<Piece> := [One("a-z"), Times("a-z0-9_-", 0, 31)]
  const NAMED_RE: seq<Piece> := [One("a-z"), Times("a-z0-9_-", 0, 63)]
  const LEGACY_RE: seq<Piece> :=
    [One("a-z"), Times("a-z0-9_-", 0, 31), One(":"), Times("0-9a-f", 12, 12), Times("0-9", 0, 1)]

  // the two alternatives of ANSI_ESCAPE_RE
  const SEQUENCE_RE: seq<Piece> := [One("\U{001B}"), One("["), Star("0-9;?"), Star(" -/"), One("@-~")]
  const ESCAPE_RE: seq<Piece> := [One("\U{001B}"), One("@-_")]

  // ---- classes ---------------------------------------------------------------------------------------

  lemma InRange(a: char, b: char, more: string, c: char)
    ensures InClass([a] + ['-'] + [b] + more, c) <==> a <= c <= b || InClass(more, c)
  {
    var cls := [a] + ['-'] + [b] + more;
    assert cls[3..] == more;
  }

  lemma InSingle(a: char, more: string, c: char)
    requires |more| < 2 || more[0] != '-'
    ensures InClass([a] + more, c) <==> c == a || InClass(more, c)
  {
    var cls := [a] + more;
    assert cls[1..] == more;
  }

  lemma SlugClass(c: char)
    ensures InClass("a-z", c) <==> IsLowerAlpha(c)
    ensures InClass("0-9", c) <==> IsDigit(c)
    ensures InClass("0-9a-f", c) <==> IsHexDigit(c)
    ensures InClass("a-z0-9_-", c) <==> IsSlugChar(c)
    ensures InClass(":", c) <==> c == ':'
  {
    InRange('a', 'z', "", c);
    InRange('0', '9', "", c);
    InRange('0', '9', "a-f", c);
    InRange('a', 'f', "", c);
    InRange('a', 'z', "0-9_-", c);
    InRange('0', '9', "_-", c);
    InSingle('_', "-", c);
    InSingle('-', "", c);
    InSingle(':', "", c);
    assert "a-z" == ['a'] + ['-'] + ['z'] + "" && "0-9" == ['0'] + ['-'] + ['9'] + "";
    assert "0-9a-f" == ['0'] + ['-'] + ['9'] + "a-f" && "a-f" == ['a'] + ['-'] + ['f'] + "";
    assert "a-z0-9_-" == ['a'] + ['-'] + ['z'] + "0-9_-" && "0-9_-" == ['0'] + ['-'] + ['9'] + "_-";
    assert "_-" == ['_'] + "-" && "-" == ['-'] + "" && ":" == [':'] + "";
  }

  // ---- pieces ----------------------------------------------------------------------------------------

  lemma AcceptsNext(p: Piece, more: seq<Piece>, s: string)
    ensures Accepts([p] + more, s) <==> exists k: nat :: k <= |s| && Takes(p, s, k) && Accepts(more, s[k..])
  {
    var pieces := [p] + more;
    assert pieces[0] == p && pieces[1..] == more;
  }

  lemma AcceptsOne(cls: string, more: seq<Piece>, s: string)
    ensures Accepts([One(cls)] + more, s) <==> s != "" && InClass(cls, s[0]) && Accepts(more, s[1..])
  {
    AcceptsNext(One(cls), more, s);
    if s != "" && InClass(cls, s[0]) && Accepts(more, s[1..]) {
      assert Takes(One(cls), s, 1);
    }
  }

  lemma AcceptsLast(p: Piece, s: string)
    ensures Accepts([p], s) <==> Takes(p, s, |s|)
  {
    assert [p] == [p] + [];
    AcceptsNext(p, [], s);
    if Takes(p, s, |s|) {
      assert s[|s|..] == "";
    }
  }

  lemma AllInClass(s: string)
    ensures (forall k :: 0 <= k < |s| ==> InClass("a-z0-9_-", s[k])) <==> AllSlug(s)
    ensures (forall k :: 0 <= k < |s| ==> InClass("0-9a-f", s[k])) <==> AllHex(s)
  {
    forall k | 0 <= k < |s|
      ensures InClass("a-z0-9_-", s[k]) <==> IsSlugChar(s[k])
      ensures InClass("0-9a-f", s[k]) <==> IsHexDigit(s[k])
    {
      SlugClass(s[k]);
    }
  }

  // ---- kinds and participant ids -----------------------------------------------------------------------

  lemma AlphaThenSlug(s: string, max: nat)
    ensures Accepts([One("a-z")] + [Times("a-z0-9_-", 0, max)], s)
            <==> 1 <= |s| <= max + 1 && IsLowerAlpha(s[0]) && AllSlug(s)
  {
    hide Accepts, InClass;
    AcceptsOne("a-z", [Times("a-z0-9_-", 0, max)], s);
    if s != "" {
      AcceptsLast(Times("a-z0-9_-", 0, max), s[1..]);
      SlugClass(s[0]);
      AllInClass(s[1..]);
      assert s == [s[0]] + s[1..];
      assert AllSlug(s) <==> IsSlugChar(s[0]) && AllSlug(s[1..]);
    }
  }

  /** KIND_RE and NAMED_PARTICIPANT_ID_RE */
  lemma KindsAndNames(s: string)
    ensures IsKind(s) <==> Accepts(KIND_RE, s)
    ensures IsNamedId(s) <==> Accepts(NAMED_RE, s)
  {
    AlphaThenSlug(s, 31);
    AlphaThenSlug(s, 63);
    assert KIND_RE == [One("a-z")] + [Times("a-z0-9_-", 0, 31)];
    assert NAMED_RE == [One("a-z")] + [Times("a-z0-9_-", 0, 63)];
  }

  /** The pieces of LEGACY_PARTICIPANT_ID_RE from the colon on. */
  const TAIL_RE: seq<Piece> := [One(":"), Times("0-9a-f", 12, 12), Times("0-9", 0, 1)]

  lemma HexThenDigit(s: string)
    ensures Accepts([Times("0-9a-f", 12, 12)] + [Times("0-9", 0, 1)], s)
            <==> (|s| == 12 || (|s| == 13 && IsDigit(s[12]))) && AllHex(s[..12])
  {
    hide Accepts, InClass;
    AcceptsNext(Times("0-9a-f", 12, 12), [Times("0-9", 0, 1)], s);
    if |s| >= 12 {
      AcceptsLast(Times("0-9", 0, 1), s[12..]);
      AllInClass(s[..12]);
      assert forall k :: 0 <= k < 12 ==> s[..12][k] == s[k];
      if |s| == 13 {
        SlugClass(s[12]);
      }
      assert Takes(Times("0-9a-f", 12, 12), s, 12) <==> AllHex(s[..12]);
    }
  }

  lemma TailAt(s: string)
    ensures Accepts(TAIL_RE, s)
            <==> (|s| == 13 || (|s| == 14 && IsDigit(s[13]))) && s[0] == ':' && AllHex(s[1..13])
  {
    hide Accepts, InClass;
    assert TAIL_RE == [One(":")] + ([Times("0-9a-f", 12, 12)] + [Times("0-9", 0, 1)]);
    AcceptsOne(":", [Times("0-9a-f", 12, 12)] + [Times("0-9", 0, 1)], s);
    if s != "" {
      SlugClass(s[0]);
      HexThenDigit(s[1..]);
      if |s| >= 13 {
        assert s[1..][..12] == s[1..13];
      }
    }
  }

  lemma LegacyAt(s: string, k: nat)
    requires k < |s|
    ensures Takes(Times("a-z0-9_-", 0, 31), s[1..], k) && Accepts(TAIL_RE, s[1..][k..]) && IsLowerAlpha(s[0])
            <==> k + 1 < |s| && IsHashedIdAt(s, k + 1)
  {
    hide Accepts, InClass;
    var r := s[1..];
    assert r[k..] == s[k + 1..];
    TailAt(r[k..]);
    AllInClass(r[..k]);
    assert s[..k + 1] == [s[0]] + r[..k];
    assert AllSlug(s[..k + 1]) <==> IsSlugChar(s[0]) && AllSlug(r[..k]);
    assert forall j :: 0 <= j < k ==> r[..k][j] == r[j];
    if |r[k..]| >= 13 {
      assert r[k..][1..13] == s[k + 2..k + 14];
    }
  }

  /** LEGACY_PARTICIPANT_ID_RE */
  lemma HashedIds(s: string)
    ensures IsHashedId(s) <==> Accepts(LEGACY_RE, s)
  {
    hide IsHashedIdAt, Takes, Accepts, InClass;
    assert LEGACY_RE == [One("a-z")] + ([Times("a-z0-9_-", 0, 31)] + TAIL_RE);
    AcceptsOne("a-z", [Times("a-z0-9_-", 0, 31)] + TAIL_RE, s);
    if s != "" {
      SlugClass(s[0]);
      AcceptsNext(Times("a-z0-9_-", 0, 31), TAIL_RE, s[1..]);
      if k: nat :| k <= |s[1..]| && Takes(Times("a-z0-9_-", 0, 31), s[1..], k) && Accepts(TAIL_RE, s[1..][k..]) {
        TakesInside(s[1..], k);
        if IsLowerAlpha(s[0]) {
          LegacyAt(s, k);
        }
      }
      if k: nat :| k < |s| && IsHashedIdAt(s, k) {
        HashedIsLong(s, k);
        LegacyAt(s, k - 1);
      }
    } else {
      assert !IsHashedId(s);
    }
  }

  lemma TakesInside(s: string, k: nat)
    requires Takes(Times("a-z0-9_-", 0, 31), s, k)
    ensures k <= |s|
  {
  }

  lemma HashedIsLong(s: string, k: nat)
    requires IsHashedIdAt(s, k)
    ensures k >= 1 && IsLowerAlpha(s[0])
  {
  }

  /** PARTICIPANT_ID_RE is the one or the other. */
  lemma ParticipantIds(s: string)
    ensures IsParticipantId(s) <==> Accepts(NAMED_RE, s) || Accepts(LEGACY_RE, s)
  {
    KindsAndNames(s);
    HashedIds(s);
  }

  // ---- the sanitizer ---------------------------------------------------------------------------------

  lemma EscapeClasses(c: char)
    ensures InClass("0-9;?", c) <==> Sanitizer.IsParameter(c)
    ensures InClass(" -/", c) <==> Sanitizer.IsIntermediate(c)
    ensures InClass("@-~", c) <==> Sanitizer.IsFinal(c)
    ensures InClass("@-_", c) <==> Sanitizer.IsEscapeByte(c)
    ensures InClass("\U{0000}-\U{001F}\U{007F}-\U{009F}", c) <==> Sanitizer.IsControl(c)
    ensures InClass("\U{001B}", c) <==> c == Sanitizer.ESC
    ensures InClass("[", c) <==> c == '['
  {
    InRange('0', '9', ";?", c);
    InSingle(';', "?", c);
    InSingle('?', "", c);
    InRange(' ', '/', "", c);
    InRange('@', '~', "", c);
    InRange('@', '_', "", c);
    InRange('\U{0000}', '\U{001F}', "\U{007F}-\U{009F}", c);
    InRange('\U{007F}', '\U{009F}', "", c);
    InSingle('\U{001B}', "", c);
    InSingle('[', "", c);
    assert "0-9;?" == ['0'] + ['-'] + ['9'] + ";?" && ";?" == [';'] + "?" && "?" == ['?'] + "";
    assert " -/" == [' '] + ['-'] + ['/'] + "" && "@-~" == ['@'] + ['-'] + ['~'] + "";
    assert "@-_" == ['@'] + ['-'] + ['_'] + "" && "[" == ['['] + "" && "\U{001B}" == ['\U{001B}'] + "";
    assert "\U{0000}-\U{001F}\U{007F}-\U{009F}" == ['\U{0000}'] + ['-'] + ['\U{001F}'] + "\U{007F}-\U{009F}";
    assert "\U{007F}-\U{009F}" == ['\U{007F}'] + ['-'] + ['\U{009F}'] + "";
  }

  lemma FinalOnly(s: string)
    ensures Accepts([One("@-~")], s) <==> |s| == 1 && Sanitizer.IsFinal(s[0])
  {
    hide Accepts, InClass;
    AcceptsLast(One("@-~"), s);
    if s != "" {
      EscapeClasses(s[0]);
    }
  }

  lemma IntermediatesThenFinal(s: string)
    ensures Accepts([Star(" -/")] + [One("@-~")], s)
            <==> s != "" && (forall k :: 0 <= k < |s| - 1 ==> Sanitizer.IsIntermediate(s[k]))
                 && Sanitizer.IsFinal(s[|s| - 1])
  {
    hide Accepts, InClass;
    AcceptsNext(Star(" -/"), [One("@-~")], s);
    forall k: nat | k <= |s|
      ensures Accepts([One("@-~")], s[k..]) <==> k == |s| - 1 && Sanitizer.IsFinal(s[k])
    {
      FinalOnly(s[k..]);
    }
    forall k | 0 <= k < |s|
      ensures InClass(" -/", s[k]) <==> Sanitizer.IsIntermediate(s[k])
    {
      EscapeClasses(s[k]);
    }
    if s != "" && (forall k :: 0 <= k < |s| - 1 ==> Sanitizer.IsIntermediate(s[k])) {
      assert Takes(Star(" -/"), s, |s| - 1);
    }
  }

  lemma BodyAt(t: string, p: nat)
    requires 2 <= p <= |t| && t[0] == Sanitizer.ESC && t[1] == '['
    ensures Takes(Star("0-9;?"), t[2..], p - 2) && Accepts([Star(" -/")] + [One("@-~")], t[2..][p - 2..])
            <==> Sanitizer.IsControlSequence(t, p, |t|)
  {
    hide Accepts, InClass;
    var u := t[2..];
    assert u[p - 2..] == t[p..];
    IntermediatesThenFinal(t[p..]);
    forall k | 0 <= k < |u|
      ensures InClass("0-9;?", u[k]) <==> Sanitizer.IsParameter(u[k])
    {
      EscapeClasses(u[k]);
    }
    assert forall k :: p <= k < |t| ==> t[p..][k - p] == t[k];
    assert forall k :: 2 <= k < |t| ==> u[k - 2] == t[k];
  }

  /** The first alternative of ANSI_ESCAPE_RE matches exactly the control sequences. */
  lemma SequencePattern(t: string)
    ensures Accepts(SEQUENCE_RE, t) <==> exists p: nat :: Sanitizer.IsControlSequence(t, p, |t|)
  {
    hide Takes, Accepts, InClass;
    var body := [Star("0-9;?")] + ([Star(" -/")] + [One("@-~")]);
    assert SEQUENCE_RE == [One("\U{001B}")] + ([One("[")] + body);
    AcceptsOne("\U{001B}", [One("[")] + body, t);
    if |t| >= 2 {
      AcceptsOne("[", body, t[1..]);
      EscapeClasses(t[0]);
      EscapeClasses(t[1]);
      assert t[1..][1..] == t[2..];
      if t[0] == Sanitizer.ESC && t[1] == '[' {
        SequenceBody(t);
      }
    } else if t != "" {
      AcceptsOne("[", body, t[1..]);
    }
  }

  lemma SequenceBody(t: string)
    requires |t| >= 2 && t[0] == Sanitizer.ESC && t[1] == '['
    ensures Accepts([Star("0-9;?")] + ([Star(" -/")] + [One("@-~")]), t[2..])
            <==> exists p: nat :: Sanitizer.IsControlSequence(t, p, |t|)
  {
    hide Sanitizer.IsControlSequence, Accepts, InClass, Takes;
    var more := [Star(" -/")] + [One("@-~")];
    AcceptsNext(Star("0-9;?"), more, t[2..]);
    if p: nat :| Sanitizer.IsControlSequence(t, p, |t|) {
      SequenceHasRoom(t, p);
      BodyAt(t, p);
    }
    if k: nat :| k <= |t[2..]| && Takes(Star("0-9;?"), t[2..], k) && Accepts(more, t[2..][k..]) {
      StarInside(t[2..], k);
      BodyAt(t, k + 2);
    }
  }

  lemma StarInside(s: string, k: nat)
    requires Takes(Star("0-9;?"), s, k)
    ensures k <= |s|
  {
  }

  lemma SequenceHasRoom(t: string, p: nat)
    requires Sanitizer.IsControlSequence(t, p, |t|)
    ensures 2 <= p <= |t|
  {
  }

  /** ANSI_ESCAPE_RE: the second alternative counts only where the first matches nothing. */
  lemma EscapePattern(t: string, n: nat)
    requires n <= |t|
    ensures Sanitizer.Matches(t, n)
            <==> Accepts(SEQUENCE_RE, t[..n])
                 || (Accepts(ESCAPE_RE, t[..n]) && forall m: nat :: m <= |t| ==> !Accepts(SEQUENCE_RE, t[..m]))
  {
    hide Accepts, Sanitizer.IsControlSequence;
    forall m: nat | m <= |t|
      ensures Accepts(SEQUENCE_RE, t[..m]) <==> HasSequence(t, m)
    {
      SequencePrefix(t, m);
    }
    EscapeOnly(t[..n]);
    SequencesAreInside(t);
    if p: nat, m: nat :| Sanitizer.IsControlSequence(t, p, m) {
      assert HasSequence(t, m);
    }
  }

  ghost predicate HasSequence(t: string, n: nat) { exists p: nat :: Sanitizer.IsControlSequence(t, p, n) }

  lemma SequencePrefix(t: string, m: nat)
    requires m <= |t|
    ensures Accepts(SEQUENCE_RE, t[..m]) <==> HasSequence(t, m)
  {
    hide Accepts, Sanitizer.IsControlSequence;
    assert |t[..m]| == m;
    SequencePattern(t[..m]);
    SequencesStartAlike(t, m);
  }

  lemma SequencesStartAlike(t: string, m: nat)
    requires m <= |t|
    ensures forall p: nat :: Sanitizer.IsControlSequence(t[..m], p, m) <==> Sanitizer.IsControlSequence(t, p, m)
  {
  }

  lemma SequencesAreInside(t: string)
    ensures forall m: nat :: HasSequence(t, m) ==> m <= |t|
  {
  }

  lemma EscapeOnly(t: string)
    ensures Accepts(ESCAPE_RE, t) <==> |t| == 2 && t[0] == Sanitizer.ESC && Sanitizer.IsEscapeByte(t[1])
  {
    hide Accepts, InClass;
    assert ESCAPE_RE == [One("\U{001B}")] + [One("@-_")];
    AcceptsOne("\U{001B}", [One("@-_")], t);
    if t != "" {
      EscapeClasses(t[0]);
      AcceptsLast(One("@-_"), t[1..]);
      if |t| > 1 {
        EscapeClasses(t[1]);
      }
    }
  }

  // ---- white space -----------------------------------------------------------------------------------

  // Unicode's space separators (category Zs)
  const SPACE_SEPARATORS: set<char> :=
    {'\U{0020}', '\U{00A0}', '\U{1680}', '\U{2000}', '\U{2001}', '\U{2002}', '\U{2003}', '\U{2004}', '\U{2005}',
     '\U{2006}', '\U{2007}', '\U{2008}', '\U{2009}', '\U{200A}', '\U{202F}', '\U{205F}', '\U{3000}'}

  /** `\s` and `trim`: WhiteSpace and LineTerminator, sections 12.2 and 12.3 of ECMA-262. */
  lemma WhiteSpace(c: char)
    ensures Text.IsSpace(c)
            <==> c in SPACE_SEPARATORS
                 || c in {'\U{0009}', '\U{000A}',
                          '\U{000B}', '\U{000C}', '\U{000D}', '\U{2028}', '\U{2029}', '\U{FEFF}'}
  {
  }

  /** `str.strip` of Python: these, with the four separators of ASCII and the next-line character, without
      the byte order mark. */
  lemma PythonSpace(c: char)
    ensures Policy.IsPySpace(c)
            <==> (Text.IsSpace(c) && c != '\U{FEFF}')
                 || c in {'\U{001C}', '\U{001D}', '\U{001E}', '\U{001F}', '\U{0085}'}
  {
  }
}
