/** Participant ids: their grammar, the slug of a display name and the hashed default id
    (broker/broker.js). */
module Identity {
  import opened Wrappers
  import opened Text

  predicate IsLowerAlpha(c: char) { 'a' <= c <= 'z' }

  predicate IsDigit(c: char) { '0' <= c <= '9' }

  predicate IsHexDigit(c: char) { IsDigit(c) || 'a' <= c <= 'f' }

  predicate IsSlugChar(c: char) { IsLowerAlpha(c) || IsDigit(c) || c == '_' || c == '-' }

  predicate AllSlug(s: string) { forall k :: 0 <= k < |s| ==> IsSlugChar(s[k]) }

  predicate AllHex(s: string) { forall k :: 0 <= k < |s| ==> IsHexDigit(s[k]) }

  /** KIND_RE */
  predicate IsKind(s: string) { 1 <= |s| <= 32 && IsLowerAlpha(s[0]) && AllSlug(s) }

  /** NAMED_PARTICIPANT_ID_RE */
  predicate IsNamedId(s: string) { 1 <= |s| <= 64 && IsLowerAlpha(s[0]) && AllSlug(s) }

  /** LEGACY_PARTICIPANT_ID_RE, with the colon at position `k`. */
  predicate IsHashedIdAt(s: string, k: nat) {
    && k < |s| && s[k] == ':' && IsKind(s[..k])
    && (|s| == k + 13 || (|s| == k + 14 && IsDigit(s[k + 13])))
    && AllHex(s[k + 1..k + 13])
  }

  predicate IsHashedId(s: string) { exists k :: 0 <= k < |s| && IsHashedIdAt(s, k) }

  /** PARTICIPANT_ID_RE */
  predicate IsParticipantId(s: string) { IsNamedId(s) || IsHashedId(s) }

  /** The two id languages share no word: only a hashed id has a colon. */
  lemma NamedAndHashedAreDisjoint(s: string)
    ensures !(IsNamedId(s) && IsHashedId(s))
  {
    if IsHashedId(s) {
      var k :| 0 <= k < |s| && IsHashedIdAt(s, k);
      assert !IsSlugChar(s[k]) && !IsNamedId(s);
    }
  }

  // ---- slug of a display name --------------------------------------------------------

  /** `toLowerCase` as far as the next stage can see it: outside ASCII only the Kelvin sign
      and the dotted capital I produce an ASCII letter, every other result is a character
      that the next stage replaces, like the character it came from. */
  function LowerChar(c: char): string {
    if 'A' <= c <= 'Z' then [(c as int + 32) as char]
    else if c == '\U{212A}' then "k"
    else if c == '\U{0130}' then ['i', '\U{0307}']
    else [c]
  }

  function Lower(s: string): string {
    if s == [] then [] else LowerChar(s[0]) + Lower(s[1..])
  }

  /** `replace(/[^a-z0-9_-]+/g, '-')` */
  function DashForeignRuns(s: string): string {
    if s == [] then []
    else if IsSlugChar(s[0]) then [s[0]] + DashForeignRuns(s[1..])
    else if |s| > 1 && !IsSlugChar(s[1]) then DashForeignRuns(s[1..])
    else ['-'] + DashForeignRuns(s[1..])
  }

  function StripLeft(s: string): string {
    if s != [] && s[0] == '-' then StripLeft(s[1..]) else s
  }

  function StripRight(s: string): string {
    if s != [] && s[|s| - 1] == '-' then StripRight(s[..|s| - 1]) else s
  }

  /** `replace(/-{2,}/g, '-')` */
  function CollapseDashes(s: string): string {
    if |s| < 2 then s
    else if s[0] == '-' && s[1] == '-' then CollapseDashes(s[1..])
    else [s[0]] + CollapseDashes(s[1..])
  }

  function Slug(s: string): string {
    CollapseDashes(StripRight(StripLeft(DashForeignRuns(Lower(Trim(s))))))
  }

  /** normalizeNamedParticipantId */
  function NormalizeName(value: Option<string>): Result<Option<string>, string> {
    match value
    case None => Success(None)
    case Some(text) =>
      var slug := Slug(text);
      if !IsNamedId(slug) then Failure("invalid_display_name") else Success(Some(slug))
  }

  /** Slug characters only, no dash at either end, no two dashes in a row. */
  predicate IsCanonical(s: string) {
    && AllSlug(s)
    && (s != [] ==> s[0] != '-' && s[|s| - 1] != '-')
    && forall k :: 0 <= k < |s| - 1 ==> !(s[k] == '-' && s[k + 1] == '-')
  }

  lemma {:induction false} DashForeignRunsIsSlug(s: string)
    ensures AllSlug(DashForeignRuns(s))
  {
    if s != [] {
      DashForeignRunsIsSlug(s[1..]);
    }
  }

  lemma {:induction false} StripLeftFacts(s: string)
    requires AllSlug(s)
    ensures AllSlug(StripLeft(s)) && (StripLeft(s) != [] ==> StripLeft(s)[0] != '-')
  {
    if s != [] && s[0] == '-' {
      StripLeftFacts(s[1..]);
    }
  }

  lemma {:induction false} StripRightFacts(s: string)
    requires AllSlug(s)
    ensures AllSlug(StripRight(s)) && StripRight(s) <= s
    ensures StripRight(s) != [] ==> StripRight(s)[|StripRight(s)| - 1] != '-'
  {
    if s != [] && s[|s| - 1] == '-' {
      StripRightFacts(s[..|s| - 1]);
    }
  }

  lemma {:induction false} CollapseDashesFacts(s: string)
    requires AllSlug(s)
    ensures AllSlug(CollapseDashes(s))
    ensures s == [] <==> CollapseDashes(s) == []
    ensures s != [] ==> CollapseDashes(s)[0] == s[0]
    ensures s != [] ==> CollapseDashes(s)[|CollapseDashes(s)| - 1] == s[|s| - 1]
    ensures var c := CollapseDashes(s); forall k :: 0 <= k < |c| - 1 ==> !(c[k] == '-' && c[k + 1] == '-')
  {
    if |s| >= 2 {
      CollapseDashesFacts(s[1..]);
    }
  }

  lemma SlugIsCanonical(s: string)
    ensures IsCanonical(Slug(s))
  {
    var a := DashForeignRuns(Lower(Trim(s)));
    DashForeignRunsIsSlug(Lower(Trim(s)));
    StripLeftFacts(a);
    StripRightFacts(StripLeft(a));
    CollapseDashesFacts(StripRight(StripLeft(a)));
  }

  lemma {:induction false} LowerIsIdentityOnSlug(s: string)
    requires AllSlug(s)
    ensures Lower(s) == s
  {
    if s != [] {
      LowerIsIdentityOnSlug(s[1..]);
    }
  }

  lemma {:induction false} DashForeignRunsIsIdentityOnSlug(s: string)
    requires AllSlug(s)
    ensures DashForeignRuns(s) == s
  {
    if s != [] {
      DashForeignRunsIsIdentityOnSlug(s[1..]);
    }
  }

  lemma {:induction false} CollapseDashesIsIdentity(s: string)
    requires forall k :: 0 <= k < |s| - 1 ==> !(s[k] == '-' && s[k + 1] == '-')
    ensures CollapseDashes(s) == s
  {
    if |s| >= 2 {
      assert forall k :: 0 <= k < |s[1..]| - 1 ==> s[1..][k] == s[k + 1];
      CollapseDashesIsIdentity(s[1..]);
    }
  }

  lemma SlugIsIdentityOnCanonical(s: string)
    requires IsCanonical(s)
    ensures Slug(s) == s
  {
    TrimIsIdentityOnTight(s);
    LowerIsIdentityOnSlug(s);
    DashForeignRunsIsIdentityOnSlug(s);
    CollapseDashesIsIdentity(s);
  }

  /** Normalising twice is normalising once, and the result is always a well-formed handle. */
  lemma NormalizeNameIsIdempotent(value: Option<string>)
    ensures NormalizeName(value).Success? ==>
              NormalizeName(NormalizeName(value).value) == NormalizeName(value)
    ensures NormalizeName(value).Success? && NormalizeName(value).value.Some? ==>
              IsNamedId(NormalizeName(value).value.value) && IsCanonical(NormalizeName(value).value.value)
  {
    if value.Some? && NormalizeName(value).Success? {
      SlugIsCanonical(value.value);
      SlugIsIdentityOnCanonical(Slug(value.value));
    }
  }

  // ---- hashed default id -------------------------------------------------------------

  /** The first twelve hex digits of the session hash; two sessions may share them. */
  type ShortId = s: string | |s| == 12 && AllHex(s) witness "000000000000"

  function Base(kind: string, short: ShortId): string { kind + ":" + short }

  function DigitChar(i: nat): char
    requires i < 10
  {
    ('0' as int + i) as char
  }

  /** The eleven candidates in the order they are tried: the bare id, then suffixes 0 to 9. */
  function Candidate(kind: string, short: ShortId, n: nat): string
    requires n < 11
  {
    if n == 0 then Base(kind, short) else Base(kind, short) + [DigitChar(n - 1)]
  }

  /** `${kind}:${short}`, then the same with a digit behind it. */
  lemma CandidatesAre(kind: string, short: ShortId, n: nat)
    requires n < 11
    ensures Candidate(kind, short, n)
            == kind + ":" + short + ["", "0", "1", "2", "3", "4", "5", "6", "7", "8", "9"][n]
  {
  }

  /** buildParticipantId from candidate `n` on; None is the thrown error. */
  function FirstFree(used: set<string>, kind: string, short: ShortId, n: nat): (r: Option<string>)
    requires n <= 11
    ensures r.Some? ==> r.value !in used && exists k :: n <= k < 11 && r.value == Candidate(kind, short, k)
                                                    && forall j :: n <= j < k ==> Candidate(kind, short, j) in used
    ensures r.None? ==> forall k :: n <= k < 11 ==> Candidate(kind, short, k) in used
    decreases 11 - n
  {
    if n == 11 then None
    else if Candidate(kind, short, n) !in used then Some(Candidate(kind, short, n))
    else FirstFree(used, kind, short, n + 1)
  }

  function BuildParticipantId(used: set<string>, kind: string, short: ShortId): Option<string> {
    FirstFree(used, kind, short, 0)
  }

  lemma CandidateIsHashedId(kind: string, short: ShortId, n: nat)
    requires n < 11 && IsKind(kind)
    ensures IsHashedId(Candidate(kind, short, n))
  {
    var s := Candidate(kind, short, n);
    var k := |kind|;
    assert s[..k] == kind && s[k] == ':';
    assert s[k + 1..k + 13] == short;
    assert IsHashedIdAt(s, k);
  }

  /** An unused id is returned whenever one of the eleven candidates is free, it is the first
      free one, and it is a hashed id that push validation accepts. */
  lemma BuildParticipantIdFindsFreeId(used: set<string>, kind: string, short: ShortId)
    requires IsKind(kind)
    ensures BuildParticipantId(used, kind, short).Some? <==>
              exists k :: 0 <= k < 11 && Candidate(kind, short, k) !in used
    ensures var r := BuildParticipantId(used, kind, short);
            r.Some? ==> r.value !in used && IsHashedId(r.value) && IsParticipantId(r.value)
  {
    var r := BuildParticipantId(used, kind, short);
    if r.Some? {
      var k :| 0 <= k < 11 && r.value == Candidate(kind, short, k);
      CandidateIsHashedId(kind, short, k);
    }
  }
}
