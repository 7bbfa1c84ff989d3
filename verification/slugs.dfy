/** What a display name becomes: the slug of any text, word by word (normalizeNamedParticipantId in
    broker/broker.js). */
module Slugs {
  import opened Wrappers
  import opened Text
  import opened Identity

  /** A letter, digit or underscore of ASCII. */
  predicate IsWordChar(c: char) { 'a' <= c <= 'z' || 'A' <= c <= 'Z' || '0' <= c <= '9' || c == '_' }

  /** Everything else separates words, but for the two other characters whose lower case has an ASCII
      letter in it: the Kelvin sign and the capital I with a dot. */
  predicate IsSeparator(c: char) { !IsWordChar(c) && c != '\U{212A}' && c != '\U{0130}' }

  predicate Separators(s: string) { forall k :: 0 <= k < |s| ==> IsSeparator(s[k]) }

  predicate BeginsWithWord(s: string) { s != "" && IsWordChar(s[0]) }

  predicate EndsWithWord(s: string) { s != "" && IsWordChar(s[|s| - 1]) }

  // ---- character by character --------------------------------------------------------------------------

  /** Words joined by single dashes. */
  predicate IsHandle(s: string) {
    && (forall k :: 0 <= k < |s| ==> IsWordChar(s[k]) || s[k] == '-')
    && (s != "" ==> s[0] != '-' && s[|s| - 1] != '-')
    && (forall k :: 0 <= k < |s| - 1 ==> !(s[k] == '-' && s[k + 1] == '-'))
  }

  lemma {:induction false} LowerAt(s: string)
    requires forall k :: 0 <= k < |s| ==> IsWordChar(s[k]) || s[k] == '-'
    ensures |Lower(s)| == |s| && AllSlug(Lower(s))
    ensures forall k :: 0 <= k < |s| ==>
              if 'A' <= s[k] <= 'Z' then 'a' <= Lower(s)[k] <= 'z' && Lower(s)[k] - 'a' == s[k] - 'A'
              else Lower(s)[k] == s[k]
  {
    if s != "" {
      LowerAt(s[1..]);
    }
  }

  /** Between letters, digits, underscores and single inner dashes nothing changes but the case: a
      capital letter becomes the small letter of the same rank. */
  lemma SlugOfHandle(s: string)
    requires IsHandle(s)
    ensures |Slug(s)| == |s|
    ensures forall k :: 0 <= k < |s| ==>
              if 'A' <= s[k] <= 'Z' then 'a' <= Slug(s)[k] <= 'z' && Slug(s)[k] - 'a' == s[k] - 'A'
              else Slug(s)[k] == s[k]
  {
    hide Slug, Lower;
    LowerAt(s);
    SlugIsLower(s);
  }

  lemma SlugIsLower(s: string)
    requires IsHandle(s) && |Lower(s)| == |s| && AllSlug(Lower(s))
    requires forall k :: 0 <= k < |s| ==> (Lower(s)[k] == '-' <==> s[k] == '-')
    ensures Slug(s) == Lower(s)
  {
    hide DashForeignRuns, StripLeft, StripRight, CollapseDashes;
    TrimIsIdentityOnTight(s);
    var l := Lower(s);
    DashForeignRunsIsIdentityOnSlug(l);
    StripIsIdentity(l);
    CollapseDashesIsIdentity(l);
  }

  lemma StripIsIdentity(s: string)
    requires s == "" || (s[0] != '-' && s[|s| - 1] != '-')
    ensures StripRight(StripLeft(s)) == s
  {
  }

  // ---- word by word ----------------------------------------------------------------------------------

  /** What is left to do after `trim` and `toLowerCase`. */
  function Dashed(s: string): string { CollapseDashes(StripRight(StripLeft(DashForeignRuns(s)))) }

  predicate Dashes(s: string) { forall k :: 0 <= k < |s| ==> s[k] == '-' }

  predicate NoSlugLetters(s: string) { forall k :: 0 <= k < |s| ==> !IsSlugChar(s[k]) || s[k] == '-' }

  /** It ends with a slug character other than a dash. */
  predicate EndsInWord(s: string) { s != "" && IsSlugChar(s[|s| - 1]) && s[|s| - 1] != '-' }

  predicate StartsInWord(s: string) { s != "" && IsSlugChar(s[0]) && s[0] != '-' }

  lemma {:induction false} LowerAppend(a: string, b: string)
    ensures Lower(a + b) == Lower(a) + Lower(b)
  {
    if a == "" {
      assert a + b == b;
    } else {
      assert (a + b)[1..] == a[1..] + b;
      LowerAppend(a[1..], b);
    }
  }

  lemma {:induction false} LowerSeparators(s: string)
    requires Separators(s)
    ensures Lower(s) == s && NoSlugLetters(s)
  {
    if s != "" {
      LowerSeparators(s[1..]);
    }
  }

  lemma LowerEnds(s: string)
    requires s != ""
    ensures IsWordChar(s[|s| - 1]) ==> EndsInWord(Lower(s))
    ensures IsWordChar(s[0]) ==> StartsInWord(Lower(s))
  {
    var init, last := s[..|s| - 1], s[|s| - 1];
    assert s == init + [last];
    LowerAppend(init, [last]);
    LowerOne(last);
    LowerOne(s[0]);
    assert s == [s[0]] + s[1..];
    LowerAppend([s[0]], s[1..]);
  }

  lemma LowerOne(c: char)
    ensures Lower([c]) == LowerChar(c)
    ensures IsWordChar(c) ==> |LowerChar(c)| == 1 && IsSlugChar(LowerChar(c)[0]) && LowerChar(c)[0] != '-'
  {
    assert [c][1..] == "";
    assert LowerChar(c) + "" == LowerChar(c);
  }

  lemma {:induction false} DashAppend(a: string, b: string)
    requires a == "" || b == "" || IsSlugChar(a[|a| - 1]) || IsSlugChar(b[0])
    ensures DashForeignRuns(a + b) == DashForeignRuns(a) + DashForeignRuns(b)
  {
    if a == "" {
      assert a + b == b;
    } else if b == "" {
      assert a + b == a;
    } else {
      assert (a + b)[1..] == a[1..] + b;
      DashAppend(a[1..], b);
    }
  }

  lemma {:induction false} DashSeparators(s: string)
    requires NoSlugLetters(s)
    ensures Dashes(DashForeignRuns(s)) && (s != "" ==> DashForeignRuns(s) != "")
  {
    if s != "" {
      DashSeparators(s[1..]);
      if |s| == 1 {
        assert s[1..] == "";
      }
    }
  }

  lemma {:induction false} DashKeepsEnds(s: string)
    ensures EndsInWord(s) ==> EndsInWord(DashForeignRuns(s))
    ensures StartsInWord(s) ==> StartsInWord(DashForeignRuns(s))
  {
    if |s| > 1 {
      DashKeepsEnds(s[1..]);
    } else if |s| == 1 {
      assert s[1..] == "";
    }
  }

  lemma {:induction false} StripLeftAppend(a: string, b: string)
    ensures EndsInWord(a) ==> StripLeft(a + b) == StripLeft(a) + b && EndsInWord(StripLeft(a))
    ensures Dashes(a) ==> StripLeft(a + b) == StripLeft(b)
  {
    if a == "" {
      assert a + b == b;
    } else {
      assert (a + b)[1..] == a[1..] + b;
      StripLeftAppend(a[1..], b);
    }
  }

  lemma {:induction false} StripRightAppend(a: string, b: string)
    ensures StartsInWord(b) ==> StripRight(a + b) == a + StripRight(b) && StartsInWord(StripRight(b))
    ensures Dashes(b) ==> StripRight(a + b) == StripRight(a)
  {
    if b == "" {
      assert a + b == a;
    } else {
      assert (a + b)[..|a + b| - 1] == a + b[..|b| - 1];
      StripRightAppend(a, b[..|b| - 1]);
    }
  }

  lemma {:induction false} CollapseAppend(a: string, b: string)
    requires a == "" || b == "" || a[|a| - 1] != '-' || b[0] != '-'
    ensures CollapseDashes(a + b) == CollapseDashes(a) + CollapseDashes(b)
  {
    if a == "" {
      assert a + b == b;
    } else if b == "" {
      assert a + b == a;
    } else {
      assert (a + b)[1..] == a[1..] + b;
      CollapseAppend(a[1..], b);
    }
  }

  lemma {:induction false} CollapseRunOfDashes(s: string)
    requires Dashes(s) && s != ""
    ensures CollapseDashes(s) == "-"
  {
    if |s| > 1 {
      CollapseRunOfDashes(s[1..]);
    }
  }

  lemma DashedBetween(a: string, g: string, b: string)
    requires EndsInWord(a) && StartsInWord(b) && g != "" && NoSlugLetters(g)
    ensures Dashed(a + g + b) == Dashed(a) + "-" + Dashed(b)
  {
    hide DashForeignRuns, StripLeft, StripRight, CollapseDashes, NoSlugLetters, Dashes;
    var da, dg, db := DashForeignRuns(a), DashForeignRuns(g), DashForeignRuns(b);
    DashAppend(a + g, b);
    DashAppend(a, g);
    DashSeparators(g);
    DashKeepsEnds(a);
    DashKeepsEnds(b);
    assert da + dg + db == da + (dg + db);
    StripLeftAppend(da, dg + db);
    StripLeftAppend(da, "");
    var p := StripLeft(da);
    assert p + (dg + db) == p + dg + db;
    StripRightAppend(p + dg, db);
    var q := StripRight(db);
    EndsStay(p, db);
    CollapseBetween(p, dg, q);
  }

  lemma EndsStay(p: string, q: string)
    ensures EndsInWord(p) ==> StripRight(p) == p
    ensures StartsInWord(q) ==> StripLeft(q) == q
  {
  }

  lemma CollapseBetween(p: string, g: string, q: string)
    requires EndsInWord(p) && StartsInWord(q) && g != "" && Dashes(g)
    ensures CollapseDashes(p + g + q) == CollapseDashes(p) + "-" + CollapseDashes(q)
  {
    CollapseAppend(p + g, q);
    CollapseAppend(p, g);
    CollapseRunOfDashes(g);
  }

  lemma DashedAfter(g: string, b: string)
    requires NoSlugLetters(g) && StartsInWord(b)
    ensures Dashed(g + b) == Dashed(b)
  {
    hide DashForeignRuns, StripLeft, StripRight, CollapseDashes;
    DashAppend(g, b);
    DashSeparators(g);
    StripLeftAppend(DashForeignRuns(g), DashForeignRuns(b));
  }

  lemma DashedBefore(a: string, g: string)
    requires EndsInWord(a) && NoSlugLetters(g)
    ensures Dashed(a + g) == Dashed(a)
  {
    hide DashForeignRuns, StripLeft, StripRight, CollapseDashes;
    var da, dg := DashForeignRuns(a), DashForeignRuns(g);
    DashAppend(a, g);
    DashSeparators(g);
    DashKeepsEnds(a);
    StripLeftAppend(da, dg);
    StripRightAppend(StripLeft(da), dg);
  }

  lemma DashedNothing(g: string)
    requires NoSlugLetters(g)
    ensures Dashed(g) == ""
  {
    hide DashForeignRuns, StripLeft, StripRight;
    DashSeparators(g);
    var dg := DashForeignRuns(g);
    assert dg + "" == dg;
    StripLeftAppend(dg, "");
    StripNothing();
  }

  lemma StripNothing()
    ensures StripRight(StripLeft("")) == ""
  {
  }

  lemma {:induction false} TrimLeftAppend(a: string, b: string)
    requires a != "" && !IsSpace(a[|a| - 1])
    ensures TrimLeft(a + b) == TrimLeft(a) + b
    ensures TrimLeft(a) != "" && TrimLeft(a)[|TrimLeft(a)| - 1] == a[|a| - 1]
  {
    assert (a + b)[1..] == a[1..] + b;
    if |a| > 1 {
      TrimLeftAppend(a[1..], b);
    }
  }

  lemma {:induction false} TrimRightAppend(a: string, b: string)
    requires b != "" && !IsSpace(b[0])
    ensures TrimRight(a + b) == a + TrimRight(b)
    ensures TrimRight(b) != "" && TrimRight(b)[0] == b[0]
  {
    assert (a + b)[..|a + b| - 1] == a + b[..|b| - 1];
    if |b| > 1 {
      TrimRightAppend(a, b[..|b| - 1]);
    } else {
      assert TrimRight(b) == b && TrimRight(a + b) == a + b;
    }
  }

  lemma TrimNothing(s: string)
    requires s != ""
    ensures !IsSpace(s[|s| - 1]) ==> TrimRight(s) == s
    ensures !IsSpace(s[0]) ==> TrimLeft(s) == s
  {
  }

  lemma {:induction false} TrimSeparators(s: string)
    requires Separators(s)
    ensures Separators(TrimLeft(s)) && Separators(TrimRight(s))
  {
    if s != "" {
      TrimSeparators(s[1..]);
      TrimSeparators(s[..|s| - 1]);
    }
  }

  lemma WordCharsAreNoSpace()
    ensures forall c :: IsWordChar(c) ==> !IsSpace(c)
  {
  }

  lemma SlugIsDashed(s: string)
    ensures Slug(s) == Dashed(Lower(Trim(s)))
  {
  }

  /** Whatever stands between two words, it becomes one dash. */
  lemma SlugOfWords(a: string, f: string, b: string)
    requires EndsWithWord(a) && f != "" && Separators(f) && BeginsWithWord(b)
    ensures Slug(a + f + b) == Slug(a) + "-" + Slug(b)
  {
    hide Slug, Lower, TrimLeft, TrimRight, Dashed, NoSlugLetters, Separators, IsWordChar, IsSpace;
    WordCharsAreNoSpace();
    var x, y := TrimLeft(a), TrimRight(b);
    TrimLeftAppend(a, f + b);
    assert a + f + b == a + (f + b);
    TrimRightAppend(x + f, b);
    assert x + (f + b) == x + f + b;
    assert Trim(a + f + b) == x + f + y;
    TrimNothing(x);
    TrimNothing(b);
    LowerAppend(x + f, y);
    LowerAppend(x, f);
    LowerSeparators(f);
    LowerEnds(x);
    LowerEnds(y);
    SlugIsDashed(a + f + b);
    SlugIsDashed(a);
    SlugIsDashed(b);
    TrimLeftAppend(a, "");
    DashedBetween(Lower(x), f, Lower(y));
  }

  /** What stands before the first word or behind the last one is dropped. */
  lemma SlugDropsEnds(f: string, a: string, g: string)
    requires Separators(f) && Separators(g) && BeginsWithWord(a) && EndsWithWord(a)
    ensures Slug(f + a + g) == Slug(a)
  {
    SlugDropsStart(f, a + g);
    assert f + a + g == f + (a + g);
    SlugDropsEnd(a, g);
  }

  lemma SlugDropsStart(f: string, b: string)
    requires Separators(f) && BeginsWithWord(b)
    ensures Slug(f + b) == Slug(b)
  {
    hide Slug, Lower, TrimLeft, TrimRight, Dashed, NoSlugLetters, Separators, IsWordChar, IsSpace;
    WordCharsAreNoSpace();
    var y := TrimRight(b);
    TrimLeftThrough(f, b);
    TrimRightAppend(TrimLeft(f), b);
    TrimNothing(b);
    TrimSeparators(f);
    LowerAppend(TrimLeft(f), y);
    LowerSeparators(TrimLeft(f));
    LowerEnds(y);
    SlugIsDashed(f + b);
    SlugIsDashed(b);
    DashedAfter(TrimLeft(f), Lower(y));
  }

  lemma {:induction false} TrimLeftThrough(f: string, b: string)
    requires b != "" && !IsSpace(b[0])
    ensures TrimLeft(f + b) == TrimLeft(f) + b
  {
    if f == "" {
      assert f + b == b;
    } else {
      assert (f + b)[1..] == f[1..] + b;
      TrimLeftThrough(f[1..], b);
    }
  }

  lemma {:induction false} TrimRightThrough(a: string, g: string)
    requires a != "" && !IsSpace(a[|a| - 1])
    ensures TrimRight(a + g) == a + TrimRight(g)
  {
    if g == "" {
      assert a + g == a;
    } else {
      assert (a + g)[..|a + g| - 1] == a + g[..|g| - 1];
      TrimRightThrough(a, g[..|g| - 1]);
    }
  }

  lemma SlugDropsEnd(a: string, g: string)
    requires EndsWithWord(a) && Separators(g)
    ensures Slug(a + g) == Slug(a)
  {
    hide Slug, Lower, TrimLeft, TrimRight, Dashed, NoSlugLetters, Separators, IsWordChar, IsSpace;
    WordCharsAreNoSpace();
    var x := TrimLeft(a);
    TrimLeftAppend(a, g);
    TrimRightThrough(x, g);
    TrimNothing(x);
    TrimSeparators(g);
    LowerAppend(x, TrimRight(g));
    LowerSeparators(TrimRight(g));
    LowerEnds(x);
    SlugIsDashed(a + g);
    SlugIsDashed(a);
    DashedBefore(Lower(x), TrimRight(g));
  }

  /** A text without words has no slug. */
  lemma SlugOfNothing(f: string)
    requires Separators(f)
    ensures Slug(f) == ""
  {
    hide Slug, Lower, TrimLeft, TrimRight, Dashed, NoSlugLetters, Separators;
    TrimSeparators(f);
    TrimSeparators(TrimLeft(f));
    LowerSeparators(Trim(f));
    SlugIsDashed(f);
    DashedNothing(Trim(f));
  }

  /** The two other letters: the Kelvin sign is a k, the dotted capital I an i before a separator. */
  lemma SlugOfForeignLetters(a: string, b: string)
    ensures Slug(a + "\U{212A}" + b) == Slug(a + "k" + b)
    ensures Slug(a + "\U{0130}" + b) == Slug(a + "i\U{0307}" + b)
  {
    hide Slug, Lower, TrimLeft, TrimRight, Dashed;
    SameLower(a, "\U{212A}", "k", b);
    SameLower(a, "\U{0130}", "i\U{0307}", b);
    LowerForeign();
  }

  lemma LowerForeign()
    ensures Lower("\U{212A}") == Lower("k") && Lower("\U{0130}") == Lower("i\U{0307}")
  {
    LowerOne('\U{212A}');
    LowerOne('k');
    LowerOne('\U{0130}');
    LowerOne('i');
    LowerOne('\U{0307}');
    assert "i\U{0307}" == ['i'] + ['\U{0307}'];
    LowerAppend(['i'], ['\U{0307}']);
  }

  lemma SameLower(a: string, x: string, y: string, b: string)
    requires x != "" && y != "" && !IsSpace(x[0]) && !IsSpace(y[0])
    requires !IsSpace(x[|x| - 1]) && !IsSpace(y[|y| - 1])
    ensures Lower(x) == Lower(y) ==> Slug(a + x + b) == Slug(a + y + b)
  {
    hide Slug, Lower, TrimLeft, TrimRight, Dashed, IsSpace;
    TrimAround(a, x, b);
    TrimAround(a, y, b);
    LowerAppend(TrimLeft(a) + x, TrimRight(b));
    LowerAppend(TrimLeft(a), x);
    LowerAppend(TrimLeft(a) + y, TrimRight(b));
    LowerAppend(TrimLeft(a), y);
    SlugIsDashed(a + x + b);
    SlugIsDashed(a + y + b);
  }

  lemma TrimAround(a: string, x: string, b: string)
    requires x != "" && !IsSpace(x[0]) && !IsSpace(x[|x| - 1])
    ensures Trim(a + x + b) == TrimLeft(a) + x + TrimRight(b)
  {
    assert a + x + b == a + (x + b);
    TrimLeftThrough(a, x + b);
    assert TrimLeft(a) + (x + b) == (TrimLeft(a) + x) + b;
    TrimRightThrough(TrimLeft(a) + x, b);
  }

  /** A display name is refused exactly when its slug does not start with a letter or is longer than 64. */
  lemma NameOrRefusal(text: string)
    ensures NormalizeName(Some(text))
            == if Slug(text) != "" && 'a' <= Slug(text)[0] <= 'z' && |Slug(text)| <= 64 then Success(Some(Slug(text)))
               else Failure("invalid_display_name")
    ensures NormalizeName(None) == Success(None)
  {
    SlugIsCanonical(text);
  }
}
