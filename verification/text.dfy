/** String operations of the JavaScript library that the bus code relies on. */
module Text {

  /** The characters matched by `\s`, which are also the ones `trim` removes. */
  predicate IsSpace(c: char) {
    || c == ' ' || '\t' <= c <= '\r' || c == '\U{00A0}' || c == '\U{1680}'
    || '\U{2000}' <= c <= '\U{200A}' || c == '\U{2028}' || c == '\U{2029}'
    || c == '\U{202F}' || c == '\U{205F}' || c == '\U{3000}' || c == '\U{FEFF}'
  }

  /** The `length` of a string: characters above U+FFFF take two code units. */
  function JsLength(s: string): nat {
    if s == [] then 0 else (if s[0] as int >= 0x10000 then 2 else 1) + JsLength(s[1..])
  }

  function TrimLeft(s: string): string {
    if s != [] && IsSpace(s[0]) then TrimLeft(s[1..]) else s
  }

  function TrimRight(s: string): string {
    if s != [] && IsSpace(s[|s| - 1]) then TrimRight(s[..|s| - 1]) else s
  }

  function Trim(s: string): string {
    TrimRight(TrimLeft(s))
  }

  predicate IsBlank(s: string) {
    forall k :: 0 <= k < |s| ==> IsSpace(s[k])
  }

  /** `line.trim()` is the empty string exactly for a line of white space. */
  lemma {:induction false} TrimIsEmptyIffBlank(s: string)
    ensures Trim(s) == "" <==> IsBlank(s)
  {
    TrimLeftBlank(s);
    TrimRightBlank(TrimLeft(s));
  }

  lemma {:induction false} TrimLeftBlank(s: string)
    ensures IsBlank(s) <==> TrimLeft(s) == ""
    ensures IsBlank(s) <==> IsBlank(TrimLeft(s))
  {
    if s != [] && IsSpace(s[0]) {
      TrimLeftBlank(s[1..]);
      assert s == [s[0]] + s[1..];
      assert IsBlank(s[1..]) ==> IsBlank(s);
    }
  }

  lemma {:induction false} TrimRightBlank(s: string)
    ensures IsBlank(s) <==> TrimRight(s) == ""
  {
    if s != [] && IsSpace(s[|s| - 1]) {
      TrimRightBlank(s[..|s| - 1]);
      assert s == s[..|s| - 1] + [s[|s| - 1]];
      assert IsBlank(s[..|s| - 1]) ==> IsBlank(s);
    }
  }

  lemma {:induction false} TrimLeftDrops(a: string, x: string)
    requires IsBlank(a) && (x == "" || !IsSpace(x[0]))
    ensures TrimLeft(a + x) == x
  {
    if a == "" {
      assert a + x == x;
    } else {
      assert (a + x)[1..] == a[1..] + x;
      TrimLeftDrops(a[1..], x);
    }
  }

  lemma {:induction false} TrimRightDrops(x: string, b: string)
    requires IsBlank(b) && (x == "" || !IsSpace(x[|x| - 1]))
    ensures TrimRight(x + b) == x
  {
    if b == "" {
      assert x + b == x;
    } else {
      assert (x + b)[..|x + b| - 1] == x + b[..|b| - 1];
      TrimRightDrops(x, b[..|b| - 1]);
    }
  }

  /** `trim` takes the white space off both ends and nothing else. */
  lemma TrimDropsBothEnds(a: string, x: string, b: string)
    requires IsBlank(a) && IsBlank(b) && (x == "" || (!IsSpace(x[0]) && !IsSpace(x[|x| - 1])))
    ensures Trim(a + x + b) == x
  {
    if x == "" {
      assert a + x + b == a + b;
      TrimIsEmptyIffBlank(a + b);
    } else {
      assert a + x + b == a + (x + b);
      TrimLeftDrops(a, x + b);
      TrimRightDrops(x, b);
    }
  }

  lemma {:induction false} TrimIsIdentityOnTight(s: string)
    requires forall k :: 0 <= k < |s| ==> !IsSpace(s[k])
    ensures Trim(s) == s
  {
  }

  /** Every maximal run of white space becomes one space: `replace(/\s+/g, ' ')`. */
  function CollapseSpaces(s: string): string {
    if s == [] then []
    else if !IsSpace(s[0]) then [s[0]] + CollapseSpaces(s[1..])
    else if |s| > 1 && IsSpace(s[1]) then CollapseSpaces(s[1..])
    else [' '] + CollapseSpaces(s[1..])
  }

  lemma {:induction false} CollapseSpacesIsIdentityOnTight(s: string)
    requires forall k :: 0 <= k < |s| ==> !IsSpace(s[k])
    ensures CollapseSpaces(s) == s
  {
    if s != [] {
      CollapseSpacesIsIdentityOnTight(s[1..]);
    }
  }

  lemma {:induction false} CollapseSpacesAppend(a: string, b: string)
    requires a == "" || b == "" || !IsSpace(a[|a| - 1]) || !IsSpace(b[0])
    ensures CollapseSpaces(a + b) == CollapseSpaces(a) + CollapseSpaces(b)
  {
    if a == "" {
      assert a + b == b;
    } else if b == "" {
      assert a + b == a;
    } else {
      assert (a + b)[1..] == a[1..] + b;
      CollapseSpacesAppend(a[1..], b);
    }
  }

  lemma {:induction false} CollapseRun(w: string)
    requires w != "" && IsBlank(w)
    ensures CollapseSpaces(w) == " "
  {
    if |w| > 1 {
      CollapseRun(w[1..]);
    } else {
      assert CollapseSpaces(w[1..]) == "";
    }
  }

  /** A run of white space between two texts becomes one space. */
  lemma CollapseSpacesBetween(a: string, w: string, b: string)
    requires w != "" && IsBlank(w)
    requires (a == "" || !IsSpace(a[|a| - 1])) && (b == "" || !IsSpace(b[0]))
    ensures CollapseSpaces(a + w + b) == CollapseSpaces(a) + " " + CollapseSpaces(b)
  {
    CollapseSpacesAppend(a + w, b);
    CollapseSpacesAppend(a, w);
    CollapseRun(w);
  }

  /** The length counts one for a character up to U+FFFF and two for the others. */
  lemma {:induction false} LengthAddsUp(a: string, c: char, b: string)
    ensures JsLength(a + [c] + b) == JsLength(a) + (if c <= '\U{FFFF}' then 1 else 2) + JsLength(b)
  {
    if a == "" {
      assert a + [c] + b == [c] + b && ([c] + b)[1..] == b;
    } else {
      assert (a + [c] + b)[1..] == a[1..] + [c] + b;
      LengthAddsUp(a[1..], c, b);
    }
  }
}
