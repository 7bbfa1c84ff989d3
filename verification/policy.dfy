/** The launch policy a Codex command line asks for (adapters/codex-app-server/resolve_wrapper_policy.py). */
module Policy {
  import opened Wrappers

  // ---- texts ---------------------------------------------------------------------------------------

  /** The characters Python's `strip` removes. */
  predicate IsPySpace(c: char) {
    || '\t' <= c <= '\r' || '\U{001C}' <= c <= ' ' || c == '\U{0085}' || c == '\U{00A0}' || c == '\U{1680}'
    || '\U{2000}' <= c <= '\U{200A}' || c == '\U{2028}' || c == '\U{2029}'
    || c == '\U{202F}' || c == '\U{205F}' || c == '\U{3000}'
  }

  function Strip(s: string): string {
    if s == "" then ""
    else if IsPySpace(s[0]) then Strip(s[1..])
    else if IsPySpace(s[|s| - 1]) then Strip(s[..|s| - 1])
    else s
  }

  predicate IsQuote(c: char) { c == '"' || c == '\'' }

  /** _strip_quotes */
  function StripQuotes(text: string): string {
    var s := Strip(text);
    if |s| >= 2 && s[0] == s[|s| - 1] && IsQuote(s[0]) then s[1..|s| - 1] else s
  }

  /** The position of the first `=`, or the length. */
  function FirstEquals(s: string): (k: nat)
    ensures k <= |s| && (forall j :: 0 <= j < k ==> s[j] != '=') && (k < |s| ==> s[k] == '=')
  {
    if s == "" || s[0] == '=' then 0 else 1 + FirstEquals(s[1..])
  }

  /** _parse_assignment; None without a `=`. */
  function ParseAssignment(text: string): Option<(string, string)> {
    var eq := FirstEquals(text);
    if eq == |text| then None else Some((Strip(text[..eq]), StripQuotes(text[eq + 1..])))
  }

  // ---- the grammar ---------------------------------------------------------------------------------

  datatype Kind = Approval | Sandbox | Profile | Dir | Override

  datatype Token = Set(kind: Kind, value: string) | FullAuto | Bypass | Ignored

  /** The flags that take a value. */
  function KindOf(flag: string): Option<Kind> {
    if flag == "--approval-mode" || flag == "--approval-policy" || flag == "-a" then Some(Approval)
    else if flag == "--sandbox-mode" || flag == "--sandbox" || flag == "-s" then Some(Sandbox)
    else if flag == "--profile" || flag == "-p" then Some(Profile)
    else if flag == "--add-dir" then Some(Dir)
    else if flag == "--config" || flag == "--config-override" || flag == "-c" then Some(Override)
    else None
  }

  /** `flag=value` in one argument; `-c` has no such form. */
  function Joined(arg: string): Option<Token> {
    var eq := FirstEquals(arg);
    if eq < |arg| && arg[..eq] != "-c" && KindOf(arg[..eq]).Some?
    then Some(Set(KindOf(arg[..eq]).value, arg[eq + 1..]))
    else None
  }

  function Plain(arg: string): Token {
    if arg == "--full-auto" then FullAuto
    else if arg == "--dangerously-bypass-approvals-and-sandbox" then Bypass
    else Ignored
  }

  /** A flag and the argument it consumes, whatever that argument is. */
  predicate TakesNext(args: seq<string>) {
    |args| > 1 && KindOf(args[0]).Some?
  }

  function NextToken(args: seq<string>): Token
    requires args != []
  {
    if TakesNext(args) then Set(KindOf(args[0]).value, args[1])
    else Joined(args[0]).GetOr(Plain(args[0]))
  }

  /** The tokens of a command line, up to the first `--` that no flag consumes. */
  function Tokens(args: seq<string>): seq<Token> {
    if args == [] || args[0] == "--" then []
    else if TakesNext(args) then [NextToken(args)] + Tokens(args[2..])
    else [NextToken(args)] + Tokens(args[1..])
  }

  // ---- what the tokens mean --------------------------------------------------------------------------

  datatype Config = Config(approvalPolicy: Option<string>, approvalMode: Option<string>,
                           sandboxMode: Option<string>, sandbox: Option<string>)

  datatype LaunchPolicy = LaunchPolicy(approval: Option<string>, sandbox: Option<string>, fullAuto: bool, bypass: bool,
                                       profile: Option<string>, addDirs: seq<string>, overrides: seq<string>)

  /** Python's `a or b` on optional texts. */
  function Or(a: Option<string>, b: Option<string>): Option<string> {
    if a.Some? && a.value != "" then a else b
  }

  /** A `key=value` override that sets one of two keys to something. */
  function Assigned(text: string, key: string, alias: string): Option<string> {
    match ParseAssignment(text)
    case None => None
    case Some((k, v)) => if (k == key || k == alias) && v != "" then Some(v) else None
  }

  /** The mode a token sets explicitly: by its flag or by a configuration override. */
  function ExplicitApproval(t: Token): Option<string> {
    match t
    case Set(Approval, value) => Some(value)
    case Set(Override, text) => Assigned(text, "approval_policy", "approval_mode")
    case _ => None
  }

  function ExplicitSandbox(t: Token): Option<string> {
    match t
    case Set(Sandbox, value) => Some(value)
    case Set(Override, text) => Assigned(text, "sandbox", "sandbox_mode")
    case _ => None
  }

  /** The last of the texts a list of tokens gives, or the default. */
  function LastGiven(tokens: seq<Token>, gives: Token -> Option<string>, default: Option<string>): Option<string> {
    if tokens == [] then default
    else if gives(tokens[|tokens| - 1]).Some? then gives(tokens[|tokens| - 1])
    else LastGiven(tokens[..|tokens| - 1], gives, default)
  }

  function ValueOf(kind: Kind): Token -> Option<string> {
    (t: Token) => if t.Set? && t.kind == kind then Some(t.value) else None
  }

  function Values(tokens: seq<Token>, kind: Kind): seq<string> {
    if tokens == [] then []
    else Values(tokens[..|tokens| - 1], kind)
         + (if ValueOf(kind)(tokens[|tokens| - 1]).Some? then [ValueOf(kind)(tokens[|tokens| - 1]).value] else [])
  }

  function ConfiguredApproval(c: Config): Option<string> { Or(c.approvalPolicy, c.approvalMode) }

  function ConfiguredSandbox(c: Config): Option<string> { Or(c.sandboxMode, c.sandbox) }

  function Effective(c: Config, tokens: seq<Token>): LaunchPolicy {
    LaunchPolicy(if Bypass in tokens then Some("never") else if FullAuto in tokens then Some("on-request")
                 else LastGiven(tokens, ExplicitApproval, ConfiguredApproval(c)),
                 if Bypass in tokens then Some("danger-full-access") else if FullAuto in tokens
                   then Some("workspace-write")
                 else LastGiven(tokens, ExplicitSandbox, ConfiguredSandbox(c)),
                 FullAuto in tokens, Bypass in tokens,
                 LastGiven(tokens, ValueOf(Profile), None), Values(tokens, Dir), Values(tokens, Override))
  }

  // ---- how a flag is recognised --------------------------------------------------------------------

  /** The arguments start with this flag and a value for it, in either form. */
  predicate FlagAt(args: seq<string>, flag: string)
    requires args != []
  {
    (args[0] == flag && |args| > 1) || flag + "=" <= args[0]
  }

  function FlagValue(args: seq<string>, flag: string): string
    requires args != [] && FlagAt(args, flag)
  {
    if args[0] == flag then args[1] else args[0][|flag| + 1..]
  }

  function Width(args: seq<string>): nat {
    if TakesNext(args) then 2 else 1
  }

  lemma FlagsHaveNoEquals(flag: string)
    requires KindOf(flag).Some?
    ensures forall k :: 0 <= k < |flag| ==> flag[k] != '='
  {
  }

  lemma FirstEqualsIs(s: string, k: nat)
    requires k < |s| && s[k] == '=' && forall j :: 0 <= j < k ==> s[j] != '='
    ensures FirstEquals(s) == k
  {
    assert !(FirstEquals(s) < k) && !(k < FirstEquals(s));
  }

  lemma JoinedFlag(arg: string, flag: string)
    requires KindOf(flag).Some? && flag + "=" <= arg
    ensures FirstEquals(arg) == |flag| && arg[..|flag|] == flag && KindOf(arg).None?
  {
    FlagsHaveNoEquals(flag);
    assert (flag + "=")[|flag|] == '=';
    assert forall j :: 0 <= j < |flag| ==> arg[j] == (flag + "=")[j];
    FirstEqualsIs(arg, |flag|);
    assert arg[|flag|] == '=';
    if KindOf(arg).Some? {
      FlagsHaveNoEquals(arg);
    }
  }

  /** A flag with a value is the token the grammar reads. */
  lemma Recognized(args: seq<string>, flag: string)
    requires args != [] && KindOf(flag).Some? && FlagAt(args, flag) && (flag == "-c" ==> args[0] == "-c")
    ensures NextToken(args) == Set(KindOf(flag).value, FlagValue(args, flag))
    ensures Width(args) == if args[0] == flag then 2 else 1
  {
    if args[0] != flag {
      JoinedFlag(args[0], flag);
    }
  }

  // ---- the loop ----------------------------------------------------------------------------------------

  /** _split_value: the value of a long flag at `index`, and the last index it uses. */
  function SplitValue(args: seq<string>, index: nat, flag: string): (Option<string>, nat)
    requires index < |args|
  {
    var arg := args[index];
    if arg == flag then
      if index + 1 >= |args| then (None, index) else (Some(args[index + 1]), index + 1)
    else if flag + "=" <= arg then (Some(arg[|flag| + 1..]), index)
    else (None, index)
  }

  lemma SplitValueReadsFlag(args: seq<string>, index: nat, flag: string)
    requires index < |args| && KindOf(flag).Some? && flag != "-c"
    ensures var (value, consumed) := SplitValue(args, index, flag);
            && (value.Some? <==> FlagAt(args[index..], flag))
            && (value.Some? ==> NextToken(args[index..]) == Set(KindOf(flag).value, value.value)
                                && consumed + 1 == index + Width(args[index..]))
  {
    var rest := args[index..];
    assert rest[0] == args[index];
    if FlagAt(rest, flag) {
      Recognized(rest, flag);
    }
  }

  /** The variables of the loop. */
  datatype Vars = Vars(approval: Option<string>, sandbox: Option<string>, fullAuto: bool, bypass: bool,
                       profile: Option<string>, addDirs: seq<string>, overrides: seq<string>)

  function Else(a: Option<string>, b: Option<string>): Option<string> { if a.Some? then a else b }

  function Apply(v: Vars, t: Token): Vars {
    match t
    case Set(Approval, value) => v.(approval := Some(value))
    case Set(Sandbox, value) => v.(sandbox := Some(value))
    case Set(Profile, value) => v.(profile := Some(value))
    case Set(Dir, value) => v.(addDirs := v.addDirs + [value])
    case Set(Override, text) =>
      v.(overrides := v.overrides + [text],
         approval := Else(Assigned(text, "approval_policy", "approval_mode"), v.approval),
         sandbox := Else(Assigned(text, "sandbox", "sandbox_mode"), v.sandbox))
    case FullAuto =>
      v.(fullAuto := true, approval := Or(v.approval, Some("on-request")),
        sandbox := Or(v.sandbox, Some("workspace-write")))
    case Bypass => v.(bypass := true, approval := Some("never"), sandbox := Some("danger-full-access"))
    case Ignored => v
  }

  /** A configuration override given by a flag. */
  method AddOverride(v: Vars, text: string) returns (v1: Vars)
    ensures v1 == Apply(v, Set(Override, text))
  {
    v1 := v.(overrides := v.overrides + [text]);
    var assignment := ParseAssignment(text);
    if assignment.Some? {
      var (key, parsed) := assignment.value;
      if (key == "approval_policy" || key == "approval_mode") && parsed != "" {
        v1 := v1.(approval := Some(parsed));
      } else if (key == "sandbox" || key == "sandbox_mode") && parsed != "" {
        v1 := v1.(sandbox := Some(parsed));
      }
    }
  }

  /** A long flag under either of two names. */
  method SplitEither(args: seq<string>, index: nat, flag: string, alias: string)
    returns (value: Option<string>, next: nat)
    requires index < |args| && flag != "-c" && alias != "-c"
    requires KindOf(flag).Some? && KindOf(alias) == KindOf(flag)
    ensures value.Some? <==> FlagAt(args[index..], flag) || FlagAt(args[index..], alias)
    ensures value.Some? ==> NextToken(args[index..]) == Set(KindOf(flag).value, value.value)
                            && next == index + Width(args[index..])
  {
    SplitValueReadsFlag(args, index, flag);
    SplitValueReadsFlag(args, index, alias);
    var first := SplitValue(args, index, flag);
    value, next := first.0, first.1 + 1;
    if value.None? {
      var second := SplitValue(args, index, alias);
      value, next := second.0, second.1 + 1;
    }
  }

  predicate LongFlagAt(args: seq<string>)
    requires args != []
  {
    || FlagAt(args, "--approval-mode") || FlagAt(args, "--approval-policy")
    || FlagAt(args, "--sandbox-mode") || FlagAt(args, "--sandbox")
    || FlagAt(args, "--profile") || FlagAt(args, "--add-dir")
    || FlagAt(args, "--config") || FlagAt(args, "--config-override")
  }

  /** The first half of the loop body: long flags with a value. */
  method TakeLongFlag(args: seq<string>, index: nat, v: Vars) returns (taken: bool, v1: Vars, next: nat)
    requires index < |args|
    ensures taken <==> LongFlagAt(args[index..])
    ensures taken ==> v1 == Apply(v, NextToken(args[index..])) && next == index + Width(args[index..])
    ensures !taken ==> v1 == v
  {
    v1 := v;
    var value;
    value, next := SplitEither(args, index, "--approval-mode", "--approval-policy");
    if value.Some? {
      return true, v.(approval := value), next;
    }
    value, next := SplitEither(args, index, "--sandbox-mode", "--sandbox");
    if value.Some? {
      return true, v.(sandbox := value), next;
    }
    value, next := SplitEither(args, index, "--profile", "--profile");
    if value.Some? {
      return true, v.(profile := value), next;
    }
    value, next := SplitEither(args, index, "--add-dir", "--add-dir");
    if value.Some? {
      return true, v.(addDirs := v.addDirs + [value.value]), next;
    }
    value, next := SplitEither(args, index, "--config", "--config-override");
    taken := value.Some?;
    if taken {
      v1 := AddOverride(v, value.value);
    }
  }

  predicate ShortFlagAt(args: seq<string>)
    requires args != []
  {
    FlagAt(args, "-a") || FlagAt(args, "-s") || FlagAt(args, "-p") || (args[0] == "-c" && FlagAt(args, "-c"))
  }

  /** The short flags; `-c` has no form with `=`. */
  method TakeShortFlag(args: seq<string>, index: nat, v: Vars) returns (taken: bool, v1: Vars, next: nat)
    requires index < |args|
    ensures taken <==> ShortFlagAt(args[index..])
    ensures taken ==> v1 == Apply(v, NextToken(args[index..])) && next == index + Width(args[index..])
    ensures !taken ==> v1 == v
  {
    var arg := args[index];
    ghost var rest := args[index..];
    assert rest[0] == arg && (index + 1 < |args| ==> rest[1] == args[index + 1]);
    taken, v1, next := false, v, index + 1;
    ShortFlagsRead(rest);
    if arg == "-a" {
      if index + 1 < |args| {
        taken, v1, next := true, v.(approval := Some(args[index + 1])), index + 2;
      }
    } else if "-a=" <= arg {
      taken, v1 := true, v.(approval := Some(arg[3..]));
    } else if arg == "-s" {
      if index + 1 < |args| {
        taken, v1, next := true, v.(sandbox := Some(args[index + 1])), index + 2;
      }
    } else if "-s=" <= arg {
      taken, v1 := true, v.(sandbox := Some(arg[3..]));
    } else if arg == "-p" {
      if index + 1 < |args| {
        taken, v1, next := true, v.(profile := Some(args[index + 1])), index + 2;
      }
    } else if "-p=" <= arg {
      taken, v1 := true, v.(profile := Some(arg[3..]));
    } else if arg == "-c" {
      if index + 1 < |args| {
        taken, next := true, index + 2;
        v1 := AddOverride(v, args[index + 1]);
      }
    }
  }

  lemma ShortFlagsRead(args: seq<string>)
    requires args != []
    ensures FlagAt(args, "-a") ==> NextToken(args) == Set(Approval, FlagValue(args, "-a"))
    ensures FlagAt(args, "-s") ==> NextToken(args) == Set(Sandbox, FlagValue(args, "-s"))
    ensures FlagAt(args, "-p") ==> NextToken(args) == Set(Profile, FlagValue(args, "-p"))
    ensures args[0] == "-c" && |args| > 1 ==> NextToken(args) == Set(Override, args[1])
    ensures ShortFlagAt(args) ==>
              Width(args) == if args[0] == "-a" || args[0] == "-s" || args[0] == "-p" || args[0] == "-c" then 2 else 1
    ensures "-a=" == "-a" + "=" && "-s=" == "-s" + "=" && "-p=" == "-p" + "="
  {
    if FlagAt(args, "-a") { Recognized(args, "-a"); }
    if FlagAt(args, "-s") { Recognized(args, "-s"); }
    if FlagAt(args, "-p") { Recognized(args, "-p"); }
    if args[0] == "-c" && |args| > 1 { Recognized(args, "-c"); }
  }

  lemma AnyFlag(args: seq<string>, flag: string)
    requires args != [] && KindOf(flag).Some? && FlagAt(args, flag) && (flag == "-c" ==> args[0] == "-c")
    ensures LongFlagAt(args) || ShortFlagAt(args)
  {
  }

  lemma JoinedIsFlag(args: seq<string>)
    requires args != [] && Joined(args[0]).Some?
    ensures LongFlagAt(args) || ShortFlagAt(args)
  {
    var flag := args[0][..FirstEquals(args[0])];
    assert flag + "=" <= args[0];
    AnyFlag(args, flag);
  }

  /** What neither half takes is no flag with a value. */
  lemma NoValueFlag(args: seq<string>)
    requires args != [] && !LongFlagAt(args) && !ShortFlagAt(args)
    ensures NextToken(args) == Plain(args[0]) && Width(args) == 1
  {
    if Joined(args[0]).Some? {
      JoinedIsFlag(args);
    }
    if TakesNext(args) {
      AnyFlag(args, args[0]);
    }
  }

  /** What the loop variables hold after a list of tokens. */
  ghost predicate Tracks(c: Config, tokens: seq<Token>, v: Vars) {
    && (v.bypass <==> Bypass in tokens) && (v.fullAuto <==> FullAuto in tokens)
    && (!v.bypass && !v.fullAuto ==>
          && v.approval == LastGiven(tokens, ExplicitApproval, ConfiguredApproval(c))
          && v.sandbox == LastGiven(tokens, ExplicitSandbox, ConfiguredSandbox(c)))
    && v.profile == LastGiven(tokens, ValueOf(Profile), None)
    && v.addDirs == Values(tokens, Dir) && v.overrides == Values(tokens, Override)
  }

  lemma LastGivenSnoc(tokens: seq<Token>, t: Token, gives: Token -> Option<string>, default: Option<string>)
    ensures LastGiven(tokens + [t], gives, default) == Else(gives(t), LastGiven(tokens, gives, default))
  {
    assert (tokens + [t])[..|tokens|] == tokens;
  }

  lemma ValuesSnoc(tokens: seq<Token>, t: Token, kind: Kind)
    ensures Values(tokens + [t], kind)
            == Values(tokens, kind) + (if t.Set? && t.kind == kind then [t.value] else [])
  {
    assert (tokens + [t])[..|tokens|] == tokens;
  }

  lemma ApplyTracks(c: Config, tokens: seq<Token>, v: Vars, t: Token)
    requires Tracks(c, tokens, v)
    ensures Tracks(c, tokens + [t], Apply(v, t))
  {
    hide LastGiven, Values, Assigned;
    LastGivenSnoc(tokens, t, ExplicitApproval, ConfiguredApproval(c));
    LastGivenSnoc(tokens, t, ExplicitSandbox, ConfiguredSandbox(c));
    LastGivenSnoc(tokens, t, ValueOf(Profile), None);
    ValuesSnoc(tokens, t, Dir);
    ValuesSnoc(tokens, t, Override);
    assert Values(tokens, Dir) + [] == Values(tokens, Dir) && Values(tokens, Override) + [] == Values(tokens, Override);
  }

  function Unset(c: Config): Vars {
    Vars(ConfiguredApproval(c), ConfiguredSandbox(c), false, false, None, [], [])
  }

  /** What the variables say after the loop. */
  function Outcome(v: Vars): LaunchPolicy {
    var p := LaunchPolicy(v.approval, v.sandbox, v.fullAuto, v.bypass, v.profile, v.addDirs, v.overrides);
    if v.bypass then p.(approval := Some("never"), sandbox := Some("danger-full-access"))
    else if v.fullAuto then p.(approval := Some("on-request"), sandbox := Some("workspace-write"))
    else p
  }

  lemma NothingTracked(c: Config)
    ensures Tracks(c, [], Unset(c))
  {
  }

  lemma TrackedOutcome(c: Config, tokens: seq<Token>, v: Vars)
    requires Tracks(c, tokens, v)
    ensures Outcome(v) == Effective(c, tokens)
  {
  }

  lemma ReadingEnds(args: seq<string>, read: seq<Token>)
    requires args == [] || args[0] == "--"
    ensures Tokens(args) == [] && read + Tokens(args) == read
  {
  }

  /** resolve_policy: the loop computes what the tokens of the command line mean. */
  method ResolvePolicy(config: Config, args: seq<string>) returns (p: LaunchPolicy)
    ensures p == Effective(config, Tokens(args))
  {
    hide Tokens, NextToken, Width, Tracks, Effective, Apply;
    var v := Vars(Or(config.approvalPolicy, config.approvalMode), Or(config.sandboxMode, config.sandbox),
                  false, false, None, [], []);
    var index := 0;
    ghost var read: seq<Token> := [];
    NothingTracked(config);
    while index < |args|
      invariant index <= |args|
      invariant Tokens(args) == read + Tokens(args[index..])
      invariant Tracks(config, read, v)
      decreases |args| - index
    {
      if args[index] == "--" {
        break;
      }
      ghost var t := NextToken(args[index..]);
      ReadOne(args, index, read);
      ApplyTracks(config, read, v, t);
      read := read + [t];
      v, index := TakeArgument(args, index, v);
    }
    ReadingEnds(args[index..], read);
    TrackedOutcome(config, read, v);
    p := LaunchPolicy(v.approval, v.sandbox, v.fullAuto, v.bypass, v.profile, v.addDirs, v.overrides);
    if v.bypass {
      p := p.(approval := Some("never"), sandbox := Some("danger-full-access"));
    } else if v.fullAuto {
      p := p.(approval := Some("on-request"), sandbox := Some("workspace-write"));
    }
  }

  lemma ReadOne(args: seq<string>, index: nat, read: seq<Token>)
    requires index < |args| && args[index] != "--"
    ensures var rest := args[index..];
            && index + Width(rest) <= |args|
            && read + Tokens(rest) == (read + [NextToken(rest)]) + Tokens(args[index + Width(rest)..])
  {
    var rest := args[index..];
    assert rest[0] == args[index];
    assert rest[Width(rest)..] == args[index + Width(rest)..];
    assert read + ([NextToken(rest)] + Tokens(rest[Width(rest)..])) == (read + [NextToken(rest)])
           + Tokens(rest[Width(rest)..]);
  }

  /** One turn of the loop. */
  method TakeArgument(args: seq<string>, index: nat, v: Vars) returns (v1: Vars, next: nat)
    requires index < |args|
    ensures v1 == Apply(v, NextToken(args[index..])) && next == index + Width(args[index..])
  {
    var taken;
    taken, v1, next := TakeLongFlag(args, index, v);
    if taken {
      return;
    }
    taken, v1, next := TakeShortFlag(args, index, v);
    if taken {
      return;
    }
    NoValueFlag(args[index..]);
    var arg := args[index];
    next := index + 1;
    if arg == "--full-auto" {
      v1 := v.(fullAuto := true, approval := Or(v.approval, Some("on-request")),
        sandbox := Or(v.sandbox, Some("workspace-write")));
    } else if arg == "--dangerously-bypass-approvals-and-sandbox" {
      v1 := v.(bypass := true, approval := Some("never"), sandbox := Some("danger-full-access"));
    }
  }

  // ---- what a user can rely on --------------------------------------------------------------------------

  /** These arguments are read to the end: no `--` stops the reading and no flag at the end waits for
      a value. What follows them is in token position. */
  predicate Complete(args: seq<string>) {
    args == [] || (args[0] != "--" && (KindOf(args[0]).Some? ==> |args| > 1) && Complete(args[Width(args)..]))
  }

  lemma TokensStep(args: seq<string>)
    requires args != [] && args[0] != "--" && Width(args) <= |args|
    ensures Tokens(args) == [NextToken(args)] + Tokens(args[Width(args)..])
  {
  }

  lemma CompleteStep(args: seq<string>)
    requires Complete(args) && args != []
    ensures args[0] != "--" && (KindOf(args[0]).Some? ==> |args| > 1) && Width(args) <= |args|
    ensures Complete(args[Width(args)..])
  {
  }

  lemma FirstStays(pre: seq<string>, post: seq<string>)
    requires pre != [] && (KindOf(pre[0]).Some? ==> |pre| > 1)
    ensures (pre + post)[0] == pre[0] && Width(pre + post) == Width(pre) && NextToken(pre + post) == NextToken(pre)
  {
  }

  lemma DropAppend(pre: seq<string>, post: seq<string>, n: nat)
    requires n <= |pre|
    ensures (pre + post)[n..] == pre[n..] + post
  {
  }

  lemma ConsAppend(t: Token, a: seq<Token>, b: seq<Token>)
    ensures [t] + (a + b) == ([t] + a) + b
  {
  }

  lemma {:induction false} TokensAppend(pre: seq<string>, post: seq<string>)
    requires Complete(pre)
    ensures Tokens(pre + post) == Tokens(pre) + Tokens(post)
  {
    if pre == [] {
      assert pre + post == post;
    } else {
      CompleteStep(pre);
      FirstStays(pre, post);
      var tail := pre[Width(pre)..];
      DropAppend(pre, post, Width(pre));
      TokensAppend(tail, post);
      TokensStep(pre);
      TokensStep(pre + post);
      ConsAppend(NextToken(pre), Tokens(tail), Tokens(post));
    }
  }

  /** What follows a `--` that no flag consumes has no effect. */
  lemma NothingAfterDashes(c: Config, pre: seq<string>, post: seq<string>)
    requires Complete(pre)
    ensures Effective(c, Tokens(pre + ["--"] + post)) == Effective(c, Tokens(pre))
  {
    assert pre + ["--"] + post == pre + (["--"] + post);
    TokensAppend(pre, ["--"] + post);
    assert Tokens(pre) + [] == Tokens(pre);
  }

  /** An argument `flag=value` is one token, and a value for every flag but `-c`. */
  lemma JoinedToken(flag: string, value: string, post: seq<string>)
    requires KindOf(flag).Some?
    ensures var args := [flag + "=" + value] + post;
            && Tokens(args) == [NextToken(args)] + Tokens(post)
            && (flag != "-c" ==> NextToken(args) == Set(KindOf(flag).value, value))
            && (flag == "-c" ==> !NextToken(args).Set?)
  {
    hide Tokens, KindOf;
    var arg := flag + "=" + value;
    var args := [arg] + post;
    assert flag + "=" <= arg && args[1..] == post;
    JoinedFlag(arg, flag);
    assert arg[|flag| + 1..] == value;
    assert arg[|flag|] == '=';
    assert arg != "--";
    TokensStep(args);
  }

  /** In token position `flag=value` means the same as `flag value`, for every value, exactly when the
      flag is not `-c`. */
  lemma EqualsFormIffNotShortConfig(pre: seq<string>, flag: string, value: string, post: seq<string>)
    requires Complete(pre) && KindOf(flag).Some?
    ensures Tokens(pre + [flag + "=" + value] + post) == Tokens(pre + [flag, value] + post) <==> flag != "-c"
  {
    hide Tokens, NextToken, KindOf, Complete;
    var joined, apart := [flag + "=" + value] + post, [flag, value] + post;
    assert pre + [flag + "=" + value] + post == pre + joined && pre + [flag, value] + post == pre + apart;
    TokensAppend(pre, joined);
    TokensAppend(pre, apart);
    JoinedToken(flag, value, post);
    ShortPair(flag, value, post);
    if flag == "-c" {
      assert Tokens(joined)[0] != Tokens(apart)[0];
      DifferentTails(Tokens(pre), Tokens(joined), Tokens(apart));
    }
  }

  lemma DifferentTails(pre: seq<Token>, a: seq<Token>, b: seq<Token>)
    requires a != b
    ensures pre + a != pre + b
  {
    assert (pre + a)[|pre|..] == a && (pre + b)[|pre|..] == b;
  }

  /** A quoted override, as in `-c key="value"`. */
  function Assignment(key: string, value: string): string { key + "=" + "\"" + value + "\"" }

  /** It reads back as it was written. */
  lemma QuotedAssignment(key: string, value: string)
    requires key != "" && !IsPySpace(key[0]) && !IsPySpace(key[|key| - 1])
    requires forall k :: 0 <= k < |key| ==> key[k] != '='
    ensures ParseAssignment(Assignment(key, value)) == Some((key, value))
  {
    var text := Assignment(key, value);
    FirstEqualsIs(text, |key|);
    assert text[..|key|] == key;
    var quoted := "\"" + value + "\"";
    assert text[|key| + 1..] == quoted;
    assert quoted[1..|quoted| - 1] == value;
  }

  lemma {:induction false} NothingGivenLater(tokens: seq<Token>, later: seq<Token>, gives: Token -> Option<string>,
                                             default: Option<string>)
    requires forall t :: t in later ==> gives(t).None?
    ensures LastGiven(tokens + later, gives, default) == LastGiven(tokens, gives, default)
  {
    if later == [] {
      assert tokens + later == tokens;
    } else {
      assert (tokens + later)[..|tokens + later| - 1] == tokens + later[..|later| - 1];
      NothingGivenLater(tokens, later[..|later| - 1], gives, default);
    }
  }

  lemma LastGivenWins(before: seq<Token>, t: Token, after: seq<Token>, gives: Token -> Option<string>,
                      default: Option<string>)
    requires gives(t).Some? && forall u :: u in after ==> gives(u).None?
    ensures LastGiven(before + [t] + after, gives, default) == gives(t)
  {
    NothingGivenLater(before + [t], after, gives, default);
    assert (before + [t])[|before|] == t && (before + [t])[..|before|] == before;
  }

  /** These tokens hold no flag that overrides explicit settings. */
  predicate NoStrongFlag(tokens: seq<Token>) { FullAuto !in tokens && Bypass !in tokens }

  /** Without bypass and full-auto flags the last explicit approval setting wins over earlier ones and
      over the configuration file, whichever flag or configuration override makes it. */
  lemma LastExplicitApprovalWins(c: Config, pre: seq<string>, post: seq<string>, flag: string, value: string)
    requires Complete(pre) && KindOf(flag).Some? && ExplicitApproval(Set(KindOf(flag).value, value)).Some?
    requires NoStrongFlag(Tokens(pre)) && NoStrongFlag(Tokens(post))
    requires forall t :: t in Tokens(post) ==> ExplicitApproval(t).None?
    ensures Effective(c, Tokens(pre + ([flag, value] + post))).approval
            == ExplicitApproval(Set(KindOf(flag).value, value))
  {
    PairInTheMiddle(pre, flag, value, post);
    LastGivenWins(Tokens(pre), Set(KindOf(flag).value, value), Tokens(post), ExplicitApproval, ConfiguredApproval(c));
  }

  /** The same for the sandbox. */
  lemma LastExplicitSandboxWins(c: Config, pre: seq<string>, post: seq<string>, flag: string, value: string)
    requires Complete(pre) && KindOf(flag).Some? && ExplicitSandbox(Set(KindOf(flag).value, value)).Some?
    requires NoStrongFlag(Tokens(pre)) && NoStrongFlag(Tokens(post))
    requires forall t :: t in Tokens(post) ==> ExplicitSandbox(t).None?
    ensures Effective(c, Tokens(pre + ([flag, value] + post))).sandbox
            == ExplicitSandbox(Set(KindOf(flag).value, value))
  {
    PairInTheMiddle(pre, flag, value, post);
    LastGivenWins(Tokens(pre), Set(KindOf(flag).value, value), Tokens(post), ExplicitSandbox, ConfiguredSandbox(c));
  }

  /** A quoted override of either key says what the flag with the bare value says. */
  lemma QuotedOverrideIsExplicit(key: string, mode: string)
    requires mode != ""
    ensures key == "approval_policy" || key == "approval_mode" ==>
              ExplicitApproval(Set(Override, Assignment(key, mode))) == ExplicitApproval(Set(Approval, mode))
    ensures key == "sandbox" || key == "sandbox_mode" ==>
              ExplicitSandbox(Set(Override, Assignment(key, mode))) == ExplicitSandbox(Set(Sandbox, mode))
  {
    if key == "approval_policy" || key == "approval_mode" || key == "sandbox" || key == "sandbox_mode" {
      QuotedAssignment(key, mode);
    }
  }

  lemma PairInTheMiddle(pre: seq<string>, flag: string, value: string, post: seq<string>)
    requires Complete(pre) && KindOf(flag).Some?
    ensures Tokens(pre + ([flag, value] + post)) == Tokens(pre) + [Set(KindOf(flag).value, value)] + Tokens(post)
  {
    hide Tokens, KindOf, Complete;
    TokensAppend(pre, [flag, value] + post);
    ShortPair(flag, value, post);
    var t := Set(KindOf(flag).value, value);
    assert Tokens(pre) + ([t] + Tokens(post)) == Tokens(pre) + [t] + Tokens(post);
  }

  lemma ShortPair(flag: string, value: string, post: seq<string>)
    requires KindOf(flag).Some?
    ensures Tokens([flag, value] + post) == [Set(KindOf(flag).value, value)] + Tokens(post)
  {
    var args := [flag, value] + post;
    assert args[2..] == post;
    TokensStep(args);
  }

  /** No flag with a value starts like the two plain ones. */
  lemma FlagStarts(flag: string)
    requires KindOf(flag).Some?
    ensures |flag| >= 2 && (flag[1] == '-' ==> |flag| > 2 && flag[2] != 'f' && flag[2] != 'd')
  {
  }

  lemma PlainStarts()
    ensures "--full-auto"[1] == '-' && "--full-auto"[2] == 'f'
    ensures "--dangerously-bypass-approvals-and-sandbox"[1] == '-'
            && "--dangerously-bypass-approvals-and-sandbox"[2] == 'd'
  {
  }

  lemma PlainIsNotJoined(arg: string)
    requires |arg| > 2 && arg[1] == '-' && (arg[2] == 'f' || arg[2] == 'd')
    ensures KindOf(arg).None? && Joined(arg).None?
  {
    var eq := FirstEquals(arg);
    if KindOf(arg[..eq]).Some? {
      FlagStarts(arg[..eq]);
    }
    if KindOf(arg).Some? {
      FlagStarts(arg);
    }
  }

  lemma PlainFirst(flag: string, post: seq<string>)
    requires flag == "--full-auto" || flag == "--dangerously-bypass-approvals-and-sandbox"
    ensures Tokens([flag] + post) == [Plain(flag)] + Tokens(post) && Plain(flag) != Ignored
  {
    assert ([flag] + post)[1..] == post;
    PlainStarts();
    PlainIsNotJoined(flag);
    TokensStep([flag] + post);
  }

  /** A bypass flag in token position, anywhere on the line, forces the most permissive policy; a
      full-auto flag forces its own when no bypass flag is read. */
  lemma StrongFlagsWin(c: Config, pre: seq<string>, flag: string, post: seq<string>)
    requires Complete(pre)
    requires flag == "--full-auto" || flag == "--dangerously-bypass-approvals-and-sandbox"
    ensures var p := Effective(c, Tokens(pre + ([flag] + post)));
            && (flag != "--full-auto" ==>
               p.bypass && p.approval == Some("never") && p.sandbox == Some("danger-full-access"))
            && (flag == "--full-auto" ==>
                  p.fullAuto && (!p.bypass ==>
                    p.approval == Some("on-request") && p.sandbox == Some("workspace-write")))
  {
    TokensAppend(pre, [flag] + post);
    PlainFirst(flag, post);
    InTheMiddle(Tokens(pre), Plain(flag), Tokens(post));
  }

  lemma InTheMiddle(a: seq<Token>, t: Token, b: seq<Token>)
    ensures t in a + ([t] + b)
  {
    assert (a + ([t] + b))[|a|] == t;
  }

  // ---- without a strong flag ----------------------------------------------------------------------------

  /** The flags with a value, by what they set. */
  lemma FlagsByKind(flag: string)
    ensures KindOf(flag) == Some(Approval) <==> flag in {"--approval-mode", "--approval-policy", "-a"}
    ensures KindOf(flag) == Some(Sandbox) <==> flag in {"--sandbox-mode", "--sandbox", "-s"}
    ensures KindOf(flag) == Some(Profile) <==> flag in {"--profile", "-p"}
    ensures KindOf(flag) == Some(Dir) <==> flag == "--add-dir"
    ensures KindOf(flag) == Some(Override) <==> flag in {"--config", "--config-override", "-c"}
  {
  }

  lemma {:induction false} NobodyGives(tokens: seq<Token>, gives: Token -> Option<string>, default: Option<string>)
    requires forall t :: t in tokens ==> gives(t).None?
    ensures LastGiven(tokens, gives, default) == default
  {
    if tokens != [] {
      NobodyGives(tokens[..|tokens| - 1], gives, default);
    }
  }

  /** The modes the configuration file gives: one key, and the other when that is missing or empty. */
  function FromConfig(first: Option<string>, second: Option<string>): Option<string> {
    match first
    case None => second
    case Some(mode) => if mode == "" then second else first
  }

  /** When nothing on the command line sets a mode, the configuration file does. */
  lemma ConfigurationDecides(c: Config, args: seq<string>)
    requires NoStrongFlag(Tokens(args))
    ensures (forall t :: t in Tokens(args) ==> ExplicitApproval(t).None?) ==>
              Effective(c, Tokens(args)).approval == FromConfig(c.approvalPolicy, c.approvalMode)
    ensures (forall t :: t in Tokens(args) ==> ExplicitSandbox(t).None?) ==>
              Effective(c, Tokens(args)).sandbox == FromConfig(c.sandboxMode, c.sandbox)
  {
    hide Tokens, LastGiven, ExplicitApproval, ExplicitSandbox;
    if forall t :: t in Tokens(args) ==> ExplicitApproval(t).None? {
      NobodyGives(Tokens(args), ExplicitApproval, ConfiguredApproval(c));
    }
    if forall t :: t in Tokens(args) ==> ExplicitSandbox(t).None? {
      NobodyGives(Tokens(args), ExplicitSandbox, ConfiguredSandbox(c));
    }
  }

  /** A flag and its value behind other arguments: a directory or an override joins the list, a profile
      replaces the one before, and the lists and the profile are touched by nothing else. */
  lemma ListsAndProfile(c: Config, pre: seq<string>, flag: string, value: string)
    requires Complete(pre) && KindOf(flag).Some?
    ensures var p, p1 := Effective(c, Tokens(pre)), Effective(c, Tokens(pre + [flag, value]));
            && p1.addDirs == p.addDirs + (if flag == "--add-dir" then [value] else [])
            && p1.overrides == p.overrides + (if flag in {"--config", "--config-override", "-c"} then [value] else [])
            && p1.profile == (if flag in {"--profile", "-p"} then Some(value) else p.profile)
            && p1.fullAuto == p.fullAuto && p1.bypass == p.bypass
  {
    hide Tokens, Values, LastGiven, KindOf, Complete;
    FlagsByKind(flag);
    PairInTheMiddle(pre, flag, value, []);
    TokensOfNothing();
    assert [flag, value] + [] == [flag, value];
    var tokens, t := Tokens(pre), Set(KindOf(flag).value, value);
    assert tokens + [t] + [] == tokens + [t];
    ValuesSnoc(tokens, t, Dir);
    ValuesSnoc(tokens, t, Override);
    LastGivenSnoc(tokens, t, ValueOf(Profile), None);
  }

  /** Of nothing nothing comes: no profile, no directory, no override. */
  lemma NothingAsked(c: Config)
    ensures Effective(c, Tokens([]))
            == LaunchPolicy(FromConfig(c.approvalPolicy, c.approvalMode), FromConfig(c.sandboxMode, c.sandbox),
                            false, false, None, [], [])
  {
  }

  lemma TokensOfNothing()
    ensures Tokens([]) == []
  {
  }

  // ---- assignments ------------------------------------------------------------------------------------

  predicate PyBlank(s: string) { forall k :: 0 <= k < |s| ==> IsPySpace(s[k]) }

  predicate PyTight(s: string) { s == "" || (!IsPySpace(s[0]) && !IsPySpace(s[|s| - 1])) }

  /** `strip` takes white space off both ends and nothing else. */
  lemma {:induction false} StripDrops(a: string, x: string, b: string)
    requires PyBlank(a) && PyBlank(b) && PyTight(x)
    ensures Strip(a + x + b) == x
    decreases |a| + |b|
  {
    var s := a + x + b;
    if a != "" {
      assert s[1..] == a[1..] + x + b;
      StripDrops(a[1..], x, b);
    } else if b != "" {
      assert s[..|s| - 1] == a + x + b[..|b| - 1];
      if x == "" {
        assert s[1..] == a + x + b[1..];
        StripDrops(a, x, b[1..]);
      } else {
        StripDrops(a, x, b[..|b| - 1]);
      }
    } else {
      assert s == x;
    }
  }

  predicate IsQuoted(s: string) { |s| >= 2 && s[0] == s[|s| - 1] && s[0] in {'\"', '\''} }

  /** An assignment reads back with white space around key and value, and one pair of equal quotes around
      the value dropped; other quotes belong to the value. */
  lemma AssignmentReads(a: string, key: string, b: string, c: string, value: string, d: string)
    requires PyBlank(a) && PyBlank(b) && PyBlank(c) && PyBlank(d) && PyTight(key) && PyTight(value)
    requires forall k :: 0 <= k < |key| ==> key[k] != '='
    ensures ParseAssignment(a + key + b + "=" + (c + value + d))
            == Some((key, if IsQuoted(value) then value[1..|value| - 1] else value))
  {
    var left, right := a + key + b, c + value + d;
    var text := left + "=" + right;
    FirstEqualsIs(text, |left|);
    assert text[..|left|] == left && text[|left| + 1..] == right;
    StripDrops(a, key, b);
    StripDrops(c, value, d);
  }

  /** A text without `=` assigns nothing, and only four keys set a mode, when their value is not empty. */
  lemma OverrideSets(text: string)
    ensures ParseAssignment(text) == None <==> forall k :: 0 <= k < |text| ==> text[k] != '='
    ensures forall mode :: ExplicitApproval(Set(Override, text)) == Some(mode)
                           <==> mode != "" && ParseAssignment(text) in {Some(("approval_policy", mode)),
                                                                        Some(("approval_mode", mode))}
    ensures forall mode :: ExplicitSandbox(Set(Override, text)) == Some(mode)
                           <==> mode != "" && ParseAssignment(text) in {Some(("sandbox", mode)),
                                                                        Some(("sandbox_mode", mode))}
  {
  }

  // ---- arguments without effect -------------------------------------------------------------------------

  lemma {:induction false} GivenWithout(a: seq<Token>, b: seq<Token>, gives: Token -> Option<string>,
                                        default: Option<string>)
    requires gives(Ignored).None?
    ensures LastGiven(a + [Ignored] + b, gives, default) == LastGiven(a + b, gives, default)
  {
    if b == [] {
      assert a + b == a && a + [Ignored] + b == a + [Ignored];
      LastGivenSnoc(a, Ignored, gives, default);
    } else {
      var init, t := b[..|b| - 1], b[|b| - 1];
      assert a + [Ignored] + b == (a + [Ignored] + init) + [t] && a + b == (a + init) + [t];
      LastGivenSnoc(a + [Ignored] + init, t, gives, default);
      LastGivenSnoc(a + init, t, gives, default);
      GivenWithout(a, init, gives, default);
    }
  }

  lemma {:induction false} ValuesWithout(a: seq<Token>, b: seq<Token>, kind: Kind)
    ensures Values(a + [Ignored] + b, kind) == Values(a + b, kind)
  {
    if b == [] {
      assert a + b == a && a + [Ignored] + b == a + [Ignored];
      ValuesSnoc(a, Ignored, kind);
    } else {
      var init, t := b[..|b| - 1], b[|b| - 1];
      assert a + [Ignored] + b == (a + [Ignored] + init) + [t] && a + b == (a + init) + [t];
      ValuesSnoc(a + [Ignored] + init, t, kind);
      ValuesSnoc(a + init, t, kind);
      ValuesWithout(a, init, kind);
    }
  }

  lemma EffectiveWithout(c: Config, a: seq<Token>, b: seq<Token>)
    ensures Effective(c, a + [Ignored] + b) == Effective(c, a + b)
  {
    hide LastGiven, Values;
    GivenWithout(a, b, ExplicitApproval, ConfiguredApproval(c));
    GivenWithout(a, b, ExplicitSandbox, ConfiguredSandbox(c));
    GivenWithout(a, b, ValueOf(Profile), None);
    ValuesWithout(a, b, Dir);
    ValuesWithout(a, b, Override);
  }

  /** None of the flags, alone or with `=`. */
  predicate IsForeign(arg: string) {
    && arg !in {"--", "--full-auto", "--dangerously-bypass-approvals-and-sandbox"} && KindOf(arg).None?
    && forall eq :: 0 <= eq < |arg| && arg[eq] == '=' ==> arg[..eq] == "-c" || KindOf(arg[..eq]).None?
  }

  /** Any other argument has no effect, wherever it stands. */
  lemma ForeignIsIgnored(c: Config, pre: seq<string>, arg: string, post: seq<string>)
    requires Complete(pre) && IsForeign(arg)
    ensures Effective(c, Tokens(pre + ([arg] + post))) == Effective(c, Tokens(pre + post))
  {
    hide Tokens, KindOf, Complete, Effective;
    TokensAppend(pre, [arg] + post);
    TokensAppend(pre, post);
    TokensStep([arg] + post);
    assert ([arg] + post)[1..] == post;
    assert Joined(arg) == None && Plain(arg) == Ignored;
    assert Tokens(pre) + ([Ignored] + Tokens(post)) == Tokens(pre) + [Ignored] + Tokens(post);
    EffectiveWithout(c, Tokens(pre), Tokens(post));
  }

  /** Nor has a flag at the very end, where its value is missing. */
  lemma FlagWithoutValue(c: Config, pre: seq<string>, flag: string)
    requires Complete(pre) && KindOf(flag).Some?
    ensures Effective(c, Tokens(pre + [flag])) == Effective(c, Tokens(pre))
  {
    hide Tokens, Complete, Effective, KindOf;
    TokensAppend(pre, [flag]);
    LoneFlag(flag);
    assert Tokens(pre) + [Ignored] == Tokens(pre) + [Ignored] + [] && Tokens(pre) + [] == Tokens(pre);
    EffectiveWithout(c, Tokens(pre), []);
  }

  lemma LoneFlag(flag: string)
    requires KindOf(flag).Some?
    ensures Tokens([flag]) == [Ignored]
  {
    hide KindOf, Tokens;
    FlagsHaveNoEquals(flag);
    FlagIsNotPlain(flag);
    TokensStep([flag]);
    assert [flag][1..] == [];
    TokensOfNothing();
  }

  lemma FlagIsNotPlain(flag: string)
    requires KindOf(flag).Some?
    ensures flag != "--" && Plain(flag) == Ignored
  {
    FlagStarts(flag);
    PlainStarts();
  }
}
