/**
 * Gatekeeper (dog/ext/gatekeeper.py): screens every member that joins a guild with an
 * ordered chain of checks configured through a per-guild settings map. A check whose key is
 * not set is skipped; a check either passes, blocks the member (which ends the chain and
 * bounces them) or reports a message to the broadcast channel and lets the chain go on.
 */
module Gatekeeper {
  import opened Wrappers
  import opened Formatting

  const CrossMark: string := "\U{274C}"
  const OkHand: string := "\U{1F44C}"

  /** The settings keys `set` accepts, in the order they are listed to the user. */
  const CustomizationKeys: seq<string> :=
    ["block_default_avatar", "minimum_creation_time", "bounce_message", "block_all", "username_regex"]

  // ---------------------------------------------------------------------------
  // The checks
  // ---------------------------------------------------------------------------

  datatype Check = BlockDefaultAvatar | MinimumCreationTime | BlockAll | UsernameRegex

  /** The settings key that enables a check and holds its argument. */
  function Key(c: Check): string
  {
    match c
    case BlockDefaultAvatar => "block_default_avatar"
    case MinimumCreationTime => "minimum_creation_time"
    case BlockAll => "block_all"
    case UsernameRegex => "username_regex"
  }

  /** Every check is enabled by a key `set` accepts, and none by `bounce_message`. */
  lemma KeysAccepted(c: Check)
    ensures Key(c) in CustomizationKeys && Key(c) != "bounce_message"
  {
  }

  /** The chain, in the order `on_member_join` runs it. */
  const Checks: seq<Check> := [BlockDefaultAvatar, MinimumCreationTime, BlockAll, UsernameRegex]

  /** What a check does: nothing, raise `Block(reason)`, or raise `Report(message)`. */
  datatype Outcome = Pass | Block(reason: string) | Report(message: string)

  /** The joining member as the checks see it. */
  datatype JoiningMember = JoiningMember(thing: Thing, hasDefaultAvatar: bool)

  /**
   * The regular-expression engine: `compileError(p)` is the error `re.compile(p)` raises
   * (`None` when `p` compiles), `search(p, name)` whether the compiled `p` finds a match.
   */
  datatype Regex = Regex(compileError: string -> Option<string>, search: (string, string) -> bool)

  /** Everything a join is screened against; `now` is in seconds since the epoch. */
  datatype Context = Context(settings: map<string, string>, member: JoiningMember, now: int, regex: Regex)

  // ---------------------------------------------------------------------------
  // int(): the parse behind minimum_creation_time
  // ---------------------------------------------------------------------------

  predicate IsSpace(c: char)
  {
    || c == ' ' || c == '\t' || c == '\n' || c == '\r' || c == '\U{B}' || c == '\U{C}'
    || c == '\U{1C}' || c == '\U{1D}' || c == '\U{1E}' || c == '\U{1F}'
  }

  function TrimStart(s: string): (r: string)
    ensures |r| <= |s| && r == s[|s| - |r|..]
    ensures r != [] ==> !IsSpace(r[0])
    ensures forall i :: 0 <= i < |s| - |r| ==> IsSpace(s[i])
  {
    if s != [] && IsSpace(s[0]) then
      var t := TrimStart(s[1..]);
      assert forall i :: 1 <= i < |s| - |t| ==> s[i] == s[1..][i - 1];
      t
    else s
  }

  function TrimEnd(s: string): (r: string)
    ensures |r| <= |s| && r == s[..|r|]
    ensures r != [] ==> !IsSpace(r[|r| - 1])
    ensures forall i :: |r| <= i < |s| ==> IsSpace(s[i])
  {
    if s != [] && IsSpace(s[|s| - 1]) then
      var t := TrimEnd(s[..|s| - 1]);
      assert forall i :: |t| <= i < |s| - 1 ==> s[i] == s[..|s| - 1][i];
      t
    else s
  }

  /** Surrounding white space is ignored. */
  function Strip(s: string): string
  {
    TrimEnd(TrimStart(s))
  }

  /** A stripped literal: an optional sign, then one or more decimal digits. */
  function ParseSigned(t: string): (r: Option<int>)
    ensures r.Some? ==> t != [] && var digits := if t[0] == '-' || t[0] == '+' then t[1..] else t;
      digits != [] && AllDigits(digits)
  {
    if t == [] then None
    else
      var digits := if t[0] == '-' || t[0] == '+' then t[1..] else t;
      if digits == [] || !AllDigits(digits) then None
      else if t[0] == '-' then Some(-(DecimalValue(digits) as int))
      else Some(DecimalValue(digits))
  }

  /** `int(s)` on a string, surrounding white space ignored; `None` is the `ValueError`. */
  function ParseInt(s: string): Option<int>
  {
    ParseSigned(Strip(s))
  }

  /** Reading back `str(n)` gives `n`. */
  lemma ParseSignedRoundTrip(n: int)
    ensures ParseSigned(IntToString(n)) == Some(n)
  {
    var m: nat := if n < 0 then -n else n;
    var digits := NatToString(m);
    DecimalRoundTrip(m);
    assert IsDigit(digits[0]);
    if n < 0 {
      var s := "-" + digits;
      assert s[0] == '-' && s[1..] == digits;
      assert ParseSigned(s) == Some(-(DecimalValue(digits) as int));
    } else {
      assert ParseSigned(digits) == Some(DecimalValue(digits));
    }
  }

  /** `int(str(n)) == n`, also with white space around the number. */
  lemma ParseIntRoundTrip(n: int, before: string, after: string)
    requires forall i :: 0 <= i < |before| ==> IsSpace(before[i])
    requires forall i :: 0 <= i < |after| ==> IsSpace(after[i])
    ensures ParseInt(IntToString(n)) == Some(n)
    ensures ParseInt(before + IntToString(n) + after) == Some(n)
  {
    var s := IntToString(n);
    assert !IsSpace(s[0]);
    assert !IsSpace(s[|s| - 1]);
    TrimAround(before, s, after);
    TrimAround([], s, []);
    assert [] + s + [] == s;
    ParseSignedRoundTrip(n);
  }

  /** Stripping removes any leading and any trailing white space, and nothing else. */
  lemma {:induction false} TrimAround(before: string, s: string, after: string)
    requires forall i :: 0 <= i < |before| ==> IsSpace(before[i])
    requires forall i :: 0 <= i < |after| ==> IsSpace(after[i])
    requires s != [] && !IsSpace(s[0]) && !IsSpace(s[|s| - 1])
    ensures Strip(before + s + after) == s
  {
    TrimStartPad(before, s + after);
    assert before + s + after == before + (s + after);
    TrimEndPad(s, after);
  }

  lemma {:induction false} TrimStartPad(pad: string, s: string)
    requires forall i :: 0 <= i < |pad| ==> IsSpace(pad[i])
    requires s != [] && !IsSpace(s[0])
    ensures TrimStart(pad + s) == s
  {
    if pad == [] {
      assert pad + s == s;
    } else {
      assert (pad + s)[0] == pad[0];
      assert (pad + s)[1..] == pad[1..] + s;
      TrimStartPad(pad[1..], s);
    }
  }

  lemma {:induction false} TrimEndPad(s: string, pad: string)
    requires forall i :: 0 <= i < |pad| ==> IsSpace(pad[i])
    requires s != [] && !IsSpace(s[|s| - 1])
    ensures TrimEnd(s + pad) == s
  {
    if pad == [] {
      assert s + pad == s;
    } else {
      var p := pad[..|pad| - 1];
      assert (s + pad)[|s + pad| - 1] == pad[|pad| - 1];
      assert (s + pad)[..|s + pad| - 1] == s + p;
      TrimEndPad(s, p);
    }
  }

  /** The default value `set` stores, and any other word, is not a number. */
  lemma ParseIntRejectsWords(word: string)
    requires word != [] && !IsDigit(word[0]) && word[0] != '-' && word[0] != '+' && !IsSpace(word[0])
    requires !IsSpace(word[|word| - 1])
    ensures ParseInt(word) == None
  {
    TrimAround([], word, []);
    assert [] + word + [] == word;
    assert Strip(word) == word;
  }

  // ---------------------------------------------------------------------------
  // Running one check
  // ---------------------------------------------------------------------------

  /** Seconds the account has existed, when the member joins. */
  function AccountAge(ctx: Context): int
  {
    ctx.now - ctx.member.thing.createdAt
  }

  const DefaultAvatarReason: string := "Has default avatar"
  const InvalidMinimumMessage: string := "Invalid minimum creation time, must be a valid number."
  const BlockAllReason: string := "Blocking all users"
  const RegexMatchReason: string := "Matched username regex"
  const RegexInvalidPrefix: string := CrossMark + " `username_regex` was invalid: `"

  /** `BlockDefaultAvatarCheck`: blocks exactly the members whose avatar is the default one; never reports. */
  function DefaultAvatarCheck(member: JoiningMember): (o: Outcome)
    ensures o.Block? <==> member.hasDefaultAvatar
    ensures !o.Report?
  {
    if member.hasDefaultAvatar then Block(DefaultAvatarReason) else Pass
  }

  /**
   * `MinimumCreationTimeCheck`: blocks exactly the accounts younger (strictly) than the
   * parsed minimum, with both numbers and the account's age in the reason; a value that is
   * not a number is reported and never blocks.
   */
  function MinimumCreationTimeCheck(value: string, ctx: Context): (o: Outcome)
    ensures o.Block? <==> ParseInt(value).Some? && AccountAge(ctx) < ParseInt(value).value
    ensures o.Report? <==> ParseInt(value).None?
    ensures o.Report? ==> o.message == InvalidMinimumMessage
  {
    var minimum := ParseInt(value);
    if minimum.None? then Report(InvalidMinimumMessage)
    else if AccountAge(ctx) < minimum.value then
      Block("Failed minimum creation time check (" + IntToString(AccountAge(ctx)) + " < "
        + IntToString(minimum.value) + ", created " + ctx.member.thing.createdAgo + ")")
    else Pass
  }

  /** `BlockAllCheck`: blocks every member. */
  function BlockAllCheck(): (o: Outcome)
    ensures o.Block?
  {
    Block(BlockAllReason)
  }

  /**
   * `UsernameRegexCheck`: an invalid pattern is reported with the compiler's error and never
   * blocks; a valid one blocks exactly the names it finds a match in.
   */
  function UsernameRegexCheck(value: string, ctx: Context): (o: Outcome)
    ensures o.Block? <==> ctx.regex.compileError(value).None? && ctx.regex.search(value, ctx.member.thing.name)
    ensures o.Report? <==> ctx.regex.compileError(value).Some?
    ensures o.Report? ==> OccursAt(ctx.regex.compileError(value).value, o.message, |RegexInvalidPrefix|)
  {
    var err := ctx.regex.compileError(value);
    if err.Some? then
      var message := RegexInvalidPrefix + err.value + "`, ignoring this check.";
      assert message[|RegexInvalidPrefix|..|RegexInvalidPrefix| + |err.value|] == err.value;
      Report(message)
    else if ctx.regex.search(value, ctx.member.thing.name) then Block(RegexMatchReason)
    else Pass
  }

  /** The `check` method of each check class, given the value stored under its key. */
  function RunCheck(c: Check, value: string, ctx: Context): Outcome
  {
    match c
    case BlockDefaultAvatar => DefaultAvatarCheck(ctx.member)
    case MinimumCreationTime => MinimumCreationTimeCheck(value, ctx)
    case BlockAll => BlockAllCheck()
    case UsernameRegex => UsernameRegexCheck(value, ctx)
  }

  /** One turn of the loop: a check whose key is not set is skipped. */
  function Step(c: Check, ctx: Context): Outcome
  {
    if Key(c) !in ctx.settings then Pass else RunCheck(c, ctx.settings[Key(c)], ctx)
  }

  // ---------------------------------------------------------------------------
  // The chain
  // ---------------------------------------------------------------------------

  /** What a run of the chain produced: the reports sent, and the block reason if any. */
  datatype Verdict = Verdict(reports: seq<string>, blocked: Option<string>)

  /**
   * The chain over `cs`, one check at a time from the front, as the loop runs it: once a
   * check blocks nothing further is looked at.
   */
  function Evaluate(cs: seq<Check>, ctx: Context): Verdict
  {
    if cs == [] then Verdict([], None)
    else Extend(Evaluate(cs[..|cs| - 1], ctx), Step(cs[|cs| - 1], ctx))
  }

  /** One more turn of the loop after `prior`: nothing happens once a check has blocked. */
  function Extend(prior: Verdict, outcome: Outcome): Verdict
  {
    if prior.blocked.Some? then prior
    else match outcome
      case Pass => prior
      case Report(m) => Verdict(prior.reports + [m], None)
      case Block(reason) => Verdict(prior.reports, Some(reason))
  }

  lemma EvaluatePrefix(cs: seq<Check>, k: nat, ctx: Context)
    requires k < |cs|
    ensures Evaluate(cs[..k + 1], ctx) == Extend(Evaluate(cs[..k], ctx), Step(cs[k], ctx))
  {
    assert cs[..k + 1][..k] == cs[..k];
  }

  /** The same chain read as the exceptions do: a block ends it, a report is prepended to the rest. */
  function EvaluateFrom(cs: seq<Check>, ctx: Context): Verdict
  {
    if cs == [] then Verdict([], None)
    else match Step(cs[0], ctx)
      case Block(reason) => Verdict([], Some(reason))
      case Report(m) => var rest := EvaluateFrom(cs[1..], ctx); Verdict([m] + rest.reports, rest.blocked)
      case Pass => EvaluateFrom(cs[1..], ctx)
  }

  /** Adding one check at the end of the front-first reading. */
  lemma {:induction false} EvaluateFromSnoc(cs: seq<Check>, c: Check, ctx: Context)
    ensures EvaluateFrom(cs + [c], ctx) == Extend(EvaluateFrom(cs, ctx), Step(c, ctx))
  {
    if cs == [] {
      assert cs + [c] == [c];
      assert [c][1..] == [];
    } else {
      assert (cs + [c])[0] == cs[0];
      assert (cs + [c])[1..] == cs[1..] + [c];
      EvaluateFromSnoc(cs[1..], c, ctx);
    }
  }

  /** The loop's reading and the exceptions' reading of the chain agree. */
  lemma {:induction false} EvaluateAgrees(cs: seq<Check>, ctx: Context)
    ensures Evaluate(cs, ctx) == EvaluateFrom(cs, ctx)
  {
    if cs != [] {
      var init := cs[..|cs| - 1];
      assert init + [cs[|cs| - 1]] == cs;
      EvaluateAgrees(init, ctx);
      EvaluateFromSnoc(init, cs[|cs| - 1], ctx);
    }
  }

  /** Check `k` is the first whose step blocks. */
  predicate FirstBlock(cs: seq<Check>, ctx: Context, k: int)
  {
    && 0 <= k < |cs|
    && Step(cs[k], ctx).Block?
    && forall j :: 0 <= j < k ==> !Step(cs[j], ctx).Block?
  }

  /**
   * The chain blocks exactly when some check blocks, and then with the reason of the first
   * check that does and only the reports of the checks before it.
   */
  lemma {:induction false} BlockedByFirstBlock(cs: seq<Check>, ctx: Context)
    ensures EvaluateFrom(cs, ctx).blocked.None? <==> forall j :: 0 <= j < |cs| ==> !Step(cs[j], ctx).Block?
    ensures forall k :: FirstBlock(cs, ctx, k) ==>
      EvaluateFrom(cs, ctx).blocked == Some(Step(cs[k], ctx).reason)
    ensures forall k :: FirstBlock(cs, ctx, k) ==>
      EvaluateFrom(cs, ctx).reports == EvaluateFrom(cs[..k], ctx).reports
  {
    if cs != [] {
      BlockedByFirstBlock(cs[1..], ctx);
      forall j | 1 <= j < |cs| ensures cs[j] == cs[1..][j - 1] { }
      forall k | FirstBlock(cs, ctx, k)
        ensures EvaluateFrom(cs, ctx).blocked == Some(Step(cs[k], ctx).reason)
        ensures EvaluateFrom(cs, ctx).reports == EvaluateFrom(cs[..k], ctx).reports
      {
        if k > 0 {
          assert FirstBlock(cs[1..], ctx, k - 1);
          FirstBlockReports(cs, ctx, k);
        }
      }
    }
  }

  /** The step that unfolds the reports clause above by one check. */
  lemma FirstBlockReports(cs: seq<Check>, ctx: Context, k: nat)
    requires 0 < k < |cs| && !Step(cs[0], ctx).Block?
    requires EvaluateFrom(cs[1..], ctx).reports == EvaluateFrom(cs[1..][..k - 1], ctx).reports
    ensures EvaluateFrom(cs, ctx).reports == EvaluateFrom(cs[..k], ctx).reports
  {
    assert cs[..k][0] == cs[0];
    assert cs[..k][1..] == cs[1..][..k - 1];
  }

  /** Once a prefix of the chain has blocked, the checks after it do not change the result. */
  lemma {:induction false} BlockShortCircuits(cs: seq<Check>, k: nat, ctx: Context)
    requires k <= |cs| && Evaluate(cs[..k], ctx).blocked.Some?
    ensures Evaluate(cs, ctx) == Evaluate(cs[..k], ctx)
  {
    if k < |cs| {
      assert cs[..|cs| - 1][..k] == cs[..k];
      BlockShortCircuits(cs[..|cs| - 1], k, ctx);
    } else {
      assert cs[..k] == cs;
    }
  }

  /** A report is kept and the chain goes on with the next check. */
  lemma ReportContinues(cs: seq<Check>, c: Check, ctx: Context)
    requires Evaluate(cs, ctx).blocked.None? && Step(c, ctx).Report?
    ensures Evaluate(cs + [c], ctx) == Verdict(Evaluate(cs, ctx).reports + [Step(c, ctx).message], None)
  {
    assert (cs + [c])[..|cs + [c]| - 1] == cs;
  }

  /** A check whose key is not set contributes nothing. */
  lemma UnsetCheckSkipped(cs: seq<Check>, c: Check, ctx: Context)
    requires Key(c) !in ctx.settings
    ensures Evaluate(cs + [c], ctx) == Evaluate(cs, ctx)
  {
    assert (cs + [c])[..|cs + [c]| - 1] == cs;
  }

  /** With none of the checks' keys set, the chain reports nothing and blocks nobody. */
  lemma {:induction false} NothingSetPasses(cs: seq<Check>, ctx: Context)
    requires forall c :: c in cs ==> Key(c) !in ctx.settings
    ensures Evaluate(cs, ctx) == Verdict([], None)
  {
    if cs != [] {
      assert cs[|cs| - 1] in cs;
      assert forall c :: c in cs[..|cs| - 1] ==> c in cs;
      NothingSetPasses(cs[..|cs| - 1], ctx);
    }
  }

  /** Setting `block_all` bounces every joining member, whatever else is set. */
  lemma BlockAllBlocksEveryJoin(ctx: Context)
    requires "block_all" in ctx.settings
    ensures Evaluate(Checks, ctx).blocked.Some?
  {
    EvaluateAgrees(Checks, ctx);
    BlockedByFirstBlock(Checks, ctx);
    assert Step(Checks[2], ctx).Block?;
  }

  /** The order matters: a default avatar is the reason even when `block_all` is set too. */
  lemma DefaultAvatarComesFirst(ctx: Context)
    requires "block_default_avatar" in ctx.settings && "block_all" in ctx.settings
    requires ctx.member.hasDefaultAvatar
    ensures Evaluate(Checks, ctx).blocked == Some(DefaultAvatarReason)
  {
    EvaluateAgrees(Checks, ctx);
  }

  /** A chain that passes, reports and then blocks ends with that one report and that block. */
  lemma PassReportBlock(cs: seq<Check>, ctx: Context, m: string, reason: string)
    requires 3 <= |cs| && Step(cs[0], ctx) == Pass && Step(cs[1], ctx) == Report(m)
    requires Step(cs[2], ctx) == Block(reason)
    ensures Evaluate(cs, ctx) == Verdict([m], Some(reason))
  {
    assert cs[..0] == [];
    EvaluatePrefix(cs, 0, ctx);
    EvaluatePrefix(cs, 1, ctx);
    EvaluatePrefix(cs, 2, ctx);
    assert Evaluate(cs[..3], ctx) == Verdict([m], Some(reason));
    BlockShortCircuits(cs, 3, ctx);
  }

  /** An unparsable minimum is reported before `block_all` bounces the member. */
  lemma ReportThenBlockSteps(ctx: Context)
    requires !("block_default_avatar" in ctx.settings && ctx.member.hasDefaultAvatar)
    requires "minimum_creation_time" in ctx.settings && ParseInt(ctx.settings["minimum_creation_time"]).None?
    requires "block_all" in ctx.settings
    ensures Step(BlockDefaultAvatar, ctx) == Pass
    ensures Step(MinimumCreationTime, ctx) == Report(InvalidMinimumMessage)
    ensures Step(BlockAll, ctx) == Block(BlockAllReason)
  {
    assert Step(BlockDefaultAvatar, ctx) == Pass by {
      if Key(BlockDefaultAvatar) in ctx.settings {
        assert !ctx.member.hasDefaultAvatar;
      }
    }
    var minimum := ctx.settings["minimum_creation_time"];
    assert Step(MinimumCreationTime, ctx) == MinimumCreationTimeCheck(minimum, ctx);
    assert MinimumCreationTimeCheck(minimum, ctx) == Report(InvalidMinimumMessage);
    assert Step(BlockAll, ctx) == BlockAllCheck();
  }

  lemma ReportThenBlock(ctx: Context)
    requires !("block_default_avatar" in ctx.settings && ctx.member.hasDefaultAvatar)
    requires "minimum_creation_time" in ctx.settings && ParseInt(ctx.settings["minimum_creation_time"]).None?
    requires "block_all" in ctx.settings
    ensures Evaluate(Checks, ctx) ==
      Verdict([InvalidMinimumMessage], Some(BlockAllReason))
  {
    ReportThenBlockSteps(ctx);
    assert Checks[0] == BlockDefaultAvatar && Checks[1] == MinimumCreationTime && Checks[2] == BlockAll;
    PassReportBlock(Checks, ctx, InvalidMinimumMessage, BlockAllReason);
  }

  // ---------------------------------------------------------------------------
  // on_member_join
  // ---------------------------------------------------------------------------

  /** What is sent to the broadcast channel. */
  datatype Broadcast =
    | Text(text: string)
    | BouncedEmbed(title: string, accountCreation: string, reason: string)
    | JoinedEmbed(title: string)

  /**
   * Everything a join causes: the broadcasts in order, the bounce message sent to the member
   * before the kick, and the audit-log reason of the kick when it went through.
   */
  datatype JoinEffect = JoinEffect(broadcasts: seq<Broadcast>, directMessage: Option<string>, kickedWith: Option<string>)

  function KickReason(reason: string): string
  {
    "Gatekeeper check(s) failed (" + reason + ")"
  }

  /** `block(reason)`: the bounce message if one is set, the kick, and what is broadcast about it. */
  function Bounce(ctx: Context, reason: string, kickAllowed: bool): JoinEffect
  {
    var dm := if "bounce_message" in ctx.settings then Some(ctx.settings["bounce_message"]) else None;
    var who := DescribePlain(ctx.member.thing);
    if kickAllowed then
      JoinEffect([BouncedEmbed("Bounced " + who, ctx.member.thing.createdAgo, reason)], dm, Some(KickReason(reason)))
    else
      JoinEffect([Text(CrossMark + " Couldn't kick " + who + ", no permissions.")], dm, None)
  }

  function ReportBroadcasts(reports: seq<string>): (r: seq<Broadcast>)
    ensures |r| == |reports| && forall i :: 0 <= i < |r| ==> r[i] == Text(reports[i])
  {
    seq(|reports|, i requires 0 <= i < |reports| => Text(reports[i]))
  }

  /** The effect of one join: nothing while the gatekeeper is off, else the chain's verdict acted on. */
  function JoinEffects(enabled: bool, ctx: Context, kickAllowed: bool): JoinEffect
  {
    if !enabled then JoinEffect([], None, None)
    else
      var verdict := Evaluate(Checks, ctx);
      var reported := ReportBroadcasts(verdict.reports);
      match verdict.blocked
      case None => JoinEffect(reported + [JoinedEmbed(DescribePlain(ctx.member.thing) + " joined")], None, None)
      case Some(reason) =>
        var bounce := Bounce(ctx, reason, kickAllowed);
        JoinEffect(reported + bounce.broadcasts, bounce.directMessage, bounce.kickedWith)
  }

  /**
   * Every enabled join ends in exactly one of: the "joined" broadcast (nobody blocked) or a
   * bounce (the first block's reason, kicked when permitted); a disabled guild does nothing.
   */
  lemma BlockedOrPassed(enabled: bool, ctx: Context, kickAllowed: bool)
    ensures !enabled ==> JoinEffects(enabled, ctx, kickAllowed) == JoinEffect([], None, None)
    ensures enabled ==> var e := JoinEffects(enabled, ctx, kickAllowed);
      && |e.broadcasts| == |Evaluate(Checks, ctx).reports| + 1
      && (e.broadcasts[|e.broadcasts| - 1].JoinedEmbed? <==> Evaluate(Checks, ctx).blocked.None?)
      && (e.broadcasts[|e.broadcasts| - 1].BouncedEmbed? <==> Evaluate(Checks, ctx).blocked.Some? && kickAllowed)
      && (e.kickedWith.Some? <==> Evaluate(Checks, ctx).blocked.Some? && kickAllowed)
      && (e.kickedWith.Some? ==> e.kickedWith.value == KickReason(Evaluate(Checks, ctx).blocked.value))
      && (forall i :: 0 <= i < |e.broadcasts| - 1 ==> e.broadcasts[i] == Text(Evaluate(Checks, ctx).reports[i]))
  {
  }

  /**
   * The loop of `on_member_join` over the checks `cs`: runs them in order, skipping unset
   * keys, collecting reports, and stopping at the first block.
   */
  method RunChecks(cs: seq<Check>, ctx: Context) returns (v: Verdict)
    ensures v == Evaluate(cs, ctx)
  {
    var reports: seq<string> := [];
    var i := 0;
    while i < |cs|
      invariant 0 <= i <= |cs|
      invariant Evaluate(cs[..i], ctx) == Verdict(reports, None)
    {
      var check := cs[i];
      EvaluatePrefix(cs, i, ctx);
      if Key(check) in ctx.settings {
        var outcome := RunCheck(check, ctx.settings[Key(check)], ctx);
        if outcome.Block? {
          BlockShortCircuits(cs, i + 1, ctx);
          return Verdict(reports, Some(outcome.reason));
        } else if outcome.Report? {
          reports := reports + [outcome.message];
        }
      }
      i := i + 1;
    }
    assert cs[..i] == cs;
    v := Verdict(reports, None);
  }

  /**
   * `on_member_join`: nothing while the gatekeeper is off; otherwise the chain's reports are
   * forwarded, then the member is bounced with the first block's reason or announced as
   * having passed every check.
   */
  method OnMemberJoin(enabled: bool, ctx: Context, kickAllowed: bool) returns (e: JoinEffect)
    ensures e == JoinEffects(enabled, ctx, kickAllowed)
  {
    if !enabled {
      return JoinEffect([], None, None);
    }
    var verdict := RunChecks(Checks, ctx);
    var reported := ReportBroadcasts(verdict.reports);
    if verdict.blocked.Some? {
      var bounce := Bounce(ctx, verdict.blocked.value, kickAllowed);
      e := JoinEffect(reported + bounce.broadcasts, bounce.directMessage, bounce.kickedWith);
    } else {
      e := JoinEffect(reported + [JoinedEmbed(DescribePlain(ctx.member.thing) + " joined")], None, None);
    }
  }

  // ---------------------------------------------------------------------------
  // The settings commands
  // ---------------------------------------------------------------------------

  /** Keys, each in backticks. */
  function Quoted(keys: seq<string>): seq<string>
  {
    seq(|keys|, i requires 0 <= i < |keys| => "`" + keys[i] + "`")
  }

  const InvalidKeyPrefix: string := "Invalid key. Valid keys: "

  /** The reply to `set` with a key that is not accepted. */
  function InvalidKeyReply(): string
  {
    InvalidKeyPrefix + Join(", ", Quoted(CustomizationKeys))
  }

  lemma ListsEveryKey(keys: seq<string>, i: nat)
    requires i < |keys|
    ensures exists k :: OccursAt("`" + keys[i] + "`", InvalidKeyPrefix + Join(", ", Quoted(keys)), k)
  {
    var keyList := Join(", ", Quoted(keys));
    var quoted := Quoted(keys)[i];
    assert quoted == "`" + keys[i] + "`";
    JoinContains(", ", Quoted(keys), i);
    var k :| OccursAt(quoted, keyList, k);
    assert (InvalidKeyPrefix + keyList)[|InvalidKeyPrefix| + k..|InvalidKeyPrefix| + k + |quoted|] == keyList[k..k + |quoted|];
    assert OccursAt("`" + keys[i] + "`", InvalidKeyPrefix + keyList, |InvalidKeyPrefix| + k);
  }

  /** The reply to an invalid key names every accepted key, in backticks. */
  lemma InvalidKeyListsEveryKey(i: nat)
    requires i < |CustomizationKeys|
    ensures exists k :: OccursAt("`" + CustomizationKeys[i] + "`", InvalidKeyReply(), k)
  {
    ListsEveryKey(CustomizationKeys, i);
    assert InvalidKeyReply() == InvalidKeyPrefix + Join(", ", Quoted(CustomizationKeys));
  }

  /** One guild's stored Gatekeeper settings. */
  class GuildSettings {
    var settings: map<string, string>

    /** Every stored key is one `set` accepts. */
    predicate Valid()
      reads this
    {
      forall k :: k in settings ==> k in CustomizationKeys
    }

    constructor ()
      ensures settings == map[] && Valid()
    {
      settings := map[];
    }

    /**
     * `gatekeeper set key [value]`: an accepted key is stored (the value defaults to
     * "true"); any other key leaves the settings untouched and only gets the list of keys.
     */
    method Set(key: string, value: Option<string>) returns (reply: string)
      modifies this
      ensures key in CustomizationKeys ==>
        var v := if value.Some? then value.value else "true";
        settings == old(settings)[key := v] && reply == OkHand + " Set `" + key + "` to `" + v + "`."
      ensures key !in CustomizationKeys ==> settings == old(settings) && reply == InvalidKeyReply()
      ensures old(Valid()) ==> Valid()
    {
      if key !in CustomizationKeys {
        return InvalidKeyReply();
      }
      var v := if value.Some? then value.value else "true";
      settings := settings[key := v];
      reply := OkHand + " Set `" + key + "` to `" + v + "`.";
    }

    /** `gatekeeper unset key`: removes that key, whatever it is, and nothing else. */
    method Unset(key: string) returns (reply: string)
      modifies this
      ensures settings == old(settings) - {key}
      ensures key !in settings && forall k :: k in old(settings) && k != key ==> k in settings && settings[k] == old(settings)[k]
      ensures old(Valid()) ==> Valid()
      ensures reply == OkHand + " Deleted `" + key + "`."
    {
      settings := settings - {key};
      reply := OkHand + " Deleted `" + key + "`.";
    }
  }

  /** Settings changed only through the commands keep holding accepted keys only. */
  method SettingsScenario(member: JoiningMember, now: int, regex: Regex)
  {
    var stored := new GuildSettings();
    var r1 := stored.Set("block_all", None);
    var r2 := stored.Set("kick_everyone", Some("yes"));
    assert "kick_everyone" !in CustomizationKeys;
    assert stored.settings == map["block_all" := "true"];
    var effect := OnMemberJoin(true, Context(stored.settings, member, now, regex), true);
    BlockAllBlocksEveryJoin(Context(stored.settings, member, now, regex));
    assert effect.kickedWith.Some?;
    var r3 := stored.Unset("block_all");
    assert stored.settings == map[];
    assert stored.Valid();
  }
}
