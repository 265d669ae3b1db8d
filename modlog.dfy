/**
 * The moderator log (dog/ext/modlog.py): which gateway events become log lines, which are
 * suppressed as side effects of other events (bans, bulk deletes, censorship, automatic
 * role assignment), the audit-log attribution that amends a line after it was sent, and
 * the templates of the lines themselves.
 *
 * Every handler runs atomically. The clock is the parameter `now` (integer seconds since
 * the epoch, UTC); the guild configuration, the resolved channel and the audit-log query
 * result are parameters too. A handler returns the line it sends (already prefixed by the
 * `[HH:MM]` marker), or `None` when it sends nothing.
 */
module Modlog {
  import opened Wrappers
  import opened Formatting

  // ---------------------------------------------------------------------------
  // Constants
  // ---------------------------------------------------------------------------

  const FrameWithPicture: string := "\U{1F5BC}"
  const Loudspeaker: string := "\U{1F4E2}"
  const OutboxTray: string := "\U{1F4E4}"
  const InboxTray: string := "\U{1F4E5}"
  const Arrows: string := "\U{1F504}"
  const KeycapAsterisk: string := "*\U{20E3}"
  const Bookmark: string := "\U{1F516}"
  const ClosedBook: string := "\U{1F4D5}"
  const Memo: string := "\U{1F4DD}"
  const NameBadge: string := "\U{1F4DB}"
  const KeySymbol: string := "\U{1F511}"
  const Litter: string := "\U{1F6AE}"
  const SquaredNew: string := "\U{1F195}"
  const Basketball: string := "\U{1F3C0}"
  const Hammer: string := "\U{1F528}"
  const WomansBoots: string := "\U{1F462}"
  const RightArrow: string := "\U{2192}"

  /** Accounts at most a week old are marked as new when they join. */
  const NewAccountSeconds: int := 604800

  /** Members leaving at most 25 minutes after joining are marked as a "bounce". */
  const BounceSeconds: int := 1500

  /** An audit-log entry older than this cannot be the cause of the event being logged. */
  const AuditWindowSeconds: int := 2

  /** Message contents are cut to these lengths before being quoted. */
  const EditQuoteLength: int := 900
  const DeleteQuoteLength: int := 1500

  // ---------------------------------------------------------------------------
  // Visibility: is_publicly_visible
  // ---------------------------------------------------------------------------

  /** A channel permission overwrite: its target's name and its `read_messages` setting. */
  datatype Overwrite = Overwrite(targetName: string, readMessages: Option<bool>)

  /** `0 <= k` is the position of the first `@everyone` overwrite. */
  predicate FirstEveryone(overwrites: seq<Overwrite>, k: int)
  {
    && 0 <= k < |overwrites|
    && overwrites[k].targetName == "@everyone"
    && forall j :: 0 <= j < k ==> overwrites[j].targetName != "@everyone"
  }

  /** `discord.utils.find` of the `@everyone` overwrite, as a position. */
  function FindEveryone(overwrites: seq<Overwrite>): (r: Option<nat>)
    ensures r.Some? ==> FirstEveryone(overwrites, r.value)
    ensures r.None? ==> forall j :: 0 <= j < |overwrites| ==> overwrites[j].targetName != "@everyone"
  {
    if overwrites == [] then None
    else if overwrites[0].targetName == "@everyone" then Some(0)
    else match FindEveryone(overwrites[1..])
      case None => None
      case Some(k) => Some(k + 1)
  }

  /**
   * `is_publicly_visible`: always when the guild logs all message events; otherwise when
   * there is no `@everyone` overwrite or it does not explicitly deny reading.
   */
  function IsPubliclyVisible(logAllMessageEvents: bool, overwrites: seq<Overwrite>): bool
  {
    logAllMessageEvents ||
    match FindEveryone(overwrites)
    case None => true
    case Some(k) => overwrites[k].readMessages != Some(false)
  }

  /**
   * A channel is hidden exactly when the override is off and the first `@everyone`
   * overwrite explicitly denies reading (an unset `read_messages` counts as visible).
   */
  lemma VisibilityRule(logAllMessageEvents: bool, overwrites: seq<Overwrite>)
    ensures logAllMessageEvents ==> IsPubliclyVisible(logAllMessageEvents, overwrites)
    ensures !IsPubliclyVisible(logAllMessageEvents, overwrites) <==>
      !logAllMessageEvents &&
      exists k :: FirstEveryone(overwrites, k) && overwrites[k].readMessages == Some(false)
  {
    if !logAllMessageEvents {
      match FindEveryone(overwrites)
      case None =>
      case Some(k) =>
        forall k' | FirstEveryone(overwrites, k') ensures k' == k {
          FirstEveryoneUnique(overwrites, k, k');
        }
    }
  }

  /** There is at most one first `@everyone` overwrite. */
  lemma FirstEveryoneUnique(overwrites: seq<Overwrite>, k: int, k': int)
    requires FirstEveryone(overwrites, k) && FirstEveryone(overwrites, k')
    ensures k == k'
  {
  }

  // ---------------------------------------------------------------------------
  // diff, describe_differences
  // ---------------------------------------------------------------------------

  /** The ids of a snapshot; Discord objects compare equal exactly when their ids do. */
  function IdSet(xs: seq<Thing>): set<nat>
  {
    set x | x in xs :: x.id
  }

  function IdSeq(xs: seq<Thing>): seq<nat>
  {
    seq(|xs|, i requires 0 <= i < |xs| => xs[i].id)
  }

  /** The elements of `xs` whose id does not occur in `ys`, in the order of `xs`. */
  function Without(xs: seq<Thing>, ys: seq<Thing>): (r: seq<Thing>)
    ensures |r| <= |xs|
    ensures forall x :: x in r <==> x in xs && x.id !in IdSet(ys)
  {
    if xs == [] then []
    else (if xs[0].id in IdSet(ys) then [] else [xs[0]]) + Without(xs[1..], ys)
  }

  /** `Without` keeps order: it distributes over concatenation. */
  lemma {:induction false} WithoutConcat(a: seq<Thing>, b: seq<Thing>, ys: seq<Thing>)
    ensures Without(a + b, ys) == Without(a, ys) + Without(b, ys)
  {
    if a == [] {
      assert a + b == b;
    } else {
      assert (a + b)[0] == a[0];
      assert (a + b)[1..] == a[1..] + b;
      WithoutConcat(a[1..], b, ys);
    }
  }

  /** `Without` removes everything from a snapshot all of whose ids are excluded. */
  lemma {:induction false} WithoutAll(xs: seq<Thing>, ys: seq<Thing>)
    requires forall x :: x in xs ==> x.id in IdSet(ys)
    ensures Without(xs, ys) == []
  {
    if xs != [] {
      assert xs[0] in xs;
      assert forall x :: x in xs[1..] ==> x in xs;
      WithoutAll(xs[1..], ys);
    }
  }

  /** `diff(before, after)`: the additions and the removals. */
  function Diff(before: seq<Thing>, after: seq<Thing>): (r: (seq<Thing>, seq<Thing>))
    ensures forall x :: x in r.0 <==> x in after && x.id !in IdSet(before)
    ensures forall x :: x in r.1 <==> x in before && x.id !in IdSet(after)
  {
    (Without(after, before), Without(before, after))
  }

  /** Snapshots with the same ids differ in nothing; in particular `diff(A, A)` is empty. */
  lemma DiffSameIds(before: seq<Thing>, after: seq<Thing>)
    requires IdSet(before) == IdSet(after)
    ensures Diff(before, after) == ([], [])
  {
    assert forall x :: x in after ==> x.id in IdSet(after);
    assert forall x :: x in before ==> x.id in IdSet(before);
    WithoutAll(after, before);
    WithoutAll(before, after);
  }

  /** Swapping the snapshots swaps additions and removals. */
  lemma DiffSwap(before: seq<Thing>, after: seq<Thing>)
    ensures Diff(after, before) == (Diff(before, after).1, Diff(before, after).0)
  {
  }

  /** The entries of `describe_differences`: a green-ticked one per addition, then a red-ticked one per removal. */
  function DifferenceEntries(greenTick: string, redTick: string, added: seq<Thing>, removed: seq<Thing>): (e: seq<string>)
    ensures |e| == |added| + |removed|
    ensures forall i :: 0 <= i < |added| ==> e[i] == greenTick + " " + DescribePlain(added[i])
    ensures forall j :: 0 <= j < |removed| ==> e[|added| + j] == redTick + " " + DescribePlain(removed[j])
  {
    seq(|added|, i requires 0 <= i < |added| => greenTick + " " + DescribePlain(added[i]))
      + seq(|removed|, i requires 0 <= i < |removed| => redTick + " " + DescribePlain(removed[i]))
  }

  /** `describe_differences`: the entries joined by ", ". */
  function DescribeDifferences(greenTick: string, redTick: string, added: seq<Thing>, removed: seq<Thing>): (r: string)
    ensures r == "" <==> added == [] && removed == []
  {
    var parts := DifferenceEntries(greenTick, redTick, added, removed);
    if parts != [] then
      JoinStartsWithFirst(", ", parts);
      Join(", ", parts)
    else
      Join(", ", parts)
  }

  lemma AddedNamed(greenTick: string, redTick: string, added: seq<Thing>, removed: seq<Thing>, i: nat)
    requires i < |added|
    ensures Mentions(DescribeDifferences(greenTick, redTick, added, removed), greenTick + " " + DescribePlain(added[i]))
  {
    var parts := DifferenceEntries(greenTick, redTick, added, removed);
    assert DescribeDifferences(greenTick, redTick, added, removed) == Join(", ", parts);
    JoinMentions(", ", parts, i);
  }

  lemma RemovedNamed(greenTick: string, redTick: string, added: seq<Thing>, removed: seq<Thing>, j: nat)
    requires j < |removed|
    ensures Mentions(DescribeDifferences(greenTick, redTick, added, removed), redTick + " " + DescribePlain(removed[j]))
  {
    var parts := DifferenceEntries(greenTick, redTick, added, removed);
    assert DescribeDifferences(greenTick, redTick, added, removed) == Join(", ", parts);
    JoinMentions(", ", parts, |added| + j);
  }

  /**
   * The description names every added item after the green tick and every removed item after
   * the red tick; with any addition it opens with the first one.
   */
  lemma DifferencesNameEveryItem(greenTick: string, redTick: string, added: seq<Thing>, removed: seq<Thing>)
    ensures forall i :: 0 <= i < |added| ==>
      Mentions(DescribeDifferences(greenTick, redTick, added, removed), greenTick + " " + DescribePlain(added[i]))
    ensures forall j :: 0 <= j < |removed| ==>
      Mentions(DescribeDifferences(greenTick, redTick, added, removed), redTick + " " + DescribePlain(removed[j]))
    ensures added != [] ==>
      OccursAt(greenTick + " " + DescribePlain(added[0]), DescribeDifferences(greenTick, redTick, added, removed), 0)
  {
    forall i | 0 <= i < |added|
      ensures Mentions(DescribeDifferences(greenTick, redTick, added, removed), greenTick + " " + DescribePlain(added[i]))
    {
      AddedNamed(greenTick, redTick, added, removed, i);
    }
    forall j | 0 <= j < |removed|
      ensures Mentions(DescribeDifferences(greenTick, redTick, added, removed), redTick + " " + DescribePlain(removed[j]))
    {
      RemovedNamed(greenTick, redTick, added, removed, j);
    }
    if added != [] {
      var parts := DifferenceEntries(greenTick, redTick, added, removed);
      assert DescribeDifferences(greenTick, redTick, added, removed) == Join(", ", parts);
      JoinStartsWithFirst(", ", parts);
    }
  }

  // ---------------------------------------------------------------------------
  // Audit-log attribution: get_responsible, format_reason
  // ---------------------------------------------------------------------------

  /** An audit-log entry: whom it targets, who did it, why, and when. */
  datatype AuditEntry = AuditEntry(targetId: nat, user: Thing, reason: Option<string>, createdAt: int)

  /** The check inside `get_responsible`: same target, at most two seconds old. */
  predicate Accepts(entry: AuditEntry, targetId: nat, now: int)
  {
    entry.targetId == targetId && now - entry.createdAt <= AuditWindowSeconds
  }

  /** Entry `k` is the first one the check accepts. */
  predicate FirstAccepted(entries: seq<AuditEntry>, targetId: nat, now: int, k: int)
  {
    && 0 <= k < |entries|
    && Accepts(entries[k], targetId, now)
    && forall j :: 0 <= j < k ==> !Accepts(entries[j], targetId, now)
  }

  /**
   * `get_responsible`: the first entry of the audit-log query result (`limit=1`, newest
   * first; an empty list when reading the log is forbidden) that the check accepts.
   */
  function GetResponsible(entries: seq<AuditEntry>, targetId: nat, now: int): (r: Option<AuditEntry>)
    ensures r.Some? ==> Accepts(r.value, targetId, now) && r.value in entries
    ensures r.Some? ==> exists k :: FirstAccepted(entries, targetId, now, k) && entries[k] == r.value
    ensures r.None? <==> forall j :: 0 <= j < |entries| ==> !Accepts(entries[j], targetId, now)
  {
    if entries == [] then None
    else if Accepts(entries[0], targetId, now) then Some(entries[0])
    else
      var r := GetResponsible(entries[1..], targetId, now);
      assert forall j :: 1 <= j < |entries| ==> entries[j] == entries[1..][j - 1];
      if r.Some? then
        var k :| FirstAccepted(entries[1..], targetId, now, k) && entries[1..][k] == r.value;
        assert FirstAccepted(entries, targetId, now, k + 1);
        r
      else r
  }

  /** With the single entry the query returns, attribution succeeds exactly inside the window. */
  lemma AuditAcceptance(entry: AuditEntry, targetId: nat, now: int)
    ensures GetResponsible([entry], targetId, now) ==
      if entry.targetId == targetId && now - entry.createdAt <= 2 then Some(entry) else None
  {
  }

  /** `format_reason`: the reason in backticks, or a fixed text when there is none. */
  function FormatReason(entry: AuditEntry): (r: string)
    ensures entry.reason.Some? && entry.reason.value != "" ==>
      |r| == |entry.reason.value| + 14 &&
      r[..13] == "with reason `" && r[13..|r| - 1] == entry.reason.value && r[|r| - 1] == '`'
    ensures entry.reason.None? || entry.reason.value == "" ==> r == "with no attached reason"
  {
    if entry.reason.Some? && entry.reason.value != "" then "with reason `" + entry.reason.value + "`"
    else "with no attached reason"
  }

  // ---------------------------------------------------------------------------
  // modlog_msg
  // ---------------------------------------------------------------------------

  function Pad2(n: nat): string
  {
    ZeroPad(NatToString(n), 2)
  }

  lemma Pad2Shape(n: nat)
    requires n < 100
    ensures |Pad2(n)| == 2 && AllDigits(Pad2(n)) && DecimalValue(Pad2(n)) == n
  {
    ShortNatToString(n);
    ZeroPaddedNumber(n, 2);
  }

  /**
   * `modlog_msg`: the UTC hour and minute of `now`, two digits each, in front of the text;
   * the text itself follows unchanged after the ten-character marker.
   */
  function ModlogMsg(now: int, msg: string): (r: string)
    ensures |r| == |msg| + 10 && r[10..] == msg
    ensures r[..2] == "`[" && r[4] == ':' && r[7..10] == "]` "
    ensures AllDigits(r[2..4]) && DecimalValue(r[2..4]) == (now / 3600) % 24
    ensures AllDigits(r[5..7]) && DecimalValue(r[5..7]) == (now / 60) % 60
  {
    var hour, minute := (now / 3600) % 24, (now / 60) % 60;
    Pad2Shape(hour);
    Pad2Shape(minute);
    var r := "`[" + Pad2(hour) + ":" + Pad2(minute) + "]` " + msg;
    assert r[2..4] == Pad2(hour) && r[5..7] == Pad2(minute);
    r
  }

  // ---------------------------------------------------------------------------
  // Members: format_member_departure and the join marker
  // ---------------------------------------------------------------------------

  /** Whether a departure gets the basketball ("bounced") marker: never for a bare user. */
  predicate Bounced(member: Thing, now: int)
  {
    !member.kind.UserKind? && now - member.joinedAt <= BounceSeconds
  }

  /**
   * `format_member_departure`: the emoji, the bounce marker for a member who joined at
   * most 1500 s ago, then the description with the creation time and, unless the departed
   * is a bare user, the join time.
   */
  function FormatMemberDeparture(member: Thing, verb: string, emoji: string, now: int): (r: string)
    ensures Bounced(member, now) ==>
      r == emoji + " " + Basketball + " " + Describe(member, false, verb, true, true, false)
    ensures !Bounced(member, now) ==>
      r == emoji + " " + Describe(member, false, verb, true, !member.kind.UserKind?, false)
  {
    if member.kind.UserKind? then emoji + " " + Describe(member, false, verb, true, false, false)
    else if now - member.joinedAt <= BounceSeconds then emoji + " " + Basketball + " " + Describe(member, false, verb, true, true, false)
    else emoji + " " + Describe(member, false, verb, true, true, false)
  }

  /** What a message mentions, its timestamped form mentions too. */
  lemma ModlogMsgKeeps(now: int, msg: string, x: string)
    requires Mentions(msg, x)
    ensures Mentions(ModlogMsg(now, msg), x)
  {
    var k :| 0 <= k <= |msg| && OccursAt(x, msg, k);
    var r := ModlogMsg(now, msg);
    assert r == r[..10] + msg;
    OccursShift(x, r[..10], msg, k);
  }

  /** A departure's text contains its verb right after the departed one's name and id. */
  lemma DepartureShowsVerb(member: Thing, verb: string, emoji: string, now: int)
    requires verb != ""
    ensures var prefix := if Bounced(member, now) then emoji + " " + Basketball + " " else emoji + " ";
      OccursAt(" " + verb, FormatMemberDeparture(member, verb, emoji, now), |prefix| + |DescribeBase(member, false, false)|)
    ensures Mentions(FormatMemberDeparture(member, verb, emoji, now), " " + verb)
  {
    var joined := !member.kind.UserKind?;
    var described := Describe(member, false, verb, true, joined, false);
    var base := DescribeBase(member, false, false);
    assert OccursAt(" " + verb, described, |base|);
    var prefix := if Bounced(member, now) then emoji + " " + Basketball + " " else emoji + " ";
    assert FormatMemberDeparture(member, verb, emoji, now) == prefix + described;
    OccursShift(" " + verb, prefix, described, |base|);
  }

  /** Describing a user with `joined=True` is the same as without: only members have a join time. */
  lemma UserNeverShowsJoin(user: Thing, verb: string)
    requires user.kind.UserKind?
    ensures Describe(user, false, verb, true, true, false) == Describe(user, false, verb, true, false, false)
  {
  }

  /** Whether a joining account gets the "new" marker. */
  predicate NewAccount(member: Thing, now: int)
  {
    now - member.createdAt <= NewAccountSeconds
  }

  /** The text of a departure amended with the responsible moderator, if the audit log names one. */
  function DepartureAmendment(target: Thing, extra: string, emoji: string, entries: seq<AuditEntry>, now: int): (r: Option<string>)
    ensures r.Some? <==> GetResponsible(entries, target.id, now).Some?
    ensures r.Some? ==> var entry := GetResponsible(entries, target.id, now).value;
      r.value == ModlogMsg(now, FormatMemberDeparture(target,
        extra + " by " + DescribePlain(entry.user) + " " + FormatReason(entry), emoji, now))
  {
    match GetResponsible(entries, target.id, now)
    case None => None
    case Some(entry) =>
      var verb := extra + " by " + DescribePlain(entry.user) + " " + FormatReason(entry);
      Some(ModlogMsg(now, FormatMemberDeparture(target, verb, emoji, now)))
  }

  /** An amended departure names the responsible moderator and the reason, right after the departed. */
  lemma AmendmentNamesModerator(target: Thing, extra: string, emoji: string, entries: seq<AuditEntry>, now: int)
    requires GetResponsible(entries, target.id, now).Some?
    ensures var entry := GetResponsible(entries, target.id, now).value;
      Mentions(DepartureAmendment(target, extra, emoji, entries, now).value,
        " " + (extra + " by " + DescribePlain(entry.user) + " " + FormatReason(entry)))
  {
    var entry := GetResponsible(entries, target.id, now).value;
    var verb := extra + " by " + DescribePlain(entry.user) + " " + FormatReason(entry);
    var departure := FormatMemberDeparture(target, verb, emoji, now);
    assert DepartureAmendment(target, extra, emoji, entries, now).value == ModlogMsg(now, departure);
    DepartureShowsVerb(target, verb, emoji, now);
    ModlogMsgKeeps(now, departure, " " + verb);
  }

  // ---------------------------------------------------------------------------
  // Event data
  // ---------------------------------------------------------------------------

  /** A channel: how `describe` sees it, whether it is a guild text channel, and its overwrites. */
  datatype Channel = Channel(thing: Thing, isText: bool, overwrites: seq<Overwrite>)

  datatype Attachment = Attachment(filename: string, size: int)

  datatype Message = Message(
    id: nat,
    author: Thing,
    authorIsBot: bool,
    channel: Channel,
    content: string,
    attachments: seq<Attachment>,
    embedCount: nat)

  /** A member as `on_member_update` sees it: nick, user name and roles. */
  datatype MemberState = MemberState(thing: Thing, nick: Option<string>, username: string, roles: seq<Thing>)

  datatype CensorFilter = CensorFilter(modLogDescription: string, showContent: bool)

  /** The per-guild flags the log reads. */
  datatype GuildConfig = GuildConfig(
    logAllMessageEvents: bool,
    notrackEdits: bool,
    notrackDeletes: bool,
    filterAllowBot: bool)

  /** A sent line, and the text it is edited to once the audit log names who caused it. */
  datatype LogLine = LogLine(text: string, amended: Option<string>)

  // ---------------------------------------------------------------------------
  // Voice state classification
  // ---------------------------------------------------------------------------

  datatype VoiceChange = LeftChannel(from: Thing) | JoinedChannel(to: Thing) | MovedChannel(from: Thing, to: Thing) | NoVoiceChange

  /** left / joined / moved, as `on_voice_state_update` decides it (channels compare by id). */
  function ClassifyVoice(before: Option<Thing>, after: Option<Thing>): (c: VoiceChange)
    ensures c.LeftChannel? <==> before.Some? && after.None?
    ensures c.JoinedChannel? <==> before.None? && after.Some?
    ensures c.MovedChannel? <==> before.Some? && after.Some? && before.value.id != after.value.id
    ensures c.NoVoiceChange? <==> (before.None? && after.None?) || (before.Some? && after.Some? && before.value.id == after.value.id)
    ensures c.LeftChannel? ==> c.from == before.value
    ensures c.JoinedChannel? ==> c.to == after.value
    ensures c.MovedChannel? ==> c.from == before.value && c.to == after.value
  {
    if before.Some? && after.None? then LeftChannel(before.value)
    else if before.None? && after.Some? then JoinedChannel(after.value)
    else if before.Some? && after.Some? && before.value.id != after.value.id then MovedChannel(before.value, after.value)
    else NoVoiceChange
  }

  // ---------------------------------------------------------------------------
  // Message templates
  // ---------------------------------------------------------------------------

  function EditLine(before: Message, after: Message): string
  {
    var quotedBefore := PreventCodeblockBreakout(Truncate(before.content, EditQuoteLength));
    var quotedAfter := PreventCodeblockBreakout(Truncate(after.content, EditQuoteLength));
    Memo + " Message by " + DescribePlain(before.author) + " in "
      + Describe(before.channel.thing, true, "", false, false, false) + " edited: "
      + Codeblock(quotedBefore, "") + " to " + Codeblock(quotedAfter, "")
  }

  /** The attachment list of a deleted message. */
  function AttachmentList(attachments: seq<Attachment>, amount: (int, SizeUnit) -> string): string
  {
    if attachments == [] then "no attachments"
    else
      var described := seq(|attachments|, i requires 0 <= i < |attachments| =>
        attachments[i].filename + ", " + Filesize(attachments[i].size, amount));
      NatToString(|attachments|) + " attachment(s): " + Join(", ", described)
  }

  /** The parenthesised tail of a deletion line as the source writes it: never closed. */
  function DeleteTailAsWritten(attachmentList: string, embedCount: nat): string
  {
    " (" + attachmentList + ", " + NatToString(embedCount) + " embed(s)"
  }

  /** The same tail with its closing parenthesis. */
  function DeleteTail(attachmentList: string, embedCount: nat): string
  {
    DeleteTailAsWritten(attachmentList, embedCount) + ")"
  }

  lemma DigitsHaveNoParens(s: string)
    requires AllDigits(s)
    ensures Count(s, '(') == 0 && Count(s, ')') == 0
  {
    CountAbsent(s, '(');
    CountAbsent(s, ')');
  }

  /** The as-written tail opens one parenthesis more than it closes. */
  lemma DeleteTailUnclosed(attachmentList: string, embedCount: nat)
    ensures Count(DeleteTailAsWritten(attachmentList, embedCount), '(') == Count(attachmentList, '(') + 2
    ensures Count(DeleteTailAsWritten(attachmentList, embedCount), ')') == Count(attachmentList, ')') + 1
  {
    var n := NatToString(embedCount);
    DigitsHaveNoParens(n);
    forall c | c == '(' || c == ')'
      ensures Count(DeleteTailAsWritten(attachmentList, embedCount), c)
        == Count(" (", c) + Count(attachmentList, c) + Count(", ", c) + Count(n, c) + Count(" embed(s)", c)
    {
      CountConcat(" (", attachmentList, c);
      CountConcat(" (" + attachmentList, ", ", c);
      CountConcat(" (" + attachmentList + ", ", n, c);
      CountConcat(" (" + attachmentList + ", " + n, " embed(s)", c);
    }
  }

  /** The corrected tail leaves the parentheses of the attachment list balanced as they were. */
  lemma DeleteTailBalanced(attachmentList: string, embedCount: nat)
    ensures Count(DeleteTail(attachmentList, embedCount), '(') - Count(DeleteTail(attachmentList, embedCount), ')')
      == Count(attachmentList, '(') - Count(attachmentList, ')')
  {
    DeleteTailUnclosed(attachmentList, embedCount);
    CountConcat(DeleteTailAsWritten(attachmentList, embedCount), ")", '(');
    CountConcat(DeleteTailAsWritten(attachmentList, embedCount), ")", ')');
  }

  function DeleteLine(msg: Message, amount: (int, SizeUnit) -> string): string
  {
    var content := PreventCodeblockBreakout(Truncate(msg.content, DeleteQuoteLength));
    Litter + " Message by " + DescribePlain(msg.author) + " deleted in " + msg.channel.thing.mention + ": "
      + Codeblock(content, "") + DeleteTailAsWritten(AttachmentList(msg.attachments, amount), msg.embedCount)
  }

  function CensorLine(filter: CensorFilter, msg: Message): string
  {
    var content := if filter.showContent then ": " + msg.content else "";
    KeycapAsterisk + " Message by " + DescribePlain(msg.author) + " in "
      + Describe(msg.channel.thing, true, "", false, false, false) + " censored: "
      + filter.modLogDescription + content
  }

  function AutoroleLine(member: Thing, rolesAdded: Option<seq<Thing>>): string
  {
    var head := if rolesAdded.Some? then Bookmark + " Automatically assigned roles to " + DescribePlain(member)
      else ClosedBook + " Failed to automatically assign roles for " + DescribePlain(member);
    if rolesAdded.Some? && rolesAdded.value != [] then
      head + ", added roles: " + Join(", ", seq(|rolesAdded.value|, i requires 0 <= i < |rolesAdded.value| =>
        DescribePlain(rolesAdded.value[i])))
    else head
  }

  function NickOrPlaceholder(nick: Option<string>): string
  {
    if nick.Some? && nick.value != "" then nick.value else "<no nickname>"
  }

  function VoiceLine(member: Thing, change: VoiceChange): string
    requires !change.NoVoiceChange?
  {
    match change
    case LeftChannel(from) =>
      Loudspeaker + OutboxTray + " " + DescribePlain(member) + " left " + DescribePlain(from)
    case JoinedChannel(to) =>
      Loudspeaker + InboxTray + " " + DescribePlain(member) + " joined " + DescribePlain(to)
    case MovedChannel(from, to) =>
      Loudspeaker + Arrows + " " + DescribePlain(member) + " moved from " + DescribePlain(from)
        + " to " + DescribePlain(to)
  }

  /** The unban line up to its final period, which the attribution extends. */
  function UnbanBase(user: Thing): string
  {
    Hammer + " " + DescribePlain(user) + " was unbanned"
  }

  // ---------------------------------------------------------------------------
  // Admission predicates
  // ---------------------------------------------------------------------------

  /** Which branch of `on_member_update` an update takes. */
  datatype MemberUpdate = NickChanged | UsernameChanged | RolesChanged | NothingLogged

  function ClassifyMemberUpdate(before: MemberState, after: MemberState): MemberUpdate
  {
    if before.nick != after.nick then NickChanged
    else if before.username != after.username then UsernameChanged
    else if IdSeq(before.roles) != IdSeq(after.roles) then RolesChanged
    else NothingLogged
  }

  /**
   * The autorole bounce: the member has a recorded automatic assignment, every added role
   * is one of the recorded roles, and no role was removed.
   */
  predicate AutoroleSuppresses(debounces: map<nat, seq<nat>>, memberId: nat, added: seq<Thing>, removed: seq<Thing>)
  {
    && memberId in debounces
    && (forall role :: role in added ==> role.id in debounces[memberId])
    && removed == []
  }

  /** Whether `on_message_delete` logs a message, given the suppression lists. */
  predicate DeleteLogged(msg: Message, bulkDeletes: seq<nat>, censoredMessages: seq<nat>, config: GuildConfig)
  {
    && msg.channel.isText
    && msg.id !in bulkDeletes
    && msg.id !in censoredMessages
    && IsPubliclyVisible(config.logAllMessageEvents, msg.channel.overwrites)
    && !config.notrackDeletes
    && (!msg.authorIsBot || config.filterAllowBot)
  }

  /**
   * Whether `on_message_edit` logs an edit. The visibility check reads the channel's guild,
   * so an edit outside a guild text channel raises there and is never logged.
   */
  predicate EditLogged(before: Message, after: Message, config: GuildConfig)
  {
    && !before.authorIsBot
    && before.content != after.content
    && before.channel.isText
    && IsPubliclyVisible(config.logAllMessageEvents, before.channel.overwrites)
    && !config.notrackEdits
  }

  /** `list.remove(x)`: deletes the first occurrence of `x`. */
  function RemoveFirst(s: seq<nat>, x: nat): (r: seq<nat>)
    ensures x in s ==> |r| == |s| - 1 && multiset(r) == multiset(s) - multiset{x}
    ensures x !in s ==> r == s
  {
    if s == [] then []
    else
      assert s == [s[0]] + s[1..];
      if s[0] == x then s[1..]
      else [s[0]] + RemoveFirst(s[1..], x)
  }

  /** A ban debounce is one-shot: once its only occurrence is consumed it suppresses nothing. */
  lemma BanDebounceConsumed(s: seq<nat>, x: nat)
    requires multiset(s)[x] == 1
    ensures x !in RemoveFirst(s, x)
  {
    assert x in multiset(s);
    assert multiset(RemoveFirst(s, x))[x] == 0;
  }

  /** A ban debounce stays in force once per ban: ban ids left after one removal. */
  lemma BanDebounceCounts(s: seq<nat>, x: nat)
    requires x in s
    ensures multiset(RemoveFirst(s, x))[x] == multiset(s)[x] - 1
  {
  }

  // ---------------------------------------------------------------------------
  // The Modlog object
  // ---------------------------------------------------------------------------

  class Modlog {
    /** The bot's check-mark emoji used by `describe_differences`. */
    const greenTick: string
    const redTick: string

    /** User ids whose next departure is not logged, because their ban already was. */
    var banDebounces: seq<nat>
    /** Message ids whose deletion is not logged, because they went in a bulk delete. */
    var bulkDeletes: seq<nat>
    /** Message ids whose deletion is not logged, because the censor already logged them. */
    var censoredMessages: seq<nat>
    /** Roles just assigned automatically, per member, whose role update is not logged. */
    var autoroleDebounces: map<nat, seq<nat>>

    constructor (greenTick: string, redTick: string)
      ensures this.greenTick == greenTick && this.redTick == redTick
      ensures banDebounces == [] && bulkDeletes == [] && censoredMessages == []
      ensures autoroleDebounces == map[]
    {
      this.greenTick := greenTick;
      this.redTick := redTick;
      banDebounces := [];
      bulkDeletes := [];
      censoredMessages := [];
      autoroleDebounces := map[];
    }

    /** The message-delete suppression lists only ever grow. */
    twostate predicate SuppressionGrows()
      reads this
    {
      old(bulkDeletes) <= bulkDeletes && old(censoredMessages) <= censoredMessages
    }

    /** `on_guild_emojis_update`: logs the diff; logs nothing when no emoji came or went. */
    method OnGuildEmojisUpdate(before: seq<Thing>, after: seq<Thing>, now: int) returns (r: Option<string>)
      ensures r.None? <==> Diff(before, after) == ([], [])
      ensures IdSet(before) == IdSet(after) ==> r.None?
      ensures r.Some? ==> r.value == ModlogMsg(now, FrameWithPicture + " Emoji updated: "
        + DescribeDifferences(greenTick, redTick, Diff(before, after).0, Diff(before, after).1))
    {
      var (added, removed) := Diff(before, after);
      if IdSet(before) == IdSet(after) {
        DiffSameIds(before, after);
      }
      if added == [] && removed == [] {
        return None;
      }
      var differences := DescribeDifferences(greenTick, redTick, added, removed);
      r := Some(ModlogMsg(now, FrameWithPicture + " Emoji updated: " + differences));
    }

    /** `on_voice_state_update`: one line for leaving, joining or moving; none otherwise. */
    method OnVoiceStateUpdate(member: Thing, before: Option<Thing>, after: Option<Thing>, now: int) returns (r: Option<string>)
      ensures r.None? <==> (before.None? && after.None?) || (before.Some? && after.Some? && before.value.id == after.value.id)
      ensures r.Some? ==> r.value == ModlogMsg(now, VoiceLine(member, ClassifyVoice(before, after)))
    {
      var change := ClassifyVoice(before, after);
      if change.NoVoiceChange? {
        return None;
      }
      r := Some(ModlogMsg(now, VoiceLine(member, change)));
    }

    /** `on_message_censor`: records the message so its deletion is not logged, and logs the censor. */
    method OnMessageCensor(filter: CensorFilter, msg: Message, now: int) returns (r: string)
      modifies this
      ensures censoredMessages == old(censoredMessages) + [msg.id]
      ensures banDebounces == old(banDebounces) && bulkDeletes == old(bulkDeletes)
      ensures autoroleDebounces == old(autoroleDebounces)
      ensures SuppressionGrows()
      ensures r == ModlogMsg(now, CensorLine(filter, msg))
    {
      censoredMessages := censoredMessages + [msg.id];
      r := ModlogMsg(now, CensorLine(filter, msg));
    }

    /**
     * `on_member_autorole`: logs the assignment (or its failure, when no role list came back);
     * a non-empty assignment replaces the member's debounce entry with the assigned role ids.
     */
    method OnMemberAutorole(member: Thing, rolesAdded: Option<seq<Thing>>, now: int) returns (r: string)
      modifies this
      ensures rolesAdded.Some? && rolesAdded.value != [] ==>
        autoroleDebounces == old(autoroleDebounces)[member.id := IdSeq(rolesAdded.value)]
      ensures !(rolesAdded.Some? && rolesAdded.value != []) ==> autoroleDebounces == old(autoroleDebounces)
      ensures banDebounces == old(banDebounces) && bulkDeletes == old(bulkDeletes)
      ensures censoredMessages == old(censoredMessages)
      ensures SuppressionGrows()
      ensures r == ModlogMsg(now, AutoroleLine(member, rolesAdded))
    {
      if rolesAdded.Some? && rolesAdded.value != [] {
        autoroleDebounces := autoroleDebounces[member.id := IdSeq(rolesAdded.value)];
      }
      r := ModlogMsg(now, AutoroleLine(member, rolesAdded));
    }

    /**
     * `on_message_edit`: only edits by non-bots that change the content, in publicly
     * visible channels of guilds that track edits, are logged.
     */
    method OnMessageEdit(before: Message, after: Message, config: GuildConfig, now: int) returns (r: Option<string>)
      ensures r.Some? <==> EditLogged(before, after, config)
      ensures r.Some? ==> r.value == ModlogMsg(now, EditLine(before, after))
    {
      if before.authorIsBot || before.content == after.content {
        return None;
      }
      if !before.channel.isText {
        return None;
      }
      if !IsPubliclyVisible(config.logAllMessageEvents, before.channel.overwrites) || config.notrackEdits {
        return None;
      }
      r := Some(ModlogMsg(now, EditLine(before, after)));
    }

    /**
     * `on_member_update`: a nick change, else a user-name change, else a role change is
     * logged. A role change covered by the member's autorole debounce is not logged and
     * consumes the debounce; any other role change is logged and later attributed.
     */
    method OnMemberUpdate(before: MemberState, after: MemberState, now: int, roleEntries: seq<AuditEntry>)
      returns (r: Option<LogLine>)
      modifies this
      ensures banDebounces == old(banDebounces) && bulkDeletes == old(bulkDeletes)
      ensures censoredMessages == old(censoredMessages)
      ensures SuppressionGrows()
      ensures ClassifyMemberUpdate(before, after) == NickChanged ==>
        autoroleDebounces == old(autoroleDebounces) &&
        r == Some(LogLine(ModlogMsg(now, NameBadge + " Nick for " + DescribePlain(before.thing) + " updated: `"
          + NickOrPlaceholder(before.nick) + "` " + RightArrow + " `" + NickOrPlaceholder(after.nick) + "`"), None))
      ensures ClassifyMemberUpdate(before, after) == UsernameChanged ==>
        autoroleDebounces == old(autoroleDebounces) &&
        r == Some(LogLine(ModlogMsg(now, NameBadge + " Username for " + DescribePlain(before.thing) + " updated: `"
          + before.username + "` " + RightArrow + " `" + after.username + "`"), None))
      ensures ClassifyMemberUpdate(before, after) == NothingLogged ==>
        autoroleDebounces == old(autoroleDebounces) && r.None?
      ensures ClassifyMemberUpdate(before, after) == RolesChanged ==>
        var (added, removed) := Diff(before.roles, after.roles);
        if AutoroleSuppresses(old(autoroleDebounces), before.thing.id, added, removed) then
          r.None? && autoroleDebounces == old(autoroleDebounces) - {before.thing.id}
        else
          var head := KeySymbol + " Roles for " + DescribePlain(before.thing) + " were updated";
          var diffs := DescribeDifferences(greenTick, redTick, added, removed);
          && autoroleDebounces == old(autoroleDebounces)
          && r.Some? && r.value.text == ModlogMsg(now, head + ": " + diffs)
          && (r.value.amended.Some? <==> GetResponsible(roleEntries, before.thing.id, now).Some?)
          && (r.value.amended.Some? ==> r.value.amended.value == ModlogMsg(now,
                head + " by " + DescribePlain(GetResponsible(roleEntries, before.thing.id, now).value.user) + ": " + diffs))
    {
      var kind := ClassifyMemberUpdate(before, after);
      if kind == NickChanged {
        var text := NameBadge + " Nick for " + DescribePlain(before.thing) + " updated: `"
          + NickOrPlaceholder(before.nick) + "` " + RightArrow + " `" + NickOrPlaceholder(after.nick) + "`";
        return Some(LogLine(ModlogMsg(now, text), None));
      } else if kind == UsernameChanged {
        var text := NameBadge + " Username for " + DescribePlain(before.thing) + " updated: `"
          + before.username + "` " + RightArrow + " `" + after.username + "`";
        return Some(LogLine(ModlogMsg(now, text), None));
      } else if kind == NothingLogged {
        return None;
      }
      var (added, removed) := Diff(before.roles, after.roles);
      if AutoroleSuppresses(autoroleDebounces, before.thing.id, added, removed) {
        autoroleDebounces := autoroleDebounces - {before.thing.id};
        return None;
      }
      var head := KeySymbol + " Roles for " + DescribePlain(before.thing) + " were updated";
      var diffs := DescribeDifferences(greenTick, redTick, added, removed);
      var amended := match GetResponsible(roleEntries, before.thing.id, now)
        case None => None
        case Some(entry) => Some(ModlogMsg(now, head + " by " + DescribePlain(entry.user) + ": " + diffs));
      r := Some(LogLine(ModlogMsg(now, head + ": " + diffs), amended));
    }

    /**
     * `on_raw_bulk_message_delete`: records every id so the single deletions are not logged,
     * then logs the count when the channel resolves to a guild text channel.
     */
    method OnRawBulkMessageDelete(messageIds: seq<nat>, channel: Option<Channel>, now: int) returns (r: Option<string>)
      modifies this
      ensures bulkDeletes == old(bulkDeletes) + messageIds
      ensures banDebounces == old(banDebounces) && censoredMessages == old(censoredMessages)
      ensures autoroleDebounces == old(autoroleDebounces)
      ensures SuppressionGrows()
      ensures r.Some? <==> channel.Some? && channel.value.isText
      ensures r.Some? ==> r.value == ModlogMsg(now, Litter + " " + NatToString(|messageIds|)
        + " message(s) deleted in " + channel.value.thing.mention)
    {
      bulkDeletes := bulkDeletes + messageIds;
      if channel.None? || !channel.value.isText {
        return None;
      }
      r := Some(ModlogMsg(now, Litter + " " + NatToString(|messageIds|) + " message(s) deleted in "
        + channel.value.thing.mention));
    }

    /**
     * `on_message_delete`: never logs a message that was bulk deleted or censored; otherwise
     * logs deletions in visible text channels of guilds that track them, bots' messages only
     * when the guild allows it.
     */
    method OnMessageDelete(msg: Message, config: GuildConfig, now: int, amount: (int, SizeUnit) -> string)
      returns (r: Option<string>)
      ensures msg.id in bulkDeletes || msg.id in censoredMessages ==> r.None?
      ensures r.Some? <==> DeleteLogged(msg, bulkDeletes, censoredMessages, config)
      ensures r.Some? ==> r.value == ModlogMsg(now, DeleteLine(msg, amount))
    {
      if !msg.channel.isText {
        return None;
      }
      if msg.id in bulkDeletes || msg.id in censoredMessages {
        return None;
      }
      if !IsPubliclyVisible(config.logAllMessageEvents, msg.channel.overwrites) || config.notrackDeletes {
        return None;
      }
      if msg.authorIsBot && !config.filterAllowBot {
        return None;
      }
      r := Some(ModlogMsg(now, DeleteLine(msg, amount)));
    }

    /** `on_member_join`: the description with creation time, marked new for accounts up to a week old. */
    method OnMemberJoin(member: Thing, now: int) returns (r: string)
      ensures NewAccount(member, now) ==>
        r == ModlogMsg(now, InboxTray + " " + SquaredNew + " " + Describe(member, false, "", true, false, false))
      ensures !NewAccount(member, now) ==>
        r == ModlogMsg(now, InboxTray + " " + Describe(member, false, "", true, false, false))
    {
      var marker := if now - member.createdAt <= NewAccountSeconds then SquaredNew + " " else "";
      r := ModlogMsg(now, InboxTray + " " + marker + Describe(member, false, "", true, false, false));
      assert marker == "" ==>
        (InboxTray + " " + marker + Describe(member, false, "", true, false, false)
         == InboxTray + " " + Describe(member, false, "", true, false, false));
    }

    /** `on_member_ban`: records the ban debounce first, then logs the ban, attributed later. */
    method OnMemberBan(user: Thing, now: int, banEntries: seq<AuditEntry>) returns (r: LogLine)
      modifies this
      ensures banDebounces == old(banDebounces) + [user.id]
      ensures bulkDeletes == old(bulkDeletes) && censoredMessages == old(censoredMessages)
      ensures autoroleDebounces == old(autoroleDebounces)
      ensures SuppressionGrows()
      ensures r.text == ModlogMsg(now, FormatMemberDeparture(user, "was banned", Hammer, now))
      ensures r.amended == DepartureAmendment(user, "was banned", Hammer, banEntries, now)
    {
      banDebounces := banDebounces + [user.id];
      var text := ModlogMsg(now, FormatMemberDeparture(user, "was banned", Hammer, now));
      r := LogLine(text, DepartureAmendment(user, "was banned", Hammer, banEntries, now));
    }

    /** `on_member_unban`: logs the unban, attributed later. */
    method OnMemberUnban(user: Thing, now: int, unbanEntries: seq<AuditEntry>) returns (r: LogLine)
      ensures r.text == ModlogMsg(now, UnbanBase(user) + ".")
      ensures r.amended.Some? <==> GetResponsible(unbanEntries, user.id, now).Some?
      ensures r.amended.Some? ==> var entry := GetResponsible(unbanEntries, user.id, now).value;
        r.amended.value == ModlogMsg(now, UnbanBase(user) + " by " + DescribePlain(entry.user) + " " + FormatReason(entry) + ".")
    {
      var base := UnbanBase(user);
      var responsible := GetResponsible(unbanEntries, user.id, now);
      if responsible.Some? {
        var entry := responsible.value;
        r := LogLine(ModlogMsg(now, base + "."),
          Some(ModlogMsg(now, base + " by " + DescribePlain(entry.user) + " " + FormatReason(entry) + ".")));
      } else {
        r := LogLine(ModlogMsg(now, base + "."), None);
      }
    }

    /**
     * `on_member_remove`: a departure covered by a ban debounce consumes one occurrence of it
     * and is not logged; any other departure is logged, and attributed if it was a kick.
     */
    method OnMemberRemove(member: Thing, now: int, kickEntries: seq<AuditEntry>) returns (r: Option<LogLine>)
      modifies this
      ensures member.id in old(banDebounces) ==>
        r.None? && banDebounces == RemoveFirst(old(banDebounces), member.id)
      ensures member.id !in old(banDebounces) ==>
        && banDebounces == old(banDebounces)
        && r == Some(LogLine(ModlogMsg(now, FormatMemberDeparture(member, "left", OutboxTray, now)),
                             DepartureAmendment(member, "was kicked", WomansBoots, kickEntries, now)))
      ensures bulkDeletes == old(bulkDeletes) && censoredMessages == old(censoredMessages)
      ensures autoroleDebounces == old(autoroleDebounces)
      ensures SuppressionGrows()
    {
      if member.id in banDebounces {
        banDebounces := RemoveFirst(banDebounces, member.id);
        return None;
      }
      var text := ModlogMsg(now, FormatMemberDeparture(member, "left", OutboxTray, now));
      r := Some(LogLine(text, DepartureAmendment(member, "was kicked", WomansBoots, kickEntries, now)));
    }
  }

  // ---------------------------------------------------------------------------
  // Scenarios: what callers can conclude from the handlers' contracts alone
  // ---------------------------------------------------------------------------

  /** A ban suppresses exactly the one departure it causes; a later departure is logged. */
  method BanThenTwoDepartures(member: Thing, now: int)
  {
    var log := new Modlog("+", "-");
    var banned := log.OnMemberBan(member, now, []);
    assert log.banDebounces == [member.id];
    var first := log.OnMemberRemove(member, now, []);
    assert first.None?;
    assert log.banDebounces == [];
    var second := log.OnMemberRemove(member, now, []);
    assert second.Some?;
  }

  /** Granting exactly the recorded roles to a member with none is a suppressed role change. */
  lemma AutoroleGrantSuppressed(member: MemberState, a: Thing, b: Thing, debounces: map<nat, seq<nat>>)
    requires member.roles == []
    requires member.thing.id in debounces && debounces[member.thing.id] == [a.id, b.id]
    ensures ClassifyMemberUpdate(member, member.(roles := [a, b])) == RolesChanged
    ensures var (added, removed) := Diff(member.roles, [a, b]);
      AutoroleSuppresses(debounces, member.thing.id, added, removed)
  {
    assert IdSeq(member.roles) != IdSeq([a, b]);
    assert Diff(member.roles, [a, b]).1 == [];
  }

  /** Losing a role that was not recorded is a role change that is never suppressed. */
  lemma RoleRemovalNotSuppressed(member: MemberState, a: Thing, b: Thing, c: Thing, debounces: map<nat, seq<nat>>)
    requires c.id != a.id && c.id != b.id
    ensures ClassifyMemberUpdate(member.(roles := [c]), member.(roles := [a, b])) == RolesChanged
    ensures var (added, removed) := Diff([c], [a, b]);
      !AutoroleSuppresses(debounces, member.thing.id, added, removed)
  {
    assert IdSeq([c]) != IdSeq([a, b]);
    assert c in Diff([c], [a, b]).1;
  }

  /** Roles assigned automatically do not produce a role-update line, and the debounce is used up. */
  method AutoroleScenario(member: MemberState, a: Thing, b: Thing, now: int)
    requires member.roles == []
  {
    var log := new Modlog("+", "-");
    var line := log.OnMemberAutorole(member.thing, Some([a, b]), now);
    AutoroleGrantSuppressed(member, a, b, log.autoroleDebounces);
    var update := log.OnMemberUpdate(member, member.(roles := [a, b]), now, []);
    assert update.None?;
    assert member.thing.id !in log.autoroleDebounces;
  }

  /** An update that also removes a role is logged even though its additions were recorded. */
  method AutoroleRemovalScenario(member: MemberState, a: Thing, b: Thing, c: Thing, now: int)
    requires c.id != a.id && c.id != b.id
  {
    var log := new Modlog("+", "-");
    var line := log.OnMemberAutorole(member.thing, Some([a, b]), now);
    RoleRemovalNotSuppressed(member, a, b, c, log.autoroleDebounces);
    var update := log.OnMemberUpdate(member.(roles := [c]), member.(roles := [a, b]), now, []);
    assert update.Some?;
  }
}
