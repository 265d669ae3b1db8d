# Dogbot moderator log and Gatekeeper, modelled in Dafny

This project models three parts of the Dogbot Discord bot:

- **The moderator log** (`dog/ext/modlog.py`). It turns guild events into timestamped lines
  for a guild's log channel: emoji updates, voice moves, censored, edited and deleted messages,
  bulk deletes, joins, departures, bans, unbans, nickname, username and role changes.
  - The cog keeps four pieces of debounce state, modelled as fields of the class `Modlog.Modlog`:
    - ban debounces, so a ban is not also logged as a departure;
    - bulk-deleted message ids;
    - censored message ids;
    - autorole role ids, so the bot's own role grants are not logged as role updates.
  - Lines that the audit log can attribute carry a second, amended text (`LogLine.amended`).
    This is the edit the cog makes once it finds the entry naming the moderator.
- **Gatekeeper** (`dog/ext/gatekeeper.py`). It screens joining members through a fixed chain
  of checks:
  - the chain is default avatar, minimum account age, block everyone, username regex;
  - each check runs only when its key is set in the guild's settings;
  - a check may block the member, which ends the chain with a kick, or report a problem to
    the broadcast channel and let the chain continue;
  - a member who passes every check is announced.

  The `set` and `unset` commands edit the settings. They are modelled as methods of the class
  `Gatekeeper.GuildSettings`.
- **The text helpers both use** (`dog/core/utils/formatting.py`):
  - `describe`, `truncate`, `prevent_codeblock_breakout`, `codeblock`;
  - `format_list`, `format_dict`, `commas`, `filesize`.

`wrappers.dfy` holds the `Option` and `Result` types. `formatting.dfy`, `modlog.dfy` and
`gatekeeper.dfy` follow the three source files, one module each.

How the model is shaped:

- **Discord objects.** Members, users, roles, channels, emojis and plain objects are one
  record, `Formatting.Thing`. It carries the fields `describe` reads, and a `Kind` that stands
  for the source's `isinstance` tests.
- **Equality and time.** Discord objects compare by id, so diffs and channel comparisons use
  ids. Clock readings are integer seconds in a parameter `now`.
- **The `ago` text.** The humanised "… ago" text is carried on the record as a string.
- **Handlers.** Each handler returns the text it would send, and the class fields hold the
  debounce state it updates.
- **Gatekeeper joins.** A join is described by a `Context`:
  - the decoded settings map;
  - the member;
  - `now`;
  - a regular-expression oracle.

  Its effect is the sequence of broadcasts, the direct message and the kick reason.

Where the model departs from the written documentation or from the code:

- **`on_message_edit`.** Its comment speaks of embeds added by Discord. The code only compares
  the two contents, so that is what `EditLogged` states. The visibility check reads the
  channel's guild, so an edit outside a guild text channel raises and is never logged.
  `EditLogged` requires a guild text channel for that reason, as `on_message_delete` does.
- **`format_member_departure`.** Its docstring says a `discord.User` never shows the join
  time. The code sends everything that is not a `discord.User` down the member branch, which
  reads `joined_at`. The handlers only pass members and users. For any other kind of thing the
  source would raise `AttributeError`, and the model instead formats it without a join part,
  since `describe` adds one only for members.
- **`on_message_delete`.** The handler's line ends with the deletion tail exactly as written,
  unclosed parenthesis included (see Findings).

## Model

| member | source | states |
|---|---|---|
| Formatting.PadRightShape | dog/core/utils/formatting.py:31 | Left-justifying in a field of width `w` keeps the text as a prefix, pads with spaces only, and yields width `w` unless the text is already longer |
| Formatting.JoinStartsWithFirst | dog/ext/modlog.py:69 | `', '.join` of a non-empty list starts with its first item |
| Formatting.JoinContains | dog/ext/gatekeeper.py:205 | Every item of a join occurs somewhere in the joined text |
| Formatting.Split | dog/core/utils/formatting.py:85 | Reference inverse of `'\n'.join`: splitting always gives at least one piece |
| Formatting.SplitJoin | dog/core/utils/formatting.py:85 | Joining pieces that contain no separator and splitting the result again gives back exactly the pieces |
| Formatting.NatToString | dog/core/utils/formatting.py:114 | Decimal rendering of a natural number is a non-empty run of digits |
| Formatting.DecimalRoundTrip | dog/core/utils/formatting.py:114 | Reading the decimal rendering back gives the number |
| Formatting.ZeroPaddedNumber | dog/core/utils/formatting.py:85 | `{:0Nd}` padding keeps only digits, has width max(N, digits), and still denotes the same number |
| Formatting.Pad3Shape | dog/core/utils/formatting.py:85 | `{:03d}` of n is all digits, at least three wide, and reads back as n |
| Formatting.NatToStringSplit | dog/core/utils/formatting.py:114 | From 1000 up, the digits of n are those of n / 1000 followed by the three digits of n % 1000 |
| Formatting.CommasRoundTrip | dog/core/utils/formatting.py:112-114 | Removing the commas from `commas(n)` gives the plain decimal rendering of n, negatives included |
| Formatting.CommasGrouped | dog/core/utils/formatting.py:112-114 | `commas(n)` is a sign, then a group of one to three digits, then groups of three digits, each led by a comma |
| Formatting.GroupThousandsGrouped | dog/core/utils/formatting.py:114 | Thousands grouping of a natural number has the grouped shape |
| Formatting.TruncateAsWrittenTooLong | dog/core/utils/formatting.py:107-109 | The code as written returns 7 characters for `truncate("hello", 2)` and 3 for `truncate("a", 0)` |
| Formatting.Truncate | dog/core/utils/formatting.py:99-109 | Text that fits is unchanged. Longer text becomes exactly the desired length: the first length-3 characters plus an ellipsis, or a bare cut when the ellipsis does not fit |
| Formatting.TruncateAgrees | dog/core/utils/formatting.py:107-109 | Wherever three or more characters are allowed, the corrected truncate equals the code as written |
| Formatting.PreventCodeblockBreakout | dog/core/utils/formatting.py:39-40 | Each backtick grows by two zero-width spaces, and every backtick in the result sits between two of them |
| Formatting.NoAdjacentBackticks | dog/core/utils/formatting.py:39-40 | After escaping, no two backticks are adjacent |
| Formatting.BreakoutRoundTrip | dog/core/utils/formatting.py:39-40 | Undoing the escape gives back the original text, so nothing else is altered |
| Formatting.Codeblock | dog/core/utils/formatting.py:50-60 | The block is a fence, the language, a newline, the text, a newline and a fence, with length \|lang\|+\|text\|+8 |
| Formatting.CodeblockNoBreakout | dog/core/utils/formatting.py:39-60 | In a code block of escaped text, whose language has no backticks, the only triple backticks are the opening and closing fence |
| Formatting.FormatListLines | dog/core/utils/formatting.py:84-86 | For a non-empty list of values without line breaks, `format_list` gives one line per element: line i is the backticked three-digit number i+1, `: `, then the value |
| Formatting.MaxKeyLength | dog/core/utils/formatting.py:27 | The padding width is at least every key's length and equal to some key's length |
| Formatting.FormatDict | dog/core/utils/formatting.py:24-36 | Empty dict fails, as `max` of no keys raises. Otherwise the result is the style's opening fence, one formatted line per item in order, and the closing fence |
| Formatting.EqualsLineShape | dog/core/utils/formatting.py:31 | An equals-style line is the key padded to the width, ` = `, the value and a newline |
| Formatting.IniLineShape | dog/core/utils/formatting.py:33 | An ini-style line is `[key]` padded to width+2, a space, the value and a newline |
| Formatting.DictEqualsAligned | dog/core/utils/formatting.py:27-31 | Every equals-style line of `format_dict` puts its `=` at the same column, the longest key's length |
| Formatting.DictIniAligned | dog/core/utils/formatting.py:27-33 | Every ini-style line puts its value at the same column |
| Formatting.Filesize | dog/core/utils/formatting.py:117-129 | The size text is at least as long as its three-character unit suffix (which suffix is stated by FilesizeThreshold) |
| Formatting.FilesizeThreshold | dog/core/utils/formatting.py:126-129 | The text ends in ` MB` exactly above 500000 bytes, and in ` KB` otherwise |
| Formatting.Describe | dog/core/utils/formatting.py:132-160 | The result is the name-and-id base (at least three characters), then ` <before>` when `before` is non-empty, then `, created <ago>` when asked, then `, joined <ago>` when asked and the thing is a member. Each part is stated at its own offset, so the order is fixed |
| Modlog.FindEveryone | dog/ext/modlog.py:34 | The find returns the first `@everyone` overwrite, or none when there is none |
| Modlog.VisibilityRule | dog/ext/modlog.py:17-35 | With `log_all_message_events` a channel is public. Otherwise it is hidden exactly when its first `@everyone` overwrite denies reading |
| Modlog.Without | dog/ext/modlog.py:49-50 | The list comprehension keeps exactly the items whose id is not in the other list, and never grows |
| Modlog.WithoutConcat | dog/ext/modlog.py:49-50 | Filtering distributes over concatenation, so order is kept |
| Modlog.WithoutAll | dog/ext/modlog.py:49-50 | Filtering a list whose ids all occur in the other list leaves nothing |
| Modlog.Diff | dog/ext/modlog.py:38-51 | Additions are exactly the items of `after` not in `before`, and removals the items of `before` not in `after` |
| Modlog.DiffSameIds | dog/ext/modlog.py:38-51 | Two lists with the same ids have no additions and no removals |
| Modlog.DiffSwap | dog/ext/modlog.py:38-51 | Swapping the arguments swaps additions and removals |
| Modlog.DifferenceEntries | dog/ext/modlog.py:67-68 | One entry per added item, `<green tick> <description>`, in order, then one per removed item with the red tick |
| Modlog.DescribeDifferences | dog/ext/modlog.py:54-69 | The description is empty exactly when nothing was added or removed |
| Modlog.DifferencesNameEveryItem | dog/ext/modlog.py:54-69 | The description contains the green-ticked description of every added item and the red-ticked description of every removed item. With any addition it starts with the first one |
| Modlog.GetResponsible | dog/ext/modlog.py:285-304 | Some entry means it is the first entry targeting the member and at most 2 s old. None means no entry qualifies |
| Modlog.AuditAcceptance | dog/ext/modlog.py:296-302 | With the single entry the query returns, attribution happens exactly when the target matches and the entry is at most 2 s old |
| Modlog.FormatReason | dog/ext/modlog.py:306-313 | A non-empty reason appears in backticks after `with reason `. An absent or empty reason gives `with no attached reason` |
| Modlog.Pad2Shape | dog/ext/modlog.py:96 | `{:02d}` of a number below 100 is two digits denoting the number |
| Modlog.ModlogMsg | dog/ext/modlog.py:88-96 | The ten-character prefix is a backtick, `[`, the UTC hour and minute as two digits each around `:`, `]`, a backtick and a space. The message follows unchanged |
| Modlog.FormatMemberDeparture | dog/ext/modlog.py:262-283 | A non-user who joined at most 1500 s ago gets the basketball marker. A non-user is described with `joined=True` and a user without it, both with the creation time. The join part then appears for members only |
| Modlog.DepartureShowsVerb | dog/ext/modlog.py:262-283 | ` <verb>` comes right after the departed one's name and id: after the emoji (and the basketball marker when they bounced) and the description base |
| Modlog.UserNeverShowsJoin | dog/ext/modlog.py:267-279 | Asking `describe` for the join time of a user changes nothing |
| Modlog.DepartureAmendment | dog/ext/modlog.py:335-351 | A departure is amended exactly when the audit log yields a responsible entry. The new text is the departure with `<extra> by <moderator> <reason>` as its verb |
| Modlog.ModlogMsgKeeps | dog/ext/modlog.py:88-96 | Whatever a message contains, its timestamped form contains too |
| Modlog.AmendmentNamesModerator | dog/ext/modlog.py:345-351 | The amended departure contains ` <extra> by <moderator description> <formatted reason>` |
| Modlog.ClassifyVoice | dog/ext/modlog.py:127-136 | Classifies a voice change as left, joined, moved (different channel ids) or nothing, each exactly under its condition, with the right channels |
| Modlog.DeleteTailUnclosed | dog/ext/modlog.py:254-255 | The deletion line as written adds two opening parentheses and only one closing one |
| Modlog.DeleteTailBalanced | dog/ext/modlog.py:254-255 | The corrected deletion tail adds balanced parentheses |
| Modlog.RemoveFirst | dog/ext/modlog.py:376-377 | `list.remove` of a present id drops exactly one occurrence. Python's `list.remove` raises for an absent id. The source never calls it then, because of the `in` guard at line 376. The model returns the list unchanged in that case, which no handler uses |
| Modlog.BanDebounceConsumed | dog/ext/modlog.py:376-377 | A ban debounce recorded once is gone after one departure consumes it |
| Modlog.BanDebounceCounts | dog/ext/modlog.py:357-377 | Each departure consumes exactly one recorded ban |
| Modlog.Modlog.constructor | dog/ext/modlog.py:73-86 | The ticks are the given ones; all debounce lists and the autorole map start empty |
| Modlog.Modlog.OnGuildEmojisUpdate | dog/ext/modlog.py:109-117 | Logs exactly when the emoji diff is non-empty (so never for a pure rename), with the frame emoji and the described differences |
| Modlog.Modlog.OnVoiceStateUpdate | dog/ext/modlog.py:119-136 | Logs unless neither state has a channel or both have the same one, with the left, joined or moved line |
| Modlog.Modlog.OnMessageCensor | dog/ext/modlog.py:138-145 | Appends the message id to the censored list, changes nothing else, and logs the censor line |
| Modlog.Modlog.OnMemberAutorole | dog/ext/modlog.py:147-159 | A non-empty role list is stored as the member's autorole debounce. The line says assigned or failed and lists the roles |
| Modlog.AutoroleGrantSuppressed | dog/ext/modlog.py:193-201 | A member without roles who gains exactly the roles stored for them is a role change that the debounce suppresses |
| Modlog.RoleRemovalNotSuppressed | dog/ext/modlog.py:193-201 | A member whose role `c` is replaced by roles `a` and `b` has a role change, and the debounce does not suppress it whatever is stored, since a role was removed |
| Modlog.Modlog.OnMessageEdit | dog/ext/modlog.py:161-178 | Logs exactly when the author is not a bot, the content changed, the channel is a public guild text channel and edits are tracked. Both contents are truncated to 900 and escaped |
| Modlog.Modlog.OnMemberUpdate | dog/ext/modlog.py:180-210 | A nick change wins over a username change, which wins over a role change. A role change made only of debounced additions is swallowed once and its debounce entry removed. Any other role change is logged with the diff and attributed when the audit log allows |
| Modlog.Modlog.OnRawBulkMessageDelete | dog/ext/modlog.py:212-224 | Always records every id as bulk-deleted, even for an unknown channel. It logs the count only for a text channel |
| Modlog.Modlog.OnMessageDelete | dog/ext/modlog.py:226-256 | Never logs a bulk-deleted or censored message. It logs exactly when the channel is a public text channel, deletes are tracked, and the author is not a bot or bots are allowed. The content is truncated to 1500 and escaped. The line ends with the tail as written, whose parenthesis is never closed |
| Modlog.Modlog.OnMemberJoin | dog/ext/modlog.py:258-260 | Accounts at most 604800 s old get the "new" marker. The line describes the member with creation time |
| Modlog.Modlog.OnMemberBan | dog/ext/modlog.py:355-363 | Records the ban debounce, logs the departure with the hammer, and attributes it to the moderator when the audit log allows |
| Modlog.Modlog.OnMemberUnban | dog/ext/modlog.py:365-371 | Logs `<user> was unbanned.` and, when the audit log allows, the version naming the moderator and reason |
| Modlog.Modlog.OnMemberRemove | dog/ext/modlog.py:373-384 | A debounced ban consumes one debounce entry and logs nothing. Otherwise it logs the departure, amended as a kick when the audit log has one |
| Gatekeeper.KeysAccepted | dog/ext/gatekeeper.py:28-77 | Every check's key is one of the customization keys, and none is `bounce_message` |
| Gatekeeper.TrimStart | dog/ext/gatekeeper.py:40 | Leading whitespace that `int()` ignores is removed, and only whitespace. The result is a suffix that starts with a non-space |
| Gatekeeper.TrimEnd | dog/ext/gatekeeper.py:40 | Trailing whitespace is removed, and only whitespace. The result is a prefix that ends with a non-space |
| Gatekeeper.ParseSigned | dog/ext/gatekeeper.py:40 | `int()` accepts only an optional sign followed by at least one decimal digit, so a bare sign is rejected |
| Gatekeeper.ParseSignedRoundTrip | dog/ext/gatekeeper.py:40 | Parsing the decimal rendering of any integer gives it back |
| Gatekeeper.ParseIntRoundTrip | dog/ext/gatekeeper.py:40 | `int()` of a number rendering gives the number, also with any whitespace before it and any (possibly different) whitespace after it |
| Gatekeeper.TrimAround | dog/ext/gatekeeper.py:40 | Stripping removes any leading and any trailing whitespace, the two runs chosen independently, and leaves a string that neither starts nor ends with whitespace unchanged |
| Gatekeeper.ParseIntRejectsWords | dog/ext/gatekeeper.py:40-48 | A word whose first character is not a digit, a sign or whitespace, and whose last is not whitespace, does not parse as an integer, which is the case the minimum-age check reports |
| Gatekeeper.DefaultAvatarCheck | dog/ext/gatekeeper.py:27-32 | Blocks exactly members with the default avatar and never reports |
| Gatekeeper.MinimumCreationTimeCheck | dog/ext/gatekeeper.py:35-48 | Blocks exactly when the setting parses and the account is younger. It reports the invalid-number message exactly when the setting does not parse |
| Gatekeeper.BlockAllCheck | dog/ext/gatekeeper.py:51-55 | Always blocks |
| Gatekeeper.UsernameRegexCheck | dog/ext/gatekeeper.py:58-67 | Blocks exactly when the pattern compiles and matches the name. It reports exactly when it does not compile, and the report carries the compiler's message |
| Gatekeeper.EvaluatePrefix | dog/ext/gatekeeper.py:136-148 | The chain over one more check is the previous verdict extended by that check's outcome |
| Gatekeeper.EvaluateFromSnoc | dog/ext/gatekeeper.py:136-148 | Appending a check to the exception-style reading extends it the same way |
| Gatekeeper.EvaluateAgrees | dog/ext/gatekeeper.py:136-148 | The loop reading of the chain and the exception-style reading, where a block ends and a report is prepended, agree on every chain |
| Gatekeeper.BlockedByFirstBlock | dog/ext/gatekeeper.py:136-146 | The chain blocks exactly when some set check blocks, with the first blocking check's reason and only the reports before it |
| Gatekeeper.BlockShortCircuits | dog/ext/gatekeeper.py:144-146 | Once a prefix has blocked, further checks change nothing |
| Gatekeeper.ReportContinues | dog/ext/gatekeeper.py:147-148 | A report is appended and the chain goes on |
| Gatekeeper.UnsetCheckSkipped | dog/ext/gatekeeper.py:137-139 | A check whose key is unset is skipped |
| Gatekeeper.NothingSetPasses | dog/ext/gatekeeper.py:136-139 | With no key set the member passes with no reports |
| Gatekeeper.BlockAllBlocksEveryJoin | dog/ext/gatekeeper.py:51-146 | With `block_all` set, every join is blocked |
| Gatekeeper.DefaultAvatarComesFirst | dog/ext/gatekeeper.py:129-146 | A default-avatar block takes precedence over `block_all`, since it is checked first |
| Gatekeeper.ReportThenBlockSteps | dog/ext/gatekeeper.py:27-55 | Under the scenario's settings the first three checks pass, report and block |
| Gatekeeper.ReportThenBlock | dog/ext/gatekeeper.py:129-148 | An invalid minimum age followed by `block_all` reports once and then blocks |
| Gatekeeper.ReportBroadcasts | dog/ext/gatekeeper.py:147-148 | Each report becomes one text broadcast, in order |
| Gatekeeper.BlockedOrPassed | dog/ext/gatekeeper.py:82-154 | A disabled guild does nothing. Otherwise the reports come first, then exactly one final broadcast: "joined" if nothing blocked, "bounced" if blocked and kicked, or the "couldn't kick" text. The kick carries the reason |
| Gatekeeper.RunChecks | dog/ext/gatekeeper.py:136-148 | The loop over the checks computes the chain's verdict |
| Gatekeeper.OnMemberJoin | dog/ext/gatekeeper.py:82-154 | The join's effect is the chain's verdict acted on: reports forwarded, then a bounce (with a bounce message if set, and a kick or a "couldn't kick" report) or the "joined" announcement |
| Gatekeeper.ListsEveryKey | dog/ext/gatekeeper.py:205-206 | The invalid-key reply over any key list contains every key in backticks |
| Gatekeeper.InvalidKeyListsEveryKey | dog/ext/gatekeeper.py:204-206 | The invalid-key reply names every customization key in backticks |
| Gatekeeper.GuildSettings.constructor | dog/ext/gatekeeper.py:86-87 | A guild with no stored hash has no settings, and that state is valid |
| Gatekeeper.GuildSettings.Set | dog/ext/gatekeeper.py:196-210 | An accepted key stores the value (`true` when omitted) and confirms. Any other key changes nothing and lists the valid keys. Stored keys stay accepted ones |
| Gatekeeper.GuildSettings.Unset | dog/ext/gatekeeper.py:171-174 | Removes exactly that key, whether or not it was set, keeps every other setting, and confirms |

## Left out

- Discord and Redis I/O are left out. Sending, editing, kicking, hset/hdel/hgetall and the
  broadcast channel lookup are not modelled. Handlers return what they would send, and the
  settings map is a value.
- Gatekeeper.OnMemberJoin, Gatekeeper.ReportContinues and Gatekeeper.ReportThenBlock assume
  that a numeric broadcast channel id is stored. The report helper (gatekeeper.py:89-103) is silent only when
  `get_channel` finds no channel or sending is `Forbidden`. With no stored id, `None.decode()`
  raises `AttributeError`. With a non-numeric id, `int()` raises `ValueError`. Neither is
  caught there, so the error leaves `on_member_join`: a report before a block then stops
  the later checks and the member is never kicked. The model does not capture this.
- Modlog.Modlog.OnMessageEdit: an edit outside a guild text channel raises in the source,
  where the visibility check reads `channel.guild` (modlog.py:30). The model states it as
  not logged, which is what the user sees.
- `asyncio.sleep(0.5)` and concurrency are left out. Interleaving handlers is not modelled.
  The debounce state is updated in the order one handler runs.
- A handler reads the clock once. The source calls `utcnow()` separately in `modlog_msg`
  and in the age checks, and the model uses one `now` for both.
- The audit lookup is given as the list the query returned. A `Forbidden` error is the
  empty list. The delay before the amended text is written is not modelled.
- `autoformat_responsible` returns early when `log` returned no message. The model assumes
  every log line is sent.
- `utils.ago` and `timeago` are not modelled. The humanised age texts are fields of `Thing`.
- Formatting.Filesize: the rounded float amount (`round(bytes / 10**6, 2)`) is an oracle
  parameter. Only the unit choice, the threshold and the suffix are modelled, because
  floating-point rounding and float repr are out of scope.
- Gatekeeper.MinimumCreationTimeCheck: `total_seconds()` is a float. The model takes the age
  in integer seconds and prints it as an integer, so the block reason's number differs in
  form (`5` against `5.0`) from the source.
- Gatekeeper.ParseInt does not accept the underscores, the Unicode digits or the Unicode
  whitespace that Python's `int()` accepts. The ASCII whitespace that `str.isspace` accepts
  (space, `\t`, `\n`, `\v`, `\f`, `\r` and `\x1c` to `\x1f`), an optional sign and ASCII
  digits are modelled.
- Gatekeeper.UsernameRegexCheck: `re.compile` and `search` are an oracle parameter of the
  context. Only how the check uses their answers is modelled.
- `commands.clean_content` is left out. The `set` command stores its value as given.
- `enable`, `disable` and `status` are left out, along with the local moderator check and
  the cog group's help reply. They are Redis and embed I/O with no logic beyond what the
  settings and `enabled` parameters capture.
- The `is_public` command is left out. Its logic is `IsPubliclyVisible`, which is modelled.
- Embed colours, thumbnails and field layout are left out. A broadcast embed keeps only its
  title and fields.
- `strip_tags`, `urlescape`, `standard_datetime`, `now`, `make_profile_embed` and
  `MLStripper` are not part of this model. The core above never calls them. They wrap HTML
  parsing, URL quoting and the clock.
- Formatting.Commas takes an integer only. The source annotates `Union[int, float]`, but `'{:,d}'` raises `ValueError` for a float, and that error path is not modelled.
- Modlog.FormatMemberDeparture: the `AttributeError` at modlog.py:282 for a thing that is neither a user nor a member is not modelled. The model formats such a thing without a join part.
- Modlog.RemoveFirst: the `ValueError` that `list.remove` raises for an absent id is not modelled. The source only calls it behind an `in` guard, and the model returns the list unchanged.
- Formatting.Describe: `str(thing)` and `thing.mention` are given as the record's `display`
  and `mention` strings.

## Findings

| source | as written | input that shows it | evidently intended | confidence | as-written member | corrected member |
|---|---|---|---|---|---|---|
| dog/core/utils/formatting.py:99-109 | `text[:desired_length - 3] + '...'` slices with a negative index when `desired_length < 3` | `truncate("hello", 2)` gives `"hell..."`, 7 characters | The docstring guarantees the result is `desired_length` long | not executed | Formatting.TruncateAsWrittenTooLong | Formatting.Truncate |
| dog/ext/modlog.py:254-255 | The deletion line opens `(` before the attachment list and never closes it | Any logged deletion, e.g. one with no attachments and no embeds, ends in `(no attachments, 0 embed(s)` | A closing `)` after `embed(s)` | not executed | Modlog.DeleteTailUnclosed (about `DeleteTailAsWritten`, which the deletion handler uses) | Modlog.DeleteTailBalanced (about `DeleteTail`) |
