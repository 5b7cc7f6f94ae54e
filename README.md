# Discord moderation and levelling bot, modelled in Dafny

This project models the core of a Discord bot that gives members XP for chatting,
computes levels from XP, shows ranks and leaderboards, watches for repeated
messages (spam), counts warnings and escalates them to mutes, kicks and bans.
It covers five source files:

- `utils/db.py`: the counter store. Per-(guild, user) XP and warn tables become the
  `Store.Database` class with two `map<Key, int>` fields. It has the usual
  operations plus the leaderboard query, which is specified by what
  `ORDER BY xp DESC LIMIT n` returns. `xp_to_level` is computed exactly with an
  integer square root.
- `main.py`: the `on_message` handler. It awards 10 XP per message at most once
  per 60 seconds and reports a level-up. It also counts identical normalised
  messages; the fifth in a row gives an automatic warn, which is escalated by the
  warn count and then resets the counter. `MessageEvents.Bot` holds the two
  in-memory trackers as map fields.
- `cogs/mods.py`: the moderation cog's own warn system. This is a second,
  in-memory warn count with a 5-message window. It has the escalation handler,
  which mutes with the "Muted" role and creates that role if it is missing, and
  the delayed role removal. It is modelled by `ModCog.WarnCog`, `ModCog.Guild`
  and `ModCog.Member`.
- `cogs/levels.py`: the rank lookup, the leaderboard limit, the `addxp`,
  `removexp`, `setxp` and `resetxp` commands, the progress bar and percentage,
  the profile card's name truncation, the leaderboard image rows, and the text
  fallback.
- `mod.py`: `ban`, `kick`, `mute <duration>` through the platform's timeout, and
  `unmute`. A platform refusal (`discord.Forbidden`) is a boolean parameter.

Modules: `Options` holds the Option and Result types. `Strings` is a model of the
Python string operations the bot uses: ASCII `lower`, `strip` over the
`str.isspace` characters, `*` repetition, `str` and `int`. Then come `Store`,
`MessageEvents`, `ModCog`, `ModCommands` and `LevelCommands`.

The operations follow the code as written, also where it departs from its
comments or evidently from its intent. Each such place is listed under
"## Findings", with a corrected definition and its property next to the
as-written one.

- `main.py` calls `mute_member` on the cog named "Mod", but the `Mod` cog in
  `mod.py` defines no such method. `mod.py` is also not in the bot's list of
  extensions. Whether that cog is present is the field `modCogLoaded` of
  `MessageEvents.Bot`, fixed when the bot starts. When it is present, the mute
  call on the third and fourth auto-warn raises `AttributeError`. The handler's
  `try` catches it, so no mute happens and the spam entry is not reset. Other
  sanctions are returned rather than executed.
- The warn count of `cogs/mods.py` is its own in-memory dictionary. It is
  separate from the database warns that `on_message` increments.
- The progress bars and percentages of `cogs/levels.py` are drawn against the
  threshold the code computes, 100 (level+1)^2. The comment beside it calls
  this the XP needed for the next level.

## Model

| member | source | states |
|---|---|---|
| Strings.Lower | main.py:48 | lower-casing keeps the length and lower-cases each character |
| Strings.LowerIsLowerCase | main.py:48 | lower-cased text has no upper-case letter left, and lower-casing again changes nothing |
| Strings.LeadingSpace | main.py:48 | the count of leading characters `lstrip` removes: all of them are whitespace and the next one is not |
| Strings.TrailingSpace | main.py:48 | the count of trailing characters `rstrip` removes: all of them are whitespace and the one before them is not |
| Strings.StripMeaning | main.py:48 | stripped text is a contiguous slice of the input with whitespace only outside it and none at its ends |
| Strings.StripIdle | main.py:48 | text with no whitespace at either end is left unchanged |
| Strings.StripIdempotent | main.py:48 | stripping twice is stripping once |
| Strings.Repeat | cogs/levels.py:182 | `c * n` has max(0, n) characters, all equal to c |
| Strings.NatToString | cogs/levels.py:330 | the decimal form of a natural number is a non-empty string of digits |
| Strings.NatToStringValue | cogs/levels.py:330 | reading back the digits of a natural number gives that number |
| Strings.ParseIntRoundTrip | mod.py:40 | `int(str(n)) == n` for every integer, negative numbers included |
| Store.ISqrt | utils/db.py:189 | r is the integer square root: r*r <= n < (r+1)*(r+1) |
| Store.XpToLevel | utils/db.py:187-189 | the level is at least 1, and it is exactly 1 for XP of 0 or less |
| Store.LevelBand | utils/db.py:189 | for XP >= 0, the level is l+1 exactly when 100*l*l <= XP < 100*(l+1)*(l+1) |
| Store.LevelMonotone | utils/db.py:189 | more XP never means a lower level |
| Store.XpForLevelIsLeast | utils/db.py:189 | 100*(n-1)^2 XP gives level n, and any smaller non-negative XP gives a lower level |
| Store.InsertByXp | utils/db.py:136 | inserting a row lengthens the list by one and adds exactly that row, as a multiset |
| Store.InsertSorted | utils/db.py:136 | inserting a row into a list sorted by XP descending keeps it sorted |
| Store.InsertUsers | utils/db.py:136 | inserting a row adds exactly its user to the listed users |
| Store.InsertDistinct | utils/db.py:136 | inserting a row for a user not yet listed keeps one row per user |
| Store.CollectStep | utils/db.py:136 | the leaderboard loop keeps every processed row of the guild in XP order |
| Store.TakeTop | utils/db.py:136 | the first `limit` rows of the guild's XP-ordered rows form a leaderboard |
| Store.Database.constructor | utils/db.py:45-83 | both tables start empty |
| Store.Database.AddXp | utils/db.py:87-102 | adds `amount` to the stored XP and inserts `amount` when there is no row; nothing else changes |
| Store.Database.GetUser | utils/db.py:104-112 | returns the stored XP, or 0 when the user has no row |
| Store.Database.SetXp | utils/db.py:114-123 | the user's XP becomes exactly `xp`; nothing else changes |
| Store.Database.ResetUser | utils/db.py:125-131 | the user's XP row is deleted; nothing else changes |
| Store.Database.GetLeaderboard | utils/db.py:133-141 | at most `limit` rows of this guild, sorted by XP descending, one per user, each matching the table; every row left out has no more XP than the last row shown, and rows are left out only when the list is full |
| Store.Database.AddWarn | utils/db.py:144-165 | the warn count rises by one (a missing row counts as 0) and the new count is returned; nothing else changes |
| Store.Database.GetWarns | utils/db.py:167-175 | returns the stored warn count, or 0 |
| Store.Database.ResetWarns | utils/db.py:177-183 | the user's warn row is deleted; nothing else changes |
| Store.AddsCompose | utils/db.py:87-102 | two XP additions add up |
| Store.WriteThenRead | utils/db.py:104-123 | a read after `set_xp` returns the value written, and other keys keep theirs |
| MessageEvents.EscalationTable | main.py:89-106 | auto-warns 1 and 2 only notify; 3 and 4 time out for 3600 and 86400 seconds; 5 kicks; 6 and above ban; a higher count never gives a milder sanction |
| MessageEvents.Bot.constructor | main.py:19-26 | both trackers start empty, and whether the Mod cog is loaded is fixed |
| MessageEvents.Bot.OnMessage | main.py:40-112 | bot and DM messages change nothing; otherwise 10 XP is awarded when at least 60 seconds have passed since the last award (never awarded counts as time 0) and the cooldown is restarted; a level-up is reported exactly when the level after the award is higher than the level of XP minus 10; the spam entry is updated with the normalised content; a fifth identical message adds a database warn and returns it; without the Mod cog the entry is reset and nothing is escalated; with it, warns 3 and 4 raise in the missing `mute_member` call, leaving no sanction and the entry not reset, and other counts escalate and reset |
| MessageEvents.Bot.AwardXp | main.py:51-70 | the XP half of `on_message`, with the whole new state |
| MessageEvents.Bot.TrackSpam | main.py:72-110 | the spam half of `on_message`, with the whole new state; run lengths are never negative, and stay below 5 without the Mod cog |
| MessageEvents.TrackAsWrittenWhenMuteWorks | main.py:89-108 | whenever the mute call does not raise, the tracker step as written is the step that always resets after an auto-warn |
| MessageEvents.MuteFailureRepeatsWarn | main.py:91-108 | with the Mod cog and two warns stored, the fifth, sixth and seventh identical messages each auto-warn, and only the seventh, a kick, resets the run; a working mute would reset it on the fifth |
| MessageEvents.AwardsSpaced | main.py:51-70 | any two XP awards for one key are at least 60 seconds apart |
| MessageEvents.LevelUpOnThreshold | main.py:57-62 | one award raises the level by at most one, and raises it exactly when the new XP reaches the least XP of the next level |
| MessageEvents.RunGrows | main.py:73-80 | a run of fewer than five identical messages only raises the count and never warns |
| MessageEvents.FiveIdenticalWarnOnce | main.py:73-108 | for the tracker that resets after every auto-warn (as written whenever the mute call does not raise): after a different message, four identical ones do not warn, the fifth warns once and resets the entry, and a sixth starts a new run of 1 |
| MessageEvents.AfterAppend | main.py:73-108 | the spam counter over a sequence of messages is the step function applied one message at a time |
| ModCog.FindRole | cogs/mods.py:43 | `discord.utils.get(roles, name=...)`: the first role with that name, or none when there is none |
| ModCog.EscalateTable | cogs/mods.py:42-70 | for the handler with the mute DM best-effort: below 3 nothing happens; 3 and 4 mute with removal after 3600 and 86400 seconds; 5 kicks; 6 and above ban; the Muted role is created exactly when none exists, and otherwise the first one is used |
| ModCog.MuteNeverLiftedAsWritten | cogs/mods.py:52-55 | as written, a member with closed DMs is muted on the third warn and no removal is ever scheduled |
| ModCog.AsWrittenWhenDelivered | cogs/mods.py:52-66 | when the mute DM is delivered, the handler as written and the corrected one agree |
| ModCog.AgreesWithAutoWarn | cogs/mods.py:42-70 | the cog's escalation and the auto-warn escalation of `on_message` choose the same sanction at every count, with the same mute lengths |
| ModCog.PushKeepsLatest | cogs/mods.py:91-94 | the window keeps the last min(5, n) messages in order |
| ModCog.SpamWarnIff | cogs/mods.py:91-97 | a warn is given exactly when the window holds five messages that are all equal |
| ModCog.FillWindow | cogs/mods.py:91-97 | up to four identical messages never warn |
| ModCog.FiveSameWarnOnce | cogs/mods.py:91-107 | from an empty window, four identical messages do not warn, five warn once and empty the window |
| ModCog.WindowAppend | cogs/mods.py:91-107 | the window over a sequence of messages is the step function applied one message at a time |
| ModCog.AsWrittenWindowWhenCalm | cogs/mods.py:97-107 | when the escalation does not raise, the listener's window step as written is the step that always empties a full window |
| ModCog.StuckWindowWarnsAgain | cogs/mods.py:97-107 | after an escalation raised on a full window of one message, every further copy warns again and the window stays full until an escalation goes through |
| ModCog.WarnCog.constructor | cogs/mods.py:3-4 | no warns and no windows at start |
| ModCog.WarnCog.WarnCount | cogs/mods.py:10-12 | a missing guild or member has count 0 |
| ModCog.WarnCog.AddWarn | cogs/mods.py:10-12 | the member's count rises by one and is returned; every other member's count is unchanged |
| ModCog.WarnCog.Warn | cogs/mods.py:9-22 | `warn` raises the count by one and hands the new count to the escalation as written, which schedules no removal of the mute when the member's DMs are closed |
| ModCog.WarnCog.OnMessage | cogs/mods.py:85-107 | bots and DMs are ignored; the lower-cased content is appended to a 5-message window; five equal messages warn and escalate as written, and the window is cleared only when the escalation does not raise (closed DMs on a mute, a refused kick or ban); windows never exceed 5 |
| ModCog.WarnCog.ApplyPlan | cogs/mods.py:43-70 | the Muted role is created only when planned, the mute adds it to the member and the removal is scheduled with the planned delay; a kick or ban marks the member unless the platform refuses it |
| ModCog.WarnCog.RemoveRoleAfter | cogs/mods.py:73-79 | the role is removed exactly when the member still has it; nothing else changes |
| ModCommands.DurationRoundTrip | mod.py:39-48 | a number followed by s, m, h or d in either case is read as that many seconds, minutes, hours or days |
| ModCommands.DurationRejections | mod.py:39-50 | "" is an error, a bare number or an unknown unit is never accepted, an unknown unit after a valid number gets the format hint, and a bad number is an error |
| ModCommands.Member.Mute | mod.py:37-61 | a good duration times the member out until now + duration; a bad unit gives the format hint; a bad number or empty duration gives an error; a refusal changes nothing |
| ModCommands.Member.Unmute | mod.py:63-74 | clears the timeout, or replies with the refusal and changes nothing |
| ModCommands.Member.Kick | mod.py:22-33 | kicks, or replies with the refusal and changes nothing |
| ModCommands.Member.Ban | mod.py:9-20 | bans, or replies with the refusal and changes nothing |
| LevelCommands.RankOf | cogs/levels.py:141-146 | the rank is one more than the first position of the user, or one more than the list length when the user is absent |
| LevelCommands.RankIsPosition | cogs/levels.py:141-146 | on a leaderboard with one row per user, row i ranks i+1 and an absent user ranks last |
| LevelCommands.ClampLimit | cogs/levels.py:245 | the limit ends up in 1..20 and is unchanged inside that range |
| LevelCommands.ClampIsNearest | cogs/levels.py:245 | the clamped limit is the allowed value nearest to the requested one |
| LevelCommands.FillBounds | cogs/levels.py:176-184 | for XP >= 0, the filled part of a bar is in 0..width, is full exactly when XP reaches the threshold, and never shrinks as XP grows |
| LevelCommands.BarShape | cogs/levels.py:180-182 | the text bar has exactly 20 cells: the filled ones first, then the empty ones |
| LevelCommands.ThresholdSkipsALevel | cogs/levels.py:100 | the threshold as written is the least XP of level+2, and level+1 is reached earlier |
| LevelCommands.NextLevelXpIsNextLevel | cogs/levels.py:176-177 | the corrected threshold is above the current XP and gives exactly level+1, so the bar and percentage are never full |
| LevelCommands.ShownThresholdAbove | cogs/levels.py:176-181 | the threshold as written is positive and above the current XP, so every bar and percentage drawn against it stays below its width |
| LevelCommands.TruncateName | cogs/levels.py:86-88 | a name of 15 characters or fewer is kept; a longer one becomes its first 15 characters plus "..." |
| LevelCommands.TruncateIdempotent | cogs/levels.py:86-88 | truncating twice is truncating once |
| LevelCommands.LookupRank | cogs/levels.py:141-146 | the rank refers to the leaderboard of the top 1000; when the user is listed, that row is the user's and shows their XP |
| LevelCommands.ShowLevel | cogs/levels.py:155-189 | shows the stored XP, its level, the rank on a top-1000 leaderboard, and a 20-cell bar and a percentage against 100 (level+1)^2, both below full |
| LevelCommands.ShowProfile | cogs/levels.py:86-152 | shows the truncated name, XP, level, the rank on a top-1000 leaderboard, the threshold 100 (level+1)^2 and the 600-pixel bar and percentage against it; the bar is never full |
| LevelCommands.AddXpCommand | cogs/levels.py:192-205 | rejects amounts <= 0 and changes nothing; otherwise stores current + amount and reports its level |
| LevelCommands.RemoveXpCommand | cogs/levels.py:207-220 | rejects amounts <= 0; otherwise stores max(0, current - amount), which is never negative and never more than before |
| LevelCommands.SetXpCommand | cogs/levels.py:222-233 | rejects negative amounts; otherwise stores the amount and reports its level |
| LevelCommands.ResetXpCommand | cogs/levels.py:235-240 | stores 0 and reports level 1, which is the level of 0 XP |
| LevelCommands.EntryLine | cogs/levels.py:328-330 | every fallback line starts with its bold number |
| LevelCommands.Listing | cogs/levels.py:326-330 | line i of the listing is row i, numbered i+1 |
| LevelCommands.ConcatStartsWith | cogs/levels.py:325-330 | the description starts with its first line |
| LevelCommands.FallbackDescription | cogs/levels.py:325-333 | with no rows the description is "No data yet."; otherwise it is the numbered lines in order, starting with "**1.** " |
| LevelCommands.ImageEntries | cogs/levels.py:268-310 | the image rows are numbered from 1 and show the leaderboard's XP in order |
| LevelCommands.ImageBarsBounded | cogs/levels.py:306-310 | each row's 300-pixel bar is drawn against 100 (level+1)^2 of its level, stays within its width and is never full |
| LevelCommands.LeaderboardFallback | cogs/levels.py:244-333 | fetches the guild's leaderboard with the clamped limit, so at most 20 rows, and describes them |

## Left out

- Discord and the database are not modelled: sending messages, DMs, embeds, image drawing, avatars and fonts, command parsing and permissions, slash-command syncing, connecting, the schema, and the choice between Postgres and SQLite.
- Concurrency and the `asyncio` timer: `remove_role_after`'s one-hour and one-day sleep is returned as a delay, and `RemoveRoleAfter` models what happens when it wakes up.
- The clock: `time.time()` and `datetime.now()` are the integer parameter `now`, in seconds.
- Exceptions from the database or the platform inside `on_message`'s `try` blocks are not modelled, besides the failing `mute_member` call. They skip the rest of the block, for example the spam-tracker reset.
- Failures of `add_roles`, `remove_roles`, `create_role` and `set_permissions` are not modelled. Per-channel permission overrides of the Muted role are not modelled either. In `cogs/mods.py` the modelled failures are a closed DM inbox and a refused kick or ban.
- Strings.Lower: only ASCII letters are lower-cased. Python's `str.lower` also lower-cases other letters ("É" becomes "é"), so texts that differ only in the case of such letters count as different messages in the model.
- Store.Database.AddXp, Store.Database.SetXp and Store.Database.AddWarn: the model's counts are unbounded. In the tables, XP is a 64-bit integer (BIGINT in Postgres), and in Postgres the warn count is a 32-bit INTEGER. A value beyond those widths makes the query fail there, which the model does not capture.
- Store.Database.GetLeaderboard: the limit is a natural number, because Postgres and SQLite treat a negative LIMIT differently. Ties in XP may come in any order, as the SQL does not fix one.
- Store.XpToLevel: computed exactly. The source's `math.sqrt` on a float can differ for XP beyond about 2^52.
- LevelCommands.Fill: the progress is a float in the source (`min(1.0, xp / next)`, then `int(width * progress)`). The model truncates the exact quotient, so float rounding is not modelled.
- ModCommands.Member.Mute: platform errors other than a refusal, such as the 28-day timeout limit, and `timedelta` overflow all give the generic error reply. They are not modelled. `int()` also accepts surrounding whitespace and underscores, which the model's integer reader does not.
- `level_up` messages: `send_level_up_message` only sends the level that `OnMessage` returns.
- The `misc` cog is not part of this model.

## Findings

| source | as written | input that shows it | evidently intended | confidence | as-written member | corrected member |
|---|---|---|---|---|---|---|
| cogs/levels.py:100,176,306 | the next-level threshold is `((level + 1) / 0.1) ** 2`, which is 100 (level+1)^2, the least XP of level+2 | XP 0, level 1: the bar shows 0/400, but level 2 is reached at 100 XP | the least XP of level+1, which is 100 level^2 | not executed | LevelCommands.ThresholdSkipsALevel | LevelCommands.NextLevelXpIsNextLevel |
| cogs/mods.py:53,55,65,66 | `member.send` of the mute notice is not in a `try`, so a closed DM inbox raises before `remove_role_after` is scheduled | third warn of a member whose DMs are closed: the Muted role is added and never removed | the DM best-effort like the warn DMs, so the removal is always scheduled | not executed | ModCog.MuteNeverLiftedAsWritten | ModCog.EscalateTable |
| cogs/mods.py:68,70,106,107 | an exception from `handle_warn_escalation` (a closed DM inbox on a mute, a refused kick or ban) leaves `on_message` before the window is cleared | a member with closed DMs, two warns, sends one text five times: warn 3 raises, and each further copy warns again | the window cleared after every spam warn | not executed | ModCog.StuckWindowWarnsAgain | ModCog.FiveSameWarnOnce |
| main.py:92,94,108 | with a cog named "Mod" loaded, `mod_cog.mute_member` does not exist, so warns 3 and 4 raise inside the `try` and skip the tracker reset | two warns stored, seven identical messages: warns 3 and 4 give no mute, and the seventh message warns a fifth time and kicks | a mute of 3600 or 86400 seconds and the entry reset | not executed | MessageEvents.MuteFailureRepeatsWarn | MessageEvents.FiveIdenticalWarnOnce |
