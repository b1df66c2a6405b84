# Verified model of the Red-DiscordBot cogs

This project is a Dafny model of the state logic of a collection of cogs (plugins) for a Red-DiscordBot chat bot.
Each cog keeps a small persisted record per guild, channel or message. Its event handlers and commands make guarded changes to that record.
The model keeps those records and changes. It leaves out the chat platform: sending, editing and deleting messages, channels and roles, and embeds.

Modules, one per source file:

- `Giveaways`, `GiveawayParse` and `GiveawayCogs` (`giveaway.dfy`, `giveaway_parse.dfy`, `giveaway_cog.dfy`) model the giveaway cog:
  - a record moving `active → ended → claimed | cancelled`;
  - entries changed by reactions, the winner draw, claims and the claim-timeout redraw;
  - host reroll, edit, end and cancel;
  - the builder drafts, the argument and flag parsing, and restart recovery;
  - the in-memory timer table `_end_tasks`. Its cancel-before-arm discipline keeps one live task per key only with a corrected `finally`, which pops a key only while it still names the finishing task. The `finally` as written can leave a live task that no key names (see Findings).
- `Counting` (`counting.dfy`) models the counting game: current count, last user, streak limit, highest record, ruin reset, goals and milestones, and the settings commands.
- `Applications` (`applications.dfy`) models application intake:
  - the form's field list: add, edit, move and delete, from commands and from modals;
  - the answer checks on submission;
  - `pending → approved | denied` decisions, and cleanup of due applications;
  - the bypass, access and manager role lists.
- `SelfRoles` (`selfroles.dfy`) models self-roles:
  - the per-user builder of role assignments and exclusive groups;
  - the published message configurations;
  - the role toggles, which keep a group exclusive;
  - the button custom-id round trip and the colour parse.
- `AutoVc` (`autovc.dfy`) models auto voice channels: the sliding-window rate limit, the guard against creating two channels at once, the claim delay, and cleanup of the created and claimable maps.
- `RemindMe` (`remindme.dfy`) models reminders:
  - the global timer list: add, find, remove and fire;
  - the command's argument parsing;
  - preset resolution: the user's own presets first, then published ones;
  - restart recovery.
- `TextReplace` (`textreplace.dfy`) models regex text rules: numbered rules with a counter that only grows, import and export, and the cache of rules that compile.
- `LinkReplacer` (`linkreplacer.dfy`) models `*`-wildcard URL rules: the glob match, the template fill and the word-by-word rewrite.
- `ChannelNotify` (`channelnotify.dfy`) and `FixupxNudge` (`fixupxnudge.dfy`) model two cooldown-gated reply features; the second also matches the X/Twitter post-link pattern.
- `MassRole` (`massrole.dfy`) models bulk role assignment: the retry policy, the tally, the progress cadence and member selection.
- `Text`, `Seqs` and `Wrappers` hold the Python string and list operations the cogs use, plus `Option`.

How the outside world enters the model:

- The clock is an integer argument `now`.
- A random draw is any draw that `random.sample` could return.
- The platform's answers are arguments, such as whether a channel still exists or what an add-role call answered.
- Red's duration parser and Python's regex engine are function arguments.

Where the code does something a reader might not expect, the model follows the code, except for the four defects listed under Findings. For each of those, both the code as written and a corrected version are modelled, and the stateful members use the corrected version (see Left out). The model follows the code in these cases:

- A giveaway whose channel or message is gone when it ends is deleted.
- Every accepted claim pops the claim timer.
- A reroll takes a `claimed` giveaway back to `ended`.
- Re-submitting an application keeps the earlier decision's cleanup time.
- Setting a counting goal keeps the last announced goal.

## Model

| member | source | states |
|---|---|---|
| Giveaways.Sample | giveaway/giveaway.py:711-713 | the draw returns `k` picks taken from distinct positions of the pool |
| Giveaways.SampleDistinct | giveaway/giveaway.py:713 | a draw from distinct entrants names distinct entrants, all from the pool |
| Giveaways.Entered | giveaway/giveaway.py:1009-1023 | a reaction with the giveaway's emoji on an active giveaway appends the user once; any other reaction, and a user already entered, changes nothing; no other user and no other field changes |
| Giveaways.EnteredIdempotent | giveaway/giveaway.py:1016-1017 | reacting twice enters the user once |
| Giveaways.Left | giveaway/giveaway.py:1032-1045 | removing the giveaway's reaction on an active giveaway drops exactly that user from the entries; otherwise nothing changes |
| Giveaways.LeftUndoesEntered | giveaway/giveaway.py:1015-1045 | removing a reaction undoes adding it |
| Giveaways.ReactionsKeepWellFormed | giveaway/giveaway.py:1009-1045 | entering and leaving keep a record well formed: entrants distinct, winners among entrants, claimers among winners |
| Giveaways.EndDrawSize | giveaway/giveaway.py:709-713 | the end draw picks `min(winner count, entrants)` winners: none only when nobody entered |
| Giveaways.AfterEnd | giveaway/giveaway.py:715-729 | ending sets status `ended`, the drawn winners and no claimers, and a claim deadline `claim_seconds` on exactly when claiming is on, the window is non-zero and someone won; entries, prizes and count are kept |
| Giveaways.EndedWellFormed | giveaway/giveaway.py:708-729 | ending an active giveaway with a draw from its entrants keeps it well formed, with `min(count, entrants)` winners and none when nobody entered |
| Giveaways.ClaimCheck | giveaway/giveaway.py:866-878 | a claim is refused when the giveaway is missing or not `ended`, then when the user is not a winner, then when they already claimed; it is accepted exactly when none of these holds |
| Giveaways.ClaimedBy | giveaway/giveaway.py:879-888 | a claim appends the claimer, and the status becomes `claimed` (with the claimed flag) exactly when the claimers now number at least the winners; winners, entries and deadline are kept |
| Giveaways.ClaimKeepsWellFormed | giveaway/giveaway.py:879-888 | an accepted claim keeps the record well formed, and the giveaway becomes `claimed` exactly when every winner has claimed |
| Giveaways.RedrawSize | giveaway/giveaway.py:800-804 | a redraw picks `min(winner count, pool)` winners from the entrants who were not winners, at least one when that pool is not empty |
| Giveaways.Redrawn | giveaway/giveaway.py:808-815 | the timeout redraw replaces the winners, clears the claimers and moves the deadline to `claim_seconds` from now; status, entries and claimed flag are kept |
| Giveaways.RedrawnWellFormed | giveaway/giveaway.py:795-815 | a timeout redraw picks only entrants who were not winners, between one and the winner count of them, and keeps the record well formed |
| Giveaways.Rerolled | giveaway/giveaway.py:1303-1313 | a reroll sets status `ended`, clears the claimed flag and claimers, installs the new winners and moves the deadline only when claiming is on with a non-zero window |
| Giveaways.RerolledWellFormed | giveaway/giveaway.py:1291-1313 | a reroll picks only entrants who were not winners, between one and the winner count of them, and keeps the record well formed |
| Giveaways.AfterCancel | giveaway/giveaway.py:1476-1479 | cancelling sets status `cancelled` and changes nothing else |
| Giveaways.CancelledWellFormed | giveaway/giveaway.py:1476-1479 | a cancelled record stays well formed |
| Giveaways.Edited | giveaway/giveaway.py:1411-1425 | an edit is refused exactly when no prize, no duration of at least a minute and no description is given; otherwise only prize, prizes, description and end time may change |
| Giveaways.WithFirstPrize | giveaway/giveaway.py:1412-1416 | a new prize replaces the first prize and keeps the others in order |
| Giveaways.EditedFields | giveaway/giveaway.py:1411-1420 | an edit replaces the first prize (others kept), the description (stripped, blank meaning none) and the end time `now + duration`, each only when given |
| Giveaways.EditedWellFormed | giveaway/giveaway.py:1408-1429 | editing an active giveaway keeps it well formed |
| Giveaways.Fresh | giveaway/giveaway.py:1249-1268 | a new giveaway is active, well formed, with no entrants or winners, the first prize as the legacy prize and the given settings |
| GiveawayParse.ParsePrizesList | giveaway/giveaway.py:60-67 | the prize loop yields exactly the stripped, non-blank comma- or newline-separated parts, each cut to 256 characters |
| GiveawayParse.PrizesFromParts | giveaway/giveaway.py:62-66 | the loop over the split parts yields at most one prize per part |
| GiveawayParse.PrizesOf | giveaway/giveaway.py:60-67 | at most one prize per comma- or newline-separated part of the text |
| GiveawayParse.PrizesWellFormed | giveaway/giveaway.py:60-67 | every parsed prize is non-empty, at most 256 characters and holds no comma or newline |
| GiveawayParse.SinglePrize | giveaway/giveaway.py:63-66 | a text without separators yields at most one prize: itself, stripped and cut |
| GiveawayParse.PrizesList | giveaway/giveaway.py:566-574 | a non-empty prizes list gives exactly its stripped non-blank entries, in order (`StrippedNonBlank`); otherwise the legacy prize, stripped, when not blank; otherwise none |
| Text.StrippedNonBlank | giveaway/giveaway.py:569-570 | no more entries than given, and every entry is stripped and non-blank |
| Text.StrippedNonBlankComplete | giveaway/giveaway.py:569-570 | every entry that is not blank once stripped is kept, stripped |
| Text.StrippedNonBlankAppend | giveaway/giveaway.py:569-570 | the comprehension works entry by entry: two lists joined give their results joined |
| Text.StrippedNonBlankOne | giveaway/giveaway.py:569-570 | one entry gives its stripped self, or nothing when it is blank |
| GiveawayParse.WinnerCount | giveaway/giveaway.py:577-582 | the winner count is the stored integer when it is at least 1, capped at 50, and 1 otherwise; always within [1, 50] |
| GiveawayParse.WinnerIdsList | giveaway/giveaway.py:585-593 | a non-empty stored list is returned as it is; otherwise the legacy single winner when set, else none |
| GiveawayParse.ClampWinners | giveaway/giveaway.py:1156 | a `--winners` value is clamped into [1, 50] and kept when already inside |
| GiveawayParse.ApplyFlagSegments | giveaway/giveaway.py:1142-1179 | the flag loop applies each ` --` segment in turn, as the per-flag rules define |
| GiveawayParse.ParseStartOptions | giveaway/giveaway.py:1125-1180 | the options are the prizes before the first ` --` with every flag segment applied in order |
| GiveawayParse.StartOptionsOf | giveaway/giveaway.py:1125-1180 | a blank argument gives the defaults; the prizes come only from the text before the first ` --`, whatever flags follow |
| GiveawayParse.ApplyFlagsKeepPrizes | giveaway/giveaway.py:1142-1179 | no sequence of flag segments changes the prizes |
| GiveawayParse.ApplyFlagsKeepsInvariant | giveaway/giveaway.py:1142-1179 | no sequence of flags changes the prizes or breaks the options' bounds |
| GiveawayParse.StartOptionsWellFormed | giveaway/giveaway.py:1125-1180 | whatever the flags say, the options have 1 to 50 winners, a non-empty emoji of at most 100 characters and a non-negative claim window |
| GiveawayParse.WinnersFlag | giveaway/giveaway.py:1153-1158 | a `--winners` value that is not an integer is ignored; an integer is clamped to [1, 50] |
| GiveawayParse.SegmentKeyValue | giveaway/giveaway.py:1146-1149 | a lower-case key, a space and a stripped value split back into that key and value |
| GiveawayParse.ResolveChannel | giveaway/giveaway.py:1213-1229 | a `--channel` argument resolves only to a text channel of the guild; a `<#id>` mention naming a guild channel decides (refused when that channel is not a text channel), otherwise a bare id naming a guild channel decides; any result is the mention's id or the bare id |
| GiveawayParse.LookupId | giveaway/giveaway.py:1222-1224 | a bare id resolves only to a channel whose id it spells |
| GiveawayParse.MentionResolves | giveaway/giveaway.py:1215-1218 | a mention of an existing text channel resolves to that channel |
| GiveawayParse.MentionOf | giveaway/giveaway.py:1215-1218 | any text that `int()` reads as a known text channel's id resolves to that channel when wrapped as a `<#...>` mention |
| GiveawayCogs.TrackedOnePerKey | giveaway/giveaway.py:539-557 | while the timer table is accurate, no two live tasks share a key |
| GiveawayCogs.CancelKeys | giveaway/giveaway.py:539-543 | cancelling by key changes no task's presence, only the cancelled flags of those keys |
| GiveawayCogs.PopCancelTracked | giveaway/giveaway.py:540-543 | popping a key and cancelling its task cancels every task of that key and keeps the table accurate |
| GiveawayCogs.ArmTracked | giveaway/giveaway.py:557 | storing a fresh task under a free key keeps the table accurate |
| GiveawayCogs.CancelKeysTwice | giveaway/giveaway.py:1474-1475 | cancelling two key sets in turn is cancelling their union |
| GiveawayCogs.FinishAsWritten | giveaway/giveaway.py:554-555 | the timer task's `finally` pops its key whatever task the key names by then |
| GiveawayCogs.Finish | giveaway/giveaway.py:554-555 | the intended `finally` pops the key only while it still names the finishing task; every other entry is kept |
| GiveawayCogs.FinishKeepsTracked | giveaway/giveaway.py:554-555 | a task finishing, cancelled or not, keeps an accurate table accurate |
| GiveawayCogs.OrphanedTimer | giveaway/giveaway.py:545-557 | a replaced, cancelled end task finishing after its replacement pops the replacement's key, leaving a live task no key names |
| GiveawayCogs.DraftPrizes | giveaway/giveaway.py:936 | the draft's prizes are read as a record's: each non-blank and stripped |
| GiveawayCogs.DraftDescription | giveaway/giveaway.py:941-943 | a draft description is kept stripped, and a blank one means none |
| GiveawayCogs.DraftEmoji | giveaway/giveaway.py:944 | the draft's emoji, or the party popper when unset or empty |
| GiveawayCogs.DraftWinnerCount | giveaway/giveaway.py:947 | the draft's winner count is read as a record's, within [1, 50] |
| GiveawayCogs.FromDraft | giveaway/giveaway.py:958-977 | the record a launch stores is active and well formed |
| GiveawayCogs.FromDraftFields | giveaway/giveaway.py:936-977 | the stored record carries the draft's prizes, emoji, count, duration, description and claim settings, read with their fallbacks, and has no entrants |
| GiveawayCogs.PlanStart | giveaway/giveaway.py:1200-1234 | `start` refuses a blank prize, then a duration under a minute, then no parsed prize, then a bad `--channel` or a non-text channel; an accepted plan names a text channel and well-formed options |
| GiveawayCogs.FromOptions | giveaway/giveaway.py:1235-1268 | the record `start` stores is active and well formed |
| GiveawayCogs.FromOptionsFields | giveaway/giveaway.py:1235-1268 | the stored record carries the parsed options, and claiming is on exactly when the claim window is at least a minute |
| GiveawayCogs.GiveawayCog.constructor | giveaway/giveaway.py:495-503 | the cog starts with no giveaways, no drafts and an empty timer table |
| GiveawayCogs.GiveawayCog.Put | giveaway/giveaway.py:715-723 | a write-back changes only the one record |
| GiveawayCogs.GiveawayCog.PopAndCancel | giveaway/giveaway.py:541-543 | the key is popped and its task cancelled; the table stays accurate |
| GiveawayCogs.GiveawayCog.CancelTasksFor | giveaway/giveaway.py:539-543 | both keys of the giveaway are popped and their tasks cancelled |
| GiveawayCogs.GiveawayCog.ScheduleEndTask | giveaway/giveaway.py:545-557 | both timers of the giveaway are cancelled, then a fresh end task due `max(delay, 0)` on is the only live task of the giveaway |
| GiveawayCogs.GiveawayCog.ScheduleClaimTask | giveaway/giveaway.py:769-782 | the claim key's task is cancelled (the key stays) and a fresh claim task due `max(delay, 0)` on is stored under it |
| GiveawayCogs.GiveawayCog.FinishTimer | giveaway/giveaway.py:554-555 | a finishing task leaves the table as the intended `finally` defines |
| GiveawayCogs.GiveawayCog.FinishTimerAsWritten | giveaway/giveaway.py:554-555 | a finishing task leaves the table as the `finally` as written defines |
| GiveawayCogs.GiveawayCog.EndGiveaway | giveaway/giveaway.py:688-767 | a non-active giveaway is left alone; a missing channel or message deletes the record; otherwise it ends with a draw from its entrants and arms the claim timer exactly when the claim window opens |
| GiveawayCogs.GiveawayCog.ClaimTimeout | giveaway/giveaway.py:787-860 | when some winner has not claimed and others entered, the winners are redrawn from the others and, while the message is still there and the window is positive, the claim timer is armed again; otherwise nothing changes |
| GiveawayCogs.GiveawayCog.RunHandler | giveaway/giveaway.py:547-553 | a cancelled task changes nothing and draws no winner; a live one runs the end or claim-timeout handler, keeps the table accurate, and a claim redraw with a claim window leaves a newer task under the finishing task's key |
| GiveawayCogs.GiveawayCog.RunTimer | giveaway/giveaway.py:547-555 | with the corrected `finally` (Findings row 1): a cancelled task changes no record and draws no winner; live or cancelled, the timer task is gone from the table afterwards and the table stays accurate |
| GiveawayCogs.GiveawayCog.RunTimerAsWritten | giveaway/giveaway.py:545-557 | with the `finally` as written: the task's key is always popped; a cancelled, replaced task and a claim task whose redraw re-armed (lines 859-860) both leave a live task no key names |
| GiveawayCogs.Orphaned | giveaway/giveaway.py:554-555 | the `finally` as written, run by a task whose key names another task, breaks the one-live-task-per-key invariant |
| GiveawayCogs.GiveawayCog.ClaimClick | giveaway/giveaway.py:862-892 | the reply is the claim checks' verdict; an accepted claim records the claimer, pops the claim key and cancels its timer task, any other leaves everything unchanged |
| GiveawayCogs.GiveawayCog.ReactionAdd | giveaway/giveaway.py:1000-1023 | reactions of the bot itself, of unknown members and of bots change nothing; otherwise the record becomes the entered one |
| GiveawayCogs.GiveawayCog.ReactionRemove | giveaway/giveaway.py:1026-1045 | a reaction removal turns the record into the one with the user left |
| GiveawayCogs.GiveawayCog.Open | giveaway/giveaway.py:1269-1272 | the new record is stored and its end timer, the only live one of the giveaway, is armed `max(delay, 0)` on |
| GiveawayCogs.GiveawayCog.Start | giveaway/giveaway.py:1184-1273 | a refused plan changes nothing; an accepted one whose message was sent stores the record the options describe and arms its end timer at the end time |
| GiveawayCogs.GiveawayCog.GetDraft | giveaway/giveaway.py:506-511 | the draft returned is the user's, empty when there is none |
| GiveawayCogs.GiveawayCog.SetDraftField | giveaway/giveaway.py:513-521 | one field of one user's draft is set, creating the draft if needed; every other field and draft is kept |
| GiveawayCogs.GiveawayCog.ClearDraft | giveaway/giveaway.py:523-529 | the user's draft is dropped and no other |
| GiveawayCogs.GiveawayCog.LaunchFromDraft | giveaway/giveaway.py:927-982 | a launch succeeds exactly when the draft has a prize and the message was sent; then the draft's record is stored, the draft cleared and the end timer armed; otherwise nothing changes |
| GiveawayCogs.GiveawayCog.StoreDraft | giveaway/giveaway.py:978-982 | the launched record is stored, the draft cleared and the end timer armed as the only live task of the giveaway |
| GiveawayCogs.GiveawayCog.Reroll | giveaway/giveaway.py:1277-1354 | `reroll` refuses a non-giveaway, a user who may not manage it, a status other than `ended`/`claimed` and an empty pool; otherwise it draws from the other entrants, stores the rerolled record and re-arms the claim timer when claiming is on |
| GiveawayCogs.GiveawayCog.EndCommand | giveaway/giveaway.py:1363-1382 | `end` refuses a non-giveaway, a user who may not manage it and a non-active giveaway; otherwise it pops both keys, cancels their tasks and ends the giveaway now, arming a claim timer when the end opens a claim window |
| GiveawayCogs.GiveawayCog.EditCommand | giveaway/giveaway.py:1386-1429 | `edit` refuses a non-giveaway, a user who may not manage it, a non-active giveaway and an empty edit; a duration re-arms the end timer at `now + duration` |
| GiveawayCogs.GiveawayCog.CancelCommand | giveaway/giveaway.py:1457-1479 | `cancel` refuses a non-giveaway, a user who may not manage it and a status other than `active`/`ended`; otherwise both timers are popped and cancelled and the record is marked cancelled |
| GiveawayCogs.GiveawayCog.CancelRecord | giveaway/giveaway.py:1474-1479 | both timers are cancelled and popped and the record marked cancelled; nothing else changes |
| GiveawayCogs.GiveawayCog.Reload | giveaway/giveaway.py:1052-1062 | one record's timer is re-armed as its status calls for, and records already reloaded stay so |
| GiveawayCogs.GiveawayCog.CogLoad | giveaway/giveaway.py:1047-1062 | after loading, every active giveaway has its end timer at its end time (or now) and every unclaimed ended one with an open window its claim timer at the deadline (or now) |
| GiveawayCogs.GiveawayCog.Unload | giveaway/giveaway.py:1064-1068 | every task is cancelled and the table emptied |
| Counting.Fresh | counting/counting.py:264-280 | a new channel is enabled at count 0 with no record, a streak limit of one, ruin off, reactions on, and no goal, interval, last user or streak |
| Counting.Restarted | counting/counting.py:373-390 | the count is set to the restart value with no last user, streak or announced goal; every setting and the record are kept |
| Counting.Missed | counting/counting.py:698-764 | a missed count raises the record to the count; with ruin on the count goes to 0 with no last user or streak, with ruin off the count, last user and streak holder stay; a sane record stays sane |
| Counting.Advanced | counting/counting.py:818-836 | the count goes up by one, the author becomes last user and streak holder, the streak grows for the same holder and is 1 otherwise, the record is at least the new count; a sane record stays sane |
| Counting.Recorded | counting/counting.py:701-702 | the record is raised to the count exactly when the count beat it |
| Counting.Milestone | counting/counting.py:852 | the milestone is the largest multiple of the interval not above the count |
| Counting.FloorMultiple | counting/counting.py:852 | `(n // interval) * interval` is that milestone |
| Counting.Announcement | counting/counting.py:845-867 | a goal is announced exactly when the fixed goal is reached or a new positive milestone is, never the one announced last |
| Counting.Step | counting/counting.py:680-872 | judging a message keeps a sane record sane and always does something |
| Counting.Judge | counting/counting.py:694-835 | a message is not a number exactly when it does not parse, a wrong number exactly when it parses to anything but the next count, and accepted only when it is the next count from a user allowed to count it |
| Counting.CountAccepted | counting/counting.py:730-836 | a message is counted exactly when it is the next number and the same-user rule and the streak limit allow its author; then the count goes up by one, the author becomes the last user and the record follows |
| Counting.WrongNumberHandled | counting/counting.py:698-764 | an unparsable or wrong number is deleted and raises the record to the count; with ruin on the count restarts at zero with nobody as last user or streak holder and no goal announced |
| Counting.SameUserRejected | counting/counting.py:769-801 | with a streak limit of one the last user counting again is deleted, and only with ruin on is the count restarted |
| Counting.StreakLimit | counting/counting.py:802-835 | above a limit of one the streak holder is refused once the streak reached the limit; below it the streak grows by one, and another user starts a streak of one |
| Counting.GoalAnnouncedOnce | counting/counting.py:845-868 | an accepted count records what it announced, so a goal is never announced twice in a row |
| Counting.GoalToAnnounce | counting/counting.py:845-864 | the handler's milestone-then-goal check computes the announcement |
| Counting.Judged | counting/counting.py:680-872 | the handler's branches, step by step, compute what `Step` says |
| Counting.CountingCog.constructor | counting/counting.py:18-37 | no counting channels |
| Counting.CountingCog.OnMessage | counting/counting.py:663-872 | bots, direct messages and channels not enabled for counting change nothing; otherwise the channel's record moves as `Step` says |
| Counting.CountingCog.SetChannel | counting/counting.py:254-285 | a new channel gets the fresh record; an existing one is re-enabled and otherwise kept |
| Counting.CountingCog.Disable | counting/counting.py:288-300 | a configured channel is disabled; an unknown one is reported |
| Counting.CountingCog.SetGoal | counting/counting.py:303-335 | a negative goal is refused; 0 or none clears the goal; nothing else changes |
| Counting.CountingCog.SetGoalInterval | counting/counting.py:337-371 | a negative interval is refused; 0 or none turns milestones off; the last announced goal is forgotten |
| Counting.CountingCog.ResetCount | counting/counting.py:373-390 | the next count is 1 and anyone may make it |
| Counting.CountingCog.SetNextNumber | counting/counting.py:392-422 | a next number below 1 is refused; otherwise the count becomes one less |
| Counting.CountingCog.SetConsecutive | counting/counting.py:496-523 | a limit below 1 is refused; otherwise it is stored |
| Counting.CountingCog.SetRuin | counting/counting.py:525-549 | the ruin flag of a configured channel is set |
| Counting.CountingCog.SetRuinMessage | counting/counting.py:551-580 | a message over 2000 characters is refused; otherwise it is stored |
| Counting.CountingCog.SetReactions | counting/counting.py:582-606 | the reactions flag of a configured channel is set |
| Counting.CountingCog.SetRecord | counting/counting.py:608-634 | a negative record is refused; otherwise it is stored |
| Counting.CountingCog.RemoveRecord | counting/counting.py:636-660 | the record goes back to 0 |
| Applications.ParseType | applications/applications.py:329-335 | a type name is accepted exactly when it is one of `text`, `paragraph`, `number`, `select`, `confirm`; `select` and `confirm` are the two types with a payload |
| Applications.ParseRequired | applications/applications.py:337-344 | the required flag is true exactly for `true`/`yes`/`1`/`required` and false exactly for `false`/`no`/`0`/`optional`; anything else is refused |
| Applications.OptionsOf | applications/applications.py:354 | the options split from one comma-separated line are each non-blank and already stripped |
| Applications.Names | applications/applications.py:1740 | the names of the form's fields, one per field, in form order |
| Applications.DefaultForm | applications/applications.py:872-887 | a guild's starting form has two fields, `name` and `reason`, and is well formed (distinct names, valid kinds) |
| Applications.ModalKind | applications/applications.py:346-369 | the modal accepts a select field exactly when it has two or more options and a confirm field exactly when its text is not empty, and the accepted kind carries those options or that text |
| Applications.CommandKind | applications/applications.py:1672-1705 | the command accepts a select field exactly when its argument yields two or more options and a confirm field exactly when its stripped text is not blank; a select argument with no option left is refused as having none |
| Applications.FieldFromModal | applications/applications.py:321-392 | an accepted modal field is well formed, has no placeholder, a stripped lower-cased name, the stripped caption and the flag its required word names; it is accepted exactly when type, flag and payload all pass |
| Applications.ModalFieldChecks | applications/applications.py:329-369 | the add and edit modals refuse a field exactly when the type, the required word, the select options or the confirm text fails its check, in that order |
| Applications.FieldFromCommand | applications/applications.py:1667-1724 | `field add` keeps name and caption as typed, lower-cases only the type, and accepts exactly when the type is known and the payload passes; the result is well formed |
| Applications.Unnamed | applications/applications.py:657 | the kept fields are exactly those whose name differs from the deleted one |
| Applications.UnnamedNames | applications/applications.py:1745 | deleting by name removes that name from the name list and nothing else; deleting a name no field has changes nothing |
| Applications.UnnamedKeepsForm | applications/applications.py:1745 | deleting by name keeps the form well formed and removes exactly one field when the name was present |
| Applications.Swapped | applications/applications.py:681-684 | the two chosen positions exchange their fields and every other position keeps its field |
| Applications.SwapTwice | applications/applications.py:698-701 | moving a field and moving it back restores the form |
| Applications.SwapKeepsForm | applications/applications.py:680-701 | reordering keeps the form well formed |
| Applications.FirstMatch | applications/applications.py:101-106 | the match is an option equal to the answer ignoring case, and there is none exactly when no option is equal ignoring case |
| Applications.MatchOption | applications/applications.py:101-106 | the submit handler's option loop finds the first option equal to the answer ignoring case |
| Applications.StrippedInputs | applications/applications.py:94 | every submitted input is read stripped, under the same field names |
| Applications.SelectAnswer | applications/applications.py:96-115 | a select answer is accepted exactly when some option equals it ignoring case, and the stored value is such an option as configured |
| Applications.ConfirmAnswer | applications/applications.py:117-129 | a confirm answer is accepted exactly when it equals the confirmation text ignoring case, and the stored value is that text |
| Applications.PlainAnswer | applications/applications.py:131 | text, paragraph and number answers are stored as typed (stripped) |
| Applications.CheckAllErrors | applications/applications.py:85-131 | the submission reports no error exactly when every answered field's answer is accepted |
| Applications.CheckAllKeys | applications/applications.py:85-131 | responses are recorded only under names of fields that were answered |
| Applications.CheckAllValues | applications/applications.py:85-131 | with distinct field names, every accepted answer is recorded under its field's name with its checked value |
| Applications.CheckField | applications/applications.py:94-131 | the loop body for one field yields the answer the checks define for it |
| Applications.Validate | applications/applications.py:80-131 | the submit loop builds exactly the responses and the error list the per-field checks define, over the stripped inputs |
| Applications.Submitted | applications/applications.py:1032-1043 | a submitted record is pending with the new channel, time and responses; an earlier record keeps all its other fields, a new one has no decision and no cleanup time |
| Applications.ResubmitKeepsCleanup | applications/applications.py:1033-1043 | submitting again after a decision makes the record pending while it keeps the cleanup time the decision scheduled |
| Applications.Existing | applications/applications.py:2077 | the access roles kept are exactly the listed ones the guild still has |
| Applications.ApprovalRoles | applications/applications.py:2054-2092 | approval removes the restricted role only when it is set and the member holds it, and otherwise (no restricted role set) adds the listed access roles that still exist |
| Applications.Truncated | applications/applications.py:1241-1242 | a response longer than the limit is shown as its first limit−3 characters and `...`, so the shown text never exceeds the limit; shorter ones are shown whole |
| Applications.AnyHeld | applications/applications.py:911 | true exactly when the member holds one of the listed roles |
| Applications.HasBypassRole | applications/applications.py:904-911 | a member bypasses the application exactly when they hold one of the bypass roles |
| Applications.CanManage | applications/applications.py:913-925 | a user may manage applications exactly when they have the manage-guild permission or hold a manager role |
| Applications.ListEdited | applications/applications.py:1417-1429 | `add` yields the list plus the role, `remove` the list without it, and neither introduces a duplicate |
| Applications.AddThenRemove | applications/applications.py:1417-1429 | adding a role that is not listed and then removing it gives back the original list |
| Applications.GuildApplications.constructor | applications/applications.py:862-889 | a new guild's settings: disabled, no roles, cleanup delay 24 hours, the default form and no applications |
| Applications.GuildApplications.FindField | applications/applications.py:1789-1798 | the index found is the first field with the name, and none is found exactly when no field has it |
| Applications.GuildApplications.AppendField | applications/applications.py:371-394 | a field whose name is taken is refused and the form is unchanged; otherwise it is appended at the end; the form stays well formed |
| Applications.GuildApplications.AddFieldModal | applications/applications.py:321-394 | the modal's field is appended exactly when its inputs pass the checks and its name is free; a refusal leaves the form unchanged |
| Applications.GuildApplications.AddFieldCommand | applications/applications.py:1648-1726 | `field add` appends the parsed field exactly when it is accepted and its name is free; a refusal leaves the form unchanged |
| Applications.GuildApplications.ReplaceField | applications/applications.py:522-559 | the field first named as the original is replaced at the same index and keeps its placeholder; a missing original or a rename onto another field's name is refused and changes nothing |
| Applications.GuildApplications.EditFieldModal | applications/applications.py:471-559 | the edit modal checks its inputs as the add modal does, then replaces the field in place; a refusal leaves the form unchanged |
| Applications.GuildApplications.MoveField | applications/applications.py:675-708 | the reply is no fields for index -1, not found past the end, at top / at bottom for a move off either end, and done otherwise, when the chosen field and its neighbour above or below are swapped; refusals change nothing and the form stays well formed |
| Applications.GuildApplications.DeleteFieldConfirmed | applications/applications.py:655-657 | the confirmed delete drops every field with the chosen name and keeps the form well formed |
| Applications.GuildApplications.RemoveFieldCommand | applications/applications.py:1737-1745 | `field remove` refuses a name no field has and otherwise removes exactly that one field |
| Applications.GuildApplications.SetOptions | applications/applications.py:1783-1812 | for an existing field the reply is not-a-select, no options, too few options (under two) or done, in that order, and done replaces exactly that field's options; every refusal leaves the form unchanged |
| Applications.GuildApplications.SetConfirmText | applications/applications.py:1816-1841 | for an existing field the reply is not-a-confirm, empty text (blank once stripped) or done, in that order, and done replaces exactly that field's text with the stripped text; every refusal leaves the form unchanged |
| Applications.GuildApplications.Submit | applications/applications.py:1028-1045 | the applicant's record becomes the submitted one and no other record changes |
| Applications.GuildApplications.SubmitForm | applications/applications.py:80-140 | any answer error means nothing is submitted; otherwise the checked responses are submitted for the applicant |
| Applications.GuildApplications.Approve | applications/applications.py:2040-2105 | the reply is no application, already decided (with its status) or decided, and it is decided for every pending application, which then records the approver and time, schedules cleanup `cleanup_delay` hours on and yields the role change; otherwise nothing changes |
| Applications.GuildApplications.Deny | applications/applications.py:2167-2192 | the reply is no application, already decided (with its status) or decided, and it is decided for every pending application, which then records the decider, time and any given reason and schedules cleanup; otherwise nothing changes |
| Applications.DecisionFor | applications/applications.py:2040-2050 | decided exactly for a pending application; no application exactly when the member has none; otherwise already decided with the stored status, which is not pending |
| Applications.GuildApplications.ApproveCommand | applications/applications.py:2036-2105 | `approve` answers system disabled while the system is off and otherwise as `Approve`: every pending application is approved with its cleanup scheduled and the role change applied |
| Applications.GuildApplications.DenyCommand | applications/applications.py:2163-2192 | `deny` answers system disabled while the system is off and otherwise as `Deny`: every pending application is denied with the non-empty reason, if any, and its cleanup scheduled |
| Applications.GuildApplications.ApproveButton | applications/applications.py:200-225 | the approve button answers no permission to a non-manager and otherwise as `Approve`: every pending application is approved and the role change applied |
| Applications.GuildApplications.DenyModal | applications/applications.py:2341-2371 | the deny modal answers no permission to a non-manager (the deny button's check) and otherwise as `Deny`: every pending application is denied with the typed reason stored |
| Applications.GuildApplications.Close | applications/applications.py:2520-2546 | closing drops exactly the applicant's record and reports whether there was one |
| Applications.GuildApplications.Cleanup | applications/applications.py:2621-2672 | when enabled, exactly the applications whose cleanup time has come are dropped, and the count is of those whose channel was deleted or already gone; when disabled nothing changes |
| Applications.GuildApplications.Toggle | applications/applications.py:1370-1378 | with no argument the switch flips, otherwise it takes the given value |
| Applications.GuildApplications.SetRestrictedRole | applications/applications.py:1383-1395 | the restricted role becomes the given role, or none when none is given |
| Applications.GuildApplications.SetCleanupDelay | applications/applications.py:1533-1539 | a negative delay is refused and the delay kept; otherwise the delay becomes the given hours |
| Applications.GuildApplications.EditRoleList | applications/applications.py:1402-1491 | an action other than add/remove (any case) is invalid, no role is refused; add answers already listed or added, remove answers removed or not listed, editing the chosen list as `ListEdited` does, and the lists stay free of duplicates |
| Applications.ScanDue | applications/applications.py:2630-2660 | the scan selects exactly the applications whose cleanup time has come and counts those whose channel was deleted or already gone, a subset of them |
| SelfRoles.ParseMethod | selfroles/selfroles.py:231-242 | a method word is accepted exactly when it names button, reaction, both or command |
| SelfRoles.MethodNameRoundTrip | selfroles/selfroles.py:237 | every method's name is accepted as that method |
| SelfRoles.FirstFor | selfroles/selfroles.py:417-419 | the first assignment for the role, or none exactly when no assignment is for it |
| SelfRoles.MentionId | selfroles/selfroles.py:248-250 | a role mention is only read at the start of the text |
| SelfRoles.DigitRun | selfroles/selfroles.py:248 | `\d+` takes the longest run of digits that starts the text |
| SelfRoles.MentionRoundTrip | selfroles/selfroles.py:247-251 | a mention written for a role id gives that id back, whatever follows it |
| SelfRoles.RoleById | selfroles/selfroles.py:251 | `get_role` finds a guild role with that id, or none exactly when no role has it |
| SelfRoles.FirstNamed | selfroles/selfroles.py:262-279 | the first guild role whose name passes the test, or none exactly when none does |
| SelfRoles.ResolveRole | selfroles/selfroles.py:244-286 | a resolved role is a guild role; a mention of a guild role resolves to it, else a raw id of a guild role does, and an exact name always resolves; nothing resolves only when no name even partly matches |
| SelfRoles.ParseEmoji | selfroles/selfroles.py:1023-1040 | the emoji is the stripped text, absent exactly when blank |
| SelfRoles.ButtonLabel | selfroles/selfroles.py:328-331 | the label, or the role name when blank, fits in 80 characters, cut to 77 and `...` when longer |
| SelfRoles.NewAssignment | selfroles/selfroles.py:323-339 | the assignment has the role and method; a label and button emoji exactly for buttons, a reaction emoji exactly for reactions, and the group when one was typed |
| SelfRoles.AddedRole | selfroles/selfroles.py:338-348 | the assignment is appended and the role joins its group's list once; other groups are unchanged |
| SelfRoles.AddKeepsGroupsMatch | selfroles/selfroles.py:338-348 | adding keeps every role listed exactly in the group its assignment names |
| SelfRoles.Deleted | selfroles/selfroles.py:426-439 | the assignment is dropped, its role leaves its group's list and an emptied list is deleted |
| SelfRoles.RemovedAtKeepsIds | selfroles/selfroles.py:428 | after the removal the role ids stay distinct and lack the removed one |
| SelfRoles.UnassignedUnlisted | selfroles/selfroles.py:338-348 | a role without an assignment is in no group's list |
| SelfRoles.AddThenDelete | selfroles/selfroles.py:338-348 | deleting a role just added gives back the builder it was added to |
| SelfRoles.CustomId | selfroles/selfroles.py:18-29 | a button's custom id is the prefix followed by the role id |
| SelfRoles.ParseCustomId | selfroles/selfroles.py:1607-1615 | only ids with the prefix are read, as the integer after it |
| SelfRoles.CustomIdRoundTrip | selfroles/selfroles.py:29 | a button's custom id leads back to its role after a restart |
| SelfRoles.DispatchedRole | selfroles/selfroles.py:1603-1616 | only unanswered component interactions whose custom id parses are handled, for the role it names |
| SelfRoles.ParseHex | selfroles/selfroles.py:146 | `int(s, 16)` needs some non-blank text, and plain hex digits read as their value |
| SelfRoles.ToHex | selfroles/selfroles.py:146 | the inverse of `int(hex, 16)`: `width` lower-case hex digits whose value is `n` |
| SelfRoles.LStripHash | selfroles/selfroles.py:143 | only leading `#`s are removed, all of them |
| SelfRoles.ParseColour | selfroles/selfroles.py:139-155 | blank text is no colour; a value comes only from six characters that parse; any other non-empty text is kept as the hex string |
| SelfRoles.HashStripped | selfroles/selfroles.py:143 | one `#` before text not starting with one is removed |
| SelfRoles.LowerHexParses | selfroles/selfroles.py:146 | lower-case hex digits parse to their value |
| SelfRoles.ColourRoundTrip | selfroles/selfroles.py:139-155 | a colour written as `#` and six hex digits is read back with its value |
| SelfRoles.AssignmentFor | selfroles/selfroles.py:1117-1119 | the first assignment for a role, or none exactly when none is for it |
| SelfRoles.GroupRoles | selfroles/selfroles.py:1120-1123 | roles to weigh come only from a group the assignment names |
| SelfRoles.Granted | selfroles/selfroles.py:1120-1134 | the role is added, the member's other roles of its group that the guild has are taken away, and nothing else changes |
| SelfRoles.Toggled | selfroles/selfroles.py:1101-1137 | a held role is taken away, any other granted keeping its group exclusive |
| SelfRoles.ButtonClick | selfroles/selfroles.py:1072-1137 | refused outside a guild, for a deleted role or an unconfigured message; otherwise the role is toggled |
| SelfRoles.Matches | selfroles/selfroles.py:1538-1550 | exactly the assignments offered by command whose role name contains the typed text, ignoring case |
| SelfRoles.RoleCommand | selfroles/selfroles.py:1533-1592 | no match and several matches are refused; a single match toggles its role keeping its group exclusive |
| SelfRoles.ReactionIndex | selfroles/selfroles.py:1641-1648 | the first reaction-offering assignment with the reacted emoji, or none exactly when none has it |
| SelfRoles.ReactionRole | selfroles/selfroles.py:1632-1651 | a reaction is for a role only on a configured message offering it by reaction |
| SelfRoles.ReactionAdded | selfroles/selfroles.py:1619-1689 | bots and unconfigured emoji are ignored; a deleted role is reported stale; with the manage-roles right, a manageable role not yet held is granted keeping its group exclusive; a held role, no right or a role too high does nothing |
| SelfRoles.ReactionRemoved | selfroles/selfroles.py:1708-1758 | bots and unconfigured emoji are ignored; a deleted role is reported stale; with the manage-roles right, a held role is taken away and nothing else; without the right or for a role not held nothing happens |
| SelfRoles.WithoutRole | selfroles/selfroles.py:1785 | exactly the assignments for other roles remain, and their role ids stay distinct |
| SelfRoles.CheckAdd | selfroles/selfroles.py:228-301 | the method word, then the role, then the manage-roles right, then the ranking decide, in that order |
| SelfRoles.ModalEmbed | selfroles/selfroles.py:137-158 | the title as typed; blank description, footer and thumbnail are absent; the colour as read |
| SelfRoles.SendCheckOf | selfroles/selfroles.py:696-741 | the channel select opens exactly for an open builder with a titled embed, at least one role and a channel the bot can write to |
| SelfRoles.ConfiguredIsSendable | selfroles/selfroles.py:696-741 | a builder given a titled embed and a role can be sent |
| SelfRoles.SelfRoleStore.constructor | selfroles/selfroles.py:1004-1021 | no builders and no messages |
| SelfRoles.SelfRoleStore.Session | selfroles/selfroles.py:305-313 | the user's builder, or an empty one |
| SelfRoles.SelfRoleStore.ConfigureEmbed | selfroles/selfroles.py:137-169 | the embed is stored in the user's builder, opening one if needed |
| SelfRoles.SelfRoleStore.AddRole | selfroles/selfroles.py:228-348 | once the checks pass, a role already in the builder is refused and any other is added with its group, answering role added |
| SelfRoles.SelfRoleStore.AddAssignment | selfroles/selfroles.py:312-348 | added exactly when the role was not in the builder; then the builder gains it |
| SelfRoles.SelfRoleStore.DeleteRole | selfroles/selfroles.py:396-444 | done exactly for a guild role assigned in the user's builder, when the assignment and its group entry go; refused for a deleted role, no builder or no assignment |
| SelfRoles.SelfRoleStore.Publish | selfroles/selfroles.py:905-987 | done exactly when the channel is found, the user has a builder and the message is sent; the builder then becomes that message's configuration and is closed; otherwise nothing changes |
| SelfRoles.SelfRoleStore.Cancel | selfroles/selfroles.py:872-876 | the user's builder is discarded |
| SelfRoles.SelfRoleStore.DeleteMessage | selfroles/selfroles.py:1428-1451 | done exactly for a configured message, which is forgotten; an unknown one is reported |
| SelfRoles.SelfRoleStore.Refresh | selfroles/selfroles.py:1455-1529 | done exactly for a configured message whose channel is found and which is sent again; its configuration moves unchanged to the new id |
| SelfRoles.SelfRoleStore.CleanupInvalidRole | selfroles/selfroles.py:1776-1789 | a deleted role's assignments leave the message's configuration, groups untouched |
| SelfRoles.SelfRoleStore.OnReactionAdd | selfroles/selfroles.py:1619-1705 | acts as `ReactionAdded` says and cleans a deleted role out of the configuration |
| SelfRoles.SelfRoleStore.OnReactionRemove | selfroles/selfroles.py:1708-1774 | acts as `ReactionRemoved` says and cleans a deleted role out of the configuration |
| AutoVc.ParseKind | autovc/autovc.py:113-118 | a type word is accepted exactly when it names public, personal or private |
| AutoVc.NewVc | autovc/autovc.py:479-492 | a created channel has an owner exactly when personal or private, that owner being the member, and an owner role only then |
| AutoVc.Recent | autovc/autovc.py:70-74 | exactly the creation times after the cutoff remain, in order |
| AutoVc.RecentIdempotent | autovc/autovc.py:70-74 | pruning twice with the same cutoff prunes nothing more |
| AutoVc.RecentKeepsRecent | autovc/autovc.py:70-74 | times all within the window are kept as they are |
| AutoVc.ClaimCheck | autovc/autovc.py:288-335 | a claim succeeds exactly for a created channel with a claim record at least five minutes old; the remaining wait is reported in whole seconds |
| AutoVc.LeaveDecision | autovc/autovc.py:589-628 | nothing for an untracked channel or a member who stayed; deleted exactly when empty and not under two seconds old; made claimable exactly when its owner left others behind |
| AutoVc.JoinResult | autovc/autovc.py:518-586 | created exactly when a source was joined, the member is not being processed, the pruned window has room and the channel was made, and then it names that channel; rate limited exactly when the window is full |
| AutoVc.AfterLeave | autovc/autovc.py:589-628 | other channels keep their records and claims; the channel left stops being tracked exactly when it is deleted; a claimable channel records its claim |
| AutoVc.Doomed | autovc/autovc.py:697-715 | exactly the created channels that are gone or empty |
| AutoVc.Dropped | autovc/autovc.py:743-747 | the records without the given keys, the rest untouched |
| AutoVc.AutoVcState.constructor | autovc/autovc.py:17-45 | no sources, channels, claims, member role, rate limits or marks |
| AutoVc.AutoVcState.CheckRateLimit | autovc/autovc.py:61-79 | the member's times are pruned to the last 30 seconds and the member is limited exactly when three or more remain |
| AutoVc.AutoVcState.RecordCreation | autovc/autovc.py:81-86 | one more creation time is recorded for the member |
| AutoVc.AutoVcState.AddSource | autovc/autovc.py:97-146 | refused for an unknown type or without a category; otherwise the source is stored with its type and category |
| AutoVc.AutoVcState.RemoveSource | autovc/autovc.py:150-165 | reports whether the channel was a source, and it no longer is |
| AutoVc.AutoVcState.SetMemberRole | autovc/autovc.py:255-274 | the member role is set, or cleared with no role |
| AutoVc.AutoVcState.ClaimVc | autovc/autovc.py:278-378 | the checks decide the reply; a claim removes the claim record and passes an owned channel to the claimant when the new owner role was made |
| AutoVc.AutoVcState.Join | autovc/autovc.py:518-586 | the outcome is `JoinResult`: not a source, already processing (marked under five seconds ago), rate limited (the pruned window already full), creation failed, or created; a creation marks the member, records the join time and the new channel; rate limited and failed unmark the member |
| AutoVc.AutoVcState.ReleaseProcessing | autovc/autovc.py:577-583 | the delayed task unmarks the member |
| AutoVc.AutoVcState.DeleteVcImmediately | autovc/autovc.py:632-671 | the channel is forgotten in both records |
| AutoVc.AutoVcState.Leave | autovc/autovc.py:588-630 | acts as `LeaveDecision` says: deletion forgets the channel, an owner leaving records the claim, and otherwise nothing changes |
| AutoVc.AutoVcState.VoiceStateUpdate | autovc/autovc.py:505-630 | a bot is ignored; the join part runs first as `Join`; when it stops early or there was no previous channel the leave part does not run, otherwise the leave part applies `LeaveDecision` for the channel left; sources and member role never change |
| AutoVc.AutoVcState.CleanupGuild | autovc/autovc.py:692-752 | exactly the gone or empty channels leave both records and the others are untouched |
| AutoVc.ScanDoomed | autovc/autovc.py:697-715 | the first loop collects exactly the channels to forget |
| RemindMe.NormalizeName | remindme/remindme.py:41-42 | a preset key has no whitespace at either end and no upper-case letter |
| RemindMe.NormalizeIdempotent | remindme/remindme.py:41-42 | normalizing a key again changes nothing |
| RemindMe.ParseDuration | remindme/remindme.py:26-38 | blank text is no duration; otherwise the parser's reading of the stripped text, when it lies between one second and 365 days |
| RemindMe.ParseDurationStripped | remindme/remindme.py:26-38 | surrounding whitespace never changes a duration |
| RemindMe.ParseTail | remindme/remindme.py:421-431 | the `dm` flag is set exactly when the tail reads as `dm`; a name is never empty, and without the flag it is the whole tail |
| RemindMe.ParseRequest | remindme/remindme.py:404-431 | no argument exactly when the stripped rest is empty; otherwise the first word is a word at the start of the stripped rest |
| RemindMe.SplitFirst | remindme/remindme.py:419-421 | the first word of `split(maxsplit=1)` is a word at the start of the text |
| RemindMe.TailRoundTrip | remindme/remindme.py:421-431 | a flag and a trimmed name written out read back as that flag and name |
| RemindMe.SplitRequest | remindme/remindme.py:419-431 | a word, a space and a trimmed tail parse as that word and that tail |
| RemindMe.RequestRoundTrip | remindme/remindme.py:396-431 | a duration or preset word, an optional `dm` and a name, written out parses back to its word, flag and name |
| RemindMe.ResolveDuration | remindme/remindme.py:354-387 | a literal duration first; then, under the normalized key, the user's own preset, then the guild's published one; the first non-empty preset text decides, parsed or not |
| RemindMe.SavedPresetResolves | remindme/remindme.py:462-476 | a preset saved with a valid duration is what any spelling of its name resolves to, whatever the guild publishes |
| RemindMe.IndexOfId | remindme/remindme.py:55-57 | the position of the first timer with that id, or the length when none has it |
| RemindMe.FirstWithId | remindme/remindme.py:53-58 | a timer is found exactly when one has that id |
| RemindMe.WithoutId | remindme/remindme.py:69-71 | exactly the timers with another id remain; the length is unchanged exactly when none had it |
| RemindMe.PendingIds | remindme/remindme.py:342-346 | exactly the ids of timers that have an id and end after now |
| RemindMe.Mention | remindme/remindme.py:306 | the mention reads back as the user's id |
| RemindMe.ReminderText | remindme/remindme.py:306-310 | the text starts with the mention and, for a named timer, ends with the name in bold |
| RemindMe.StripTicks | remindme/remindme.py:596 | no backtick at either end is left |
| RemindMe.CancelIdRoundTrip | remindme/remindme.py:588-596 | an id as the timer list shows it, in backticks, is the id `cancel` looks up |
| RemindMe.RemindAnswer | remindme/remindme.py:404-453 | no argument opens the menu; the reply is no duration exactly when the first word does not resolve; a set reminder has the resolved duration, flag and name |
| RemindMe.Reminders.constructor | remindme/remindme.py:231-237 | no timers, tasks or presets |
| RemindMe.Reminders.Find | remindme/remindme.py:53-58 | the loop finds the first timer with that id |
| RemindMe.Reminders.Add | remindme/remindme.py:61-64 | exactly one timer is appended |
| RemindMe.Reminders.Remove | remindme/remindme.py:67-73 | every timer with that id is dropped; false exactly when none had it |
| RemindMe.Reminders.Create | remindme/remindme.py:240-263 | a timer ending `seconds` from now is stored and its task scheduled |
| RemindMe.Reminders.Fire | remindme/remindme.py:286-310 | the timer is removed before anything is sent and nothing is sent when it was gone, so a timer fires at most once |
| RemindMe.Reminders.Load | remindme/remindme.py:339-346 | every stored timer with an id that ends after now is scheduled |
| RemindMe.Reminders.Cancel | remindme/remindme.py:594-611 | only the owner of the first timer with that id can cancel it; then it and its task are gone, and otherwise nothing changes |
| RemindMe.Reminders.Remind | remindme/remindme.py:390-453 | answers as `RemindAnswer` on the user's and the guild's presets, and stores and schedules the timer exactly when a duration resolved |
| RemindMe.Reminders.SetPreset | remindme/remindme.py:462-477 | refused for an empty key or an invalid duration; a non-empty key with a valid duration is always saved, storing the stripped duration under the key |
| RemindMe.Reminders.UnsetPreset | remindme/remindme.py:480-491 | refused for an empty key; the preset is removed exactly when the user had it |
| RemindMe.Reminders.Publish | remindme/remindme.py:505-529 | for a non-empty name with a given duration or an own preset of that name, the reply is saved exactly when that duration parses, and it is published with the user as owner |
| RemindMe.Reminders.Unpublish | remindme/remindme.py:533-553 | only the preset's owner or a member with manage_guild removes it; nothing else changes |
| RemindMe.IndexOfIdAt | remindme/remindme.py:55-57 | a timer with the id after none with it is the first one |
| TextReplace.WordRun | textreplace/textreplace.py:52 | `\w+` at a position runs over word characters up to the first non-word character or the end |
| TextReplace.LastAt | textreplace/textreplace.py:52-57 | the last occurrence of the closing fence in a range, or none when there is none |
| TextReplace.GroupUpTo | textreplace/textreplace.py:52-57 | the greedy group `([\s\S]+)` is non-empty and is followed by the closing fence |
| TextReplace.Fenced | textreplace/textreplace.py:52 | a fenced match starts with three backticks and its group is shorter than the text by the two fences |
| TextReplace.Inline | textreplace/textreplace.py:57 | an inline match starts with a backtick and its group is shorter than the text by the two backticks |
| TextReplace.ExtractFromCodeblock | textreplace/textreplace.py:48-62 | the text is returned as it is when neither pattern matches, and something shorter when one does |
| TextReplace.StripSnocSpace | textreplace/textreplace.py:52 | a trailing whitespace character never survives `strip()` |
| TextReplace.BoxWordRun | textreplace/textreplace.py:52 | after the fence of a JSON box the language word is `json` |
| TextReplace.BoxFenced | textreplace/textreplace.py:52-54 | a JSON box matches the fenced pattern with its language line, and the group is the body and its newline |
| TextReplace.ExportedBlockExtracts | textreplace/textreplace.py:284-325 | what `export` sends is accepted by `import` as a code block and yields the stripped JSON |
| TextReplace.InlineExtracts | textreplace/textreplace.py:57-59 | inline code around text not starting with a backtick yields the stripped text |
| TextReplace.IdTextInjective | textreplace/textreplace.py:121 | distinct numbers give distinct rule ids |
| TextReplace.PatternIndex | textreplace/textreplace.py:77-79 | the position of the first rule with that pattern, all rules before it having another |
| TextReplace.PatternOwner | textreplace/textreplace.py:70-81 | no owner exactly when no stored rule has that pattern |
| TextReplace.DropIds | textreplace/textreplace.py:159-167 | removing ids keeps only stored rules |
| TextReplace.DropIdsMember | textreplace/textreplace.py:159-167 | exactly the rules whose id is not listed survive |
| TextReplace.DropNoIds | textreplace/textreplace.py:159-167 | removing no ids changes nothing |
| TextReplace.DropIdsSnoc | textreplace/textreplace.py:160-167 | removing one more id removes it from what is left |
| TextReplace.DropIdsSorted | textreplace/textreplace.py:159-167 | removal keeps the rules in id order |
| TextReplace.DropHasIdText | textreplace/textreplace.py:159-167 | an id is still present after removal exactly when it was and was not listed |
| TextReplace.DropIdsDistinct | textreplace/textreplace.py:159-167 | removal keeps the stored patterns distinct |
| TextReplace.Compiled | textreplace/textreplace.py:29-46 | the cache holds exactly the stored rules whose pattern compiles |
| TextReplace.Rewrite | textreplace/textreplace.py:424-432 | when the loop finishes and nothing is reported as modified the text is the message unchanged |
| TextReplace.Applied | textreplace/textreplace.py:251-254 | when every cached rule leaves every text as it is, the message comes back unchanged |
| TextReplace.RewriteApplies | textreplace/textreplace.py:251-254 | the loop fails exactly when applying every cached rule in turn raises; otherwise the reposted text is every cached rule applied in turn, as `test` shows, and a changed text is always reported |
| TextReplace.FailureStays | textreplace/textreplace.py:427-429 | once a substitution has raised the loop never produces a text, whatever the later rules |
| TextReplace.BadTemplateBlocks | textreplace/textreplace.py:252-254 | a cached rule whose replacement template raises on every text makes the loop fail on every message, so the guild never gets a repost and `test` always fails |
| TextReplace.FindOwnCommand | textreplace/textreplace.py:416-422 | a message is this plugin's own command exactly when, after some prefix, the stripped rest starts with `textreplace ` |
| TextReplace.AcceptedAsWritten | textreplace/textreplace.py:336-354 | as written, an import takes at most its entries, each with a pattern not stored before the import and that compiles |
| TextReplace.Accepted | textreplace/textreplace.py:311 | corrected import (Findings row 2): it takes rules whose patterns are new and distinct from one another, as the help text's "Duplicate patterns will be skipped" promises |
| TextReplace.Numbered | textreplace/textreplace.py:364-370 | imported rules are numbered from the counter on, one each |
| TextReplace.ImportKeepsDistinct | textreplace/textreplace.py:311-370 | the import, with repeated patterns skipped, keeps the stored patterns distinct |
| TextReplace.ImportAsWrittenDuplicates | textreplace/textreplace.py:343-370 | as written, an import that repeats a new pattern stores it twice |
| TextReplace.AppendKeepsNumbering | textreplace/textreplace.py:119-136 | a new pattern stored under the counter's number keeps ids increasing and below the counter |
| TextReplace.ImportKeepsNumbering | textreplace/textreplace.py:360-373 | the import numbered from the counter keeps the numbering |
| TextReplace.DropKeepsNumbering | textreplace/textreplace.py:159-167 | removal keeps the numbering |
| TextReplace.IdTexts | textreplace/textreplace.py:204 | one id per stored rule, in order |
| TextReplace.SplitRemovals | textreplace/textreplace.py:159-167 | the rules left are those not listed; each listed id is either removed, when it was stored, or reported |
| TextReplace.ReportedStep | textreplace/textreplace.py:160-167 | one id further in the removal loop |
| TextReplace.DropAbsent | textreplace/textreplace.py:161-163 | removing an id no rule has changes nothing |
| TextReplace.AppendKeepsCache | textreplace/textreplace.py:124-133 | adding rules keeps every cached rule stored |
| TextReplace.DropKeepsCache | textreplace/textreplace.py:169-178 | after a removal the cache holds only stored rules |
| TextReplace.Classify | textreplace/textreplace.py:332-354 | the validation loop, corrected so that a pattern taken earlier in the same import also counts as a duplicate (Findings row 2), takes exactly the accepted rules and lists under duplicates and invalid exactly the ids `IdsOf` gives for those kinds |
| TextReplace.KindOf | textreplace/textreplace.py:336-354 | an entry is taken exactly when it is shaped, its pattern is neither stored nor taken earlier, and it compiles |
| TextReplace.IdsOfComplete | textreplace/textreplace.py:336-354 | every unshaped or non-compiling entry's id is listed as invalid, and every entry whose pattern is stored or already taken is listed as a duplicate |
| TextReplace.IdsOfSound | textreplace/textreplace.py:336-354 | every id listed as a duplicate or invalid names an entry of that kind |
| TextReplace.KindsShareOut | textreplace/textreplace.py:332-354 | taken, duplicate and invalid together account for every entry once |
| TextReplace.FirstOwner | textreplace/textreplace.py:70-81 | the loop finds the id of the first rule with that pattern |
| TextReplace.ApplyRules | textreplace/textreplace.py:427-432 | the substitution loop computes the rewrite and its flag, or no result when a substitution raises |
| TextReplace.NextIdFresh | textreplace/textreplace.py:119-136 | the counter's number is no stored rule's id, so ids are never reused |
| TextReplace.CheckAdd | textreplace/textreplace.py:103-121 | missing text, a duplicate pattern, a pattern that does not compile, or the rule added under the counter's id |
| TextReplace.RuleStore.constructor | textreplace/textreplace.py:14-27 | no rules, counter at 1, enabled, no cache |
| TextReplace.RuleStore.Initialize | textreplace/textreplace.py:29-46 | the cache is rebuilt when enabled with rules, and is otherwise unchanged |
| TextReplace.RuleStore.Add | textreplace/textreplace.py:83-138 | the checks decide the reply; an added rule is stored and cached under the counter's number and the counter moves on by one |
| TextReplace.RuleStore.Remove | textreplace/textreplace.py:140-186 | the listed stored ids are removed from the rules and the cache, the others reported as not found |
| TextReplace.RuleStore.Toggle | textreplace/textreplace.py:215-236 | no argument flips the flag; turning on rebuilds the cache, turning off drops it |
| TextReplace.RuleStore.Import | textreplace/textreplace.py:295-394 | data outside a code block is refused; then bad JSON, a non-object, nothing taken and no duplicates, or done with the taken count and the duplicate and invalid ids; the rules taken, with the corrected duplicate test (Findings row 2), are numbered from the counter, which moves on by their count, and the cache is rebuilt |
| TextReplace.RuleStore.Store | textreplace/textreplace.py:360-376 | the taken rules are appended under consecutive numbers, the counter moves on and the cache is refreshed |
| TextReplace.RuleStore.Test | textreplace/textreplace.py:238-254 | disabled, no cached rules, a failure when a substitution raises, or the text after every cached rule |
| TextReplace.RuleStore.OnMessage | textreplace/textreplace.py:396-434 | a repost exactly for a guild message from a person, with cached rules, enabled, not this plugin's command, no substitution raising and changed by some rule; it is the rewritten text |
| TextReplace.DropCached | textreplace/textreplace.py:170-178 | the cache without exactly the rules whose id was removed |
| TextReplace.TakenBefore | textreplace/textreplace.py:311 | corrected duplicate test (Findings row 2): whether the import already took a rule with that pattern; the code as written has no such test |
| LinkReplacer.UrlToPattern | linkreplacer/linkreplacer.py:38-49 | no pattern exactly for an empty URL; otherwise the URL itself is the glob |
| LinkReplacer.StarFromSplit | linkreplacer/linkreplacer.py:44 | a `(.*)` that matched did so at some split point where the rest of the pattern matched |
| LinkReplacer.CapturesSound | linkreplacer/linkreplacer.py:44-47 | a match has one capture per `*`, and the source filled with the captures is the word ignoring case |
| LinkReplacer.StarSound | linkreplacer/linkreplacer.py:44 | the `*` case of soundness: the first capture spells the word up to the split point |
| LinkReplacer.StarFromFinds | linkreplacer/linkreplacer.py:44 | backtracking over `(.*)` finds a split point whenever one at or below the start works |
| LinkReplacer.CapturesComplete | linkreplacer/linkreplacer.py:44-47 | whenever some filling of the `*`s spells the word ignoring case, `^...$` matches |
| LinkReplacer.Captures | linkreplacer/linkreplacer.py:44-47 | a match gives one capture per `*` of the source |
| LinkReplacer.StarFrom | linkreplacer/linkreplacer.py:44 | a match of `(.*)` and the rest gives one capture for it and one per `*` of the rest |
| LinkReplacer.FillStars | linkreplacer/linkreplacer.py:188-193 | without captures or without `*` in the template, the template is used as it is |
| LinkReplacer.MatchesIffSpells | linkreplacer/linkreplacer.py:44-47 | a word matches a source exactly when some filling of its `*`s spells it, ignoring case |
| LinkReplacer.LiteralGlob | linkreplacer/linkreplacer.py:44-47 | a source without `*` matches exactly the words equal to it ignoring case, with no captures |
| LinkReplacer.ReplaceFirstStar | linkreplacer/linkreplacer.py:192 | `replace("*", part, 1)` leaves a text without `*` unchanged |
| LinkReplacer.FillVerbatim | linkreplacer/linkreplacer.py:188-196 | a template without `*`, or no captures, is used as it is |
| LinkReplacer.ReplaceAfterPrefix | linkreplacer/linkreplacer.py:192 | a prefix without `*` is untouched by `replace("*", part, 1)` |
| LinkReplacer.PrefixWithoutStar | linkreplacer/linkreplacer.py:190-192 | a prefix without `*` is untouched by the whole fill loop |
| LinkReplacer.FillEmpty | linkreplacer/linkreplacer.py:190-192 | filling an empty template gives the empty text |
| LinkReplacer.FillAgrees | linkreplacer/linkreplacer.py:188-193 | when no capture holds a `*`, the sequential fill puts each capture in the next `*` of the template |
| LinkReplacer.RefillCaptures | linkreplacer/linkreplacer.py:182-185 | the source `*/*` matches `a*/b` with captures `a*` and `b` |
| LinkReplacer.RefillAsWritten | linkreplacer/linkreplacer.py:190-192 | as written, the template `*/*` with those captures gives `ab/*` |
| LinkReplacer.RefillIntended | linkreplacer/linkreplacer.py:188-193 | the intended fill of `*/*` with those captures gives `a*/b` |
| LinkReplacer.FillAsWritten | linkreplacer/linkreplacer.py:190-192 | as written, the sequential fill leaves a template without `*` unchanged |
| LinkReplacer.TemplateAsWritten | linkreplacer/linkreplacer.py:188-196 | as written, the guard and sequential fill give the intended fill whenever no capture holds a `*` (Findings row 3) |
| LinkReplacer.RuleTarget | linkreplacer/linkreplacer.py:181-196 | a rule gives a replacement for a word exactly when its source matches the word; the replacement is the corrected fill (Findings row 3) |
| LinkReplacer.Target | linkreplacer/linkreplacer.py:180-196 | any replacement is the one some cached rule gives; no replacement exactly when no cached rule gives one |
| LinkReplacer.TargetIsLastMatch | linkreplacer/linkreplacer.py:180-196 | a word gets a replacement exactly when some cached rule matches it, and it is the last matching rule's |
| LinkReplacer.Keys | linkreplacer/linkreplacer.py:203 | the keys of a dictionary, one per entry in insertion order |
| LinkReplacer.Lookup | linkreplacer/linkreplacer.py:91 | a key is found exactly when it is among the keys |
| LinkReplacer.Put | linkreplacer/linkreplacer.py:193 | after `d[k] = v` the key maps to `v`, other keys are unchanged and the keys are the old ones plus `k` |
| LinkReplacer.PutKeys | linkreplacer/linkreplacer.py:193 | a present key keeps its place, a new key goes last |
| LinkReplacer.PutNoDup | linkreplacer/linkreplacer.py:193 | putting keeps the keys distinct |
| LinkReplacer.PutPut | linkreplacer/linkreplacer.py:193-196 | putting a key twice keeps only the second value |
| LinkReplacer.PlanMapsWords | linkreplacer/linkreplacer.py:176-196 | `urls_to_replace` maps exactly the message's words that some rule matches, each to its replacement, once each |
| LinkReplacer.RunLength | linkreplacer/linkreplacer.py:179 | the run of non-whitespace at the start of the text ends at whitespace or the end |
| LinkReplacer.Words | linkreplacer/linkreplacer.py:179 | `split()` gives non-empty words without whitespace |
| LinkReplacer.WordsOccur | linkreplacer/linkreplacer.py:179-204 | every word occurs in the message, so its replacement acts on it |
| LinkReplacer.PlanKeysNonEmpty | linkreplacer/linkreplacer.py:176-196 | every planned word is a non-empty word of the message |
| LinkReplacer.Plan | linkreplacer/linkreplacer.py:176-196 | every planned word is a word of the message |
| LinkReplacer.ApplyPlan | linkreplacer/linkreplacer.py:202-204 | a plan that maps each word to itself leaves the message unchanged |
| LinkReplacer.Repost | linkreplacer/linkreplacer.py:198-207 | a repost is only made when the text changed |
| LinkReplacer.NoMatchNoRepost | linkreplacer/linkreplacer.py:176-199 | a message none of whose words any rule matches is left alone |
| LinkReplacer.AsRules | linkreplacer/linkreplacer.py:164-167 | one rule per stored entry, in order |
| LinkReplacer.Build | linkreplacer/linkreplacer.py:164-167 | the cache has at most the stored rules |
| LinkReplacer.BuildKeepsAll | linkreplacer/linkreplacer.py:164-167 | with no empty source stored, the cache holds every rule |
| LinkReplacer.Delete | linkreplacer/linkreplacer.py:92 | after `del d[k]` the key is gone, other keys are unchanged and no key is new |
| LinkReplacer.DeleteNoDup | linkreplacer/linkreplacer.py:92 | deleting keeps the keys distinct |
| LinkReplacer.DeleteAbsent | linkreplacer/linkreplacer.py:96-105 | deleting a key that is not there changes nothing |
| LinkReplacer.LinkStore.constructor | linkreplacer/linkreplacer.py:12-24 | no rules, enabled, no cache |
| LinkReplacer.LinkStore.Initialize | linkreplacer/linkreplacer.py:26-35 | the cache is rebuilt from the stored rules when enabled with rules, and is otherwise unchanged |
| LinkReplacer.LinkStore.Add | linkreplacer/linkreplacer.py:58-83 | refused exactly when a URL is empty; otherwise the rule is put in the store and in the cache, which is created if missing |
| LinkReplacer.LinkStore.Remove | linkreplacer/linkreplacer.py:86-107 | found exactly when stored; then it is deleted from the store and from the cache when there is one |
| LinkReplacer.LinkStore.Toggle | linkreplacer/linkreplacer.py:126-145 | no argument flips the flag; the cache is dropped unless the argument says on |
| LinkReplacer.LinkStore.OnMessage | linkreplacer/linkreplacer.py:148-207 | a missing cache is built when enabled with rules; the repost is the message with every planned word replaced, only when that changed it |
| LinkReplacer.PlanWords | linkreplacer/linkreplacer.py:176-196 | the nested loops build exactly the plan |
| LinkReplacer.ApplyAll | linkreplacer/linkreplacer.py:202-204 | the loop replaces every occurrence of each planned word in turn, as the plan's fold does |
| ChannelNotify.Pinged | channelnotify/channelnotify.py:240-250 | of a channel's message times, the pings are some of them, each due against the one before |
| ChannelNotify.PingedFirstDue | channelnotify/channelnotify.py:240-247 | the first ping is due against the last ping before it |
| ChannelNotify.PingsSpaced | channelnotify/channelnotify.py:240-250 | consecutive pings of a channel are at least its cooldown apart |
| ChannelNotify.CooldownText | channelnotify/channelnotify.py:143-145 | the display starts with the whole minutes and `m`, and is exactly that when no seconds are left over |
| ChannelNotify.SecondsTextInjective | channelnotify/channelnotify.py:145 | equal seconds parts come from equal seconds |
| ChannelNotify.CooldownTextInjective | channelnotify/channelnotify.py:143-145 | distinct non-negative cooldowns are displayed differently |
| ChannelNotify.ChannelNotify.constructor | channelnotify/channelnotify.py:16-28 | no channels, a 300-second default cooldown, no pings recorded |
| ChannelNotify.ChannelNotify.AddChannel | channelnotify/channelnotify.py:62-95 | no roles: refused and nothing changes; otherwise the roles are replaced, a new channel takes the default cooldown and a configured one keeps its own |
| ChannelNotify.ChannelNotify.RemoveChannel | channelnotify/channelnotify.py:98-115 | found exactly when configured; the configuration and the last ping of the channel are gone |
| ChannelNotify.ChannelNotify.SetCooldown | channelnotify/channelnotify.py:154-181 | negative minutes refused, an unconfigured channel refused, otherwise the cooldown is the minutes times 60 |
| ChannelNotify.ChannelNotify.SetDefaultCooldown | channelnotify/channelnotify.py:184-203 | negative minutes refused, otherwise the default is the minutes times 60 |
| ChannelNotify.ChannelNotify.OnMessage | channelnotify/channelnotify.py:206-256 | roles are mentioned exactly when the author is human, in a guild, the channel configured with a live role and its cooldown passed; the mentions are its live roles in configured order and the ping time is recorded only then |
| ChannelNotify.Lookup | channelnotify/channelnotify.py:241-242 | the entry of a key when present, none otherwise |
| ChannelNotify.LiveRoles | channelnotify/channelnotify.py:229 | the loop keeps the configured roles that still exist, in configured order |
| ChannelNotify.KeptRoles | channelnotify/channelnotify.py:229 | a role is kept exactly when it is configured and still exists, and no more roles than configured |
| FixupxNudge.SchemeEnd | fixupxnudge/fixupxnudge.py:35 | where `https?://` matches, it ends past its start and within the text |
| FixupxNudge.HostAt | fixupxnudge/fixupxnudge.py:35 | where `x.com` or `twitter.com` matches, it ends past its start and within the text |
| FixupxNudge.WwwHostAt | fixupxnudge/fixupxnudge.py:35 | the optional `www.` before the host: a match ends past its start and within the text |
| FixupxNudge.HostEnd | fixupxnudge/fixupxnudge.py:35 | scheme, optional `www.` and X host: a match ends past its start and within the text |
| FixupxNudge.SpaceFrom | fixupxnudge/fixupxnudge.py:35 | `[^\s]*`: the result is the first whitespace at or after `k` (or the end), with none before it |
| FixupxNudge.SegmentEnd | fixupxnudge/fixupxnudge.py:35 | `[^/\s]+`: the result is the first `/` or whitespace at or after `k` (or the end), with neither before it |
| FixupxNudge.PathEnd | fixupxnudge/fixupxnudge.py:35 | `/user/status/<digit>...`: a match ends past its start and within the text |
| FixupxNudge.MatchEnd | fixupxnudge/fixupxnudge.py:34-37 | a whole post link at `i` ends past its start and within the text |
| FixupxNudge.HostEndNoSpace | fixupxnudge/fixupxnudge.py:35 | the scheme and host part of a match holds no whitespace |
| FixupxNudge.PathNoSpace | fixupxnudge/fixupxnudge.py:35 | the path part of a match holds no whitespace |
| FixupxNudge.MatchNoSpace | fixupxnudge/fixupxnudge.py:34-37 | a matched post link holds no whitespace |
| FixupxNudge.FoundShape | fixupxnudge/fixupxnudge.py:54 | every link `findall` returns starts with a scheme and an X host (ignoring case) and holds no whitespace |
| FixupxNudge.Unfixed | fixupxnudge/fixupxnudge.py:56 | a link is kept exactly when it is among the matches and its lower-cased text does not contain `fixupx.com` |
| FixupxNudge.Extract | fixupxnudge/fixupxnudge.py:51-57 | no extracted link mentions `fixupx.com` in any case |
| FixupxNudge.HostPrefix | fixupxnudge/fixupxnudge.py:44 | the scheme-and-host prefix of a link, when present, is non-empty and within it |
| FixupxNudge.Convert | fixupxnudge/fixupxnudge.py:39-49 | the converted link no longer starts with an X host (the corrected conversion, see Findings) |
| FixupxNudge.SlashFNoHost | fixupxnudge/fixupxnudge.py:35 | no X host follows a scheme when `/f` sits where the host would start (the text of `https://fixupx.com`) |
| FixupxNudge.FixupxNoHost | fixupxnudge/fixupxnudge.py:45 | the replacement `https://fixupx.com` never starts with an X host, whatever follows it |
| FixupxNudge.FixupxMentioned | fixupxnudge/fixupxnudge.py:45 | the replacement, whatever follows it, contains `fixupx.com` once lower-cased |
| FixupxNudge.ConvertedIsUnfixed | fixupxnudge/fixupxnudge.py:43-56 | a converted link would be filtered out by `_extract_post_links`: it mentions `fixupx.com` |
| FixupxNudge.ConvertNoSpace | fixupxnudge/fixupxnudge.py:39-49 | converting a link without whitespace gives a link without whitespace |
| FixupxNudge.FindAll | fixupxnudge/fixupxnudge.py:54 | `findall` gives non-empty, non-overlapping matches, no more than the characters scanned |
| FixupxNudge.NudgeText | fixupxnudge/fixupxnudge.py:212-216 | the reply starts with the lead text and a colon; one link follows on the same line after a space, several start on the next line |
| FixupxNudge.SubHosts | fixupxnudge/fixupxnudge.py:43-48 | as written, `re.sub` copies a text in which no scheme and X host starts unchanged |
| FixupxNudge.SuggestedLinks | fixupxnudge/fixupxnudge.py:184-209 | every suggested link is `https://fixupx.com` plus the path and query of an extracted link, and holds no whitespace |
| FixupxNudge.Bullets | fixupxnudge/fixupxnudge.py:215 | one `- link` line per link, in order |
| FixupxNudge.NudgeLines | fixupxnudge/fixupxnudge.py:212-216 | one link shares the lead line; several links give the lead line and then one bullet line per link |
| FixupxNudge.ConvertAll | fixupxnudge/fixupxnudge.py:209 | one converted link per extracted link |
| FixupxNudge.NudgeShape | fixupxnudge/fixupxnudge.py:184-216 | the reply to a message with post links has one line per suggested link when there are several, each a converted extracted link |
| FixupxNudge.SubHostsAtHost | fixupxnudge/fixupxnudge.py:43-48 | as written, `re.sub` replaces a scheme and host and resumes after it |
| FixupxNudge.SubHostsCopies | fixupxnudge/fixupxnudge.py:43-48 | as written, `re.sub` copies a stretch without `h` unchanged |
| FixupxNudge.SubHostsTwice | fixupxnudge/fixupxnudge.py:43-48 | as written, two X hosts (the second ending the text) are both replaced |
| FixupxNudge.RewrittenTwice | fixupxnudge/fixupxnudge.py:39-49 | as written, a link whose query ends with a second X link gets both rewritten |
| FixupxNudge.QueryRewritten | fixupxnudge/fixupxnudge.py:39-49 | for such a link the as-written conversion differs from the corrected one, which keeps the query |
| FixupxNudge.ConvertAsWritten | fixupxnudge/fixupxnudge.py:39-49 | as written, a link with no `h` after its first host converts as intended, and a link with no `h` at all is kept (Findings row 4) |
| FixupxNudge.SubHostsOnce | fixupxnudge/fixupxnudge.py:43-48 | as written, with no `h` after the first host, `re.sub` replaces that host only and keeps the rest |
| FixupxNudge.SubHostsNone | fixupxnudge/fixupxnudge.py:43-48 | as written, `re.sub` keeps a text with no `h` unchanged |
| FixupxNudge.FixupxNudge.constructor | fixupxnudge/fixupxnudge.py:16-29 | enabled, a 300-second cooldown, no channel settings, no nudges recorded |
| FixupxNudge.FixupxNudge.Toggle | fixupxnudge/fixupxnudge.py:67-86 | without an argument the switch flips, with one it is set; the reported state is the new one |
| FixupxNudge.FixupxNudge.SetCooldown | fixupxnudge/fixupxnudge.py:89-102 | accepted exactly when not negative; the cooldown changes only then |
| FixupxNudge.FixupxNudge.ChannelSetting | fixupxnudge/fixupxnudge.py:105-133 | without an argument nothing changes; otherwise the channel's flag is set; the shown state is the channel's (enabled by default) |
| FixupxNudge.FixupxNudge.OnMessage | fixupxnudge/fixupxnudge.py:161-216 | a reply exactly when the author is human, in a guild, guild and channel enabled, links extracted and the cooldown passed; the reply is the links converted as intended (Findings row 4) and the nudge time is recorded |
| MassRole.Settle | massrole/massrole.py:36-67 | an answer that is not a rate limit ends the attempts; the add succeeded exactly when there is no error text |
| MassRole.RetrySettlesAt | massrole/massrole.py:34-60 | the first attempt that is not rate limited decides the result |
| MassRole.RetryExhausted | massrole/massrole.py:34-69 | when every attempt left is rate limited the result is "Max retries exceeded" |
| MassRole.AddRoleWithRetry | massrole/massrole.py:22-69 | at most `max_retries` attempts; each wait follows a rate-limited attempt and is its suggested wait plus one second or `2^(attempt+1)`; the last attempt decides unless all were rate limited |
| MassRole.RetryFrom | massrole/massrole.py:34-69 | success exactly when there is no error, only at an attempt below `max_retries`; from `max_retries` on the error is "Max retries exceeded" |
| MassRole.ErrorType | massrole/massrole.py:120 | a missing or empty error text is counted as "Unknown error", any other as itself |
| MassRole.MemberResultOf | massrole/massrole.py:106-121 | a member is skipped exactly when they already hold the role |
| MassRole.Results | massrole/massrole.py:104-123 | one result per member, in order |
| MassRole.TallyAppend | massrole/massrole.py:104-123 | the tally after one more member is that member's result counted on top |
| MassRole.TallyOf | massrole/massrole.py:83-123 | successes, failures and skips add up to the number of results |
| MassRole.TallySums | massrole/massrole.py:83-123 | successes, failures and skips add up to the number of members; the error counts add up to the failures |
| MassRole.CountAgrees | massrole/massrole.py:107-121 | counting one result keeps the tally in agreement with the results counted |
| MassRole.TallyCounts | massrole/massrole.py:83-123 | each count is the number of results of its kind and each error text is counted as often as it ended a turn |
| MassRole.NoMembersNoCounts | massrole/massrole.py:90-92 | no members gives all counts zero |
| MassRole.NeedingFrom | massrole/massrole.py:104-114 | the members an add is attempted for are exactly those not holding the role, in order |
| MassRole.ProgressSpaced | massrole/massrole.py:127-162 | progress updates rise, follow a member who did not hold the role, and are ten or more apart unless at the total |
| MassRole.ProgressFrom | massrole/massrole.py:127-162 | every count shown lies after the members already processed and at most the total |
| MassRole.ProgressFinal | massrole/massrole.py:131-136 | the total is shown exactly when the last member did not hold the role |
| MassRole.ProgressEveryTenth | massrole/massrole.py:131-136 | when nobody holds the role the counts shown are the multiples of ten and the total |
| MassRole.AssignRoleToMembers | massrole/massrole.py:71-164 | the loop returns the tally of the members' results, tries exactly the members without the role, and shows progress at the counts described above |
| MassRole.MemberTurn | massrole/massrole.py:106-114 | a member holding the role is skipped, anyone else gets the add with retries |
| MassRole.NeedingStep | massrole/massrole.py:106-114 | one member further in the attempted members |
| MassRole.ProgressStepAt | massrole/massrole.py:127-162 | one member further in the progress updates |
| MassRole.WithRole | massrole/massrole.py:207 | the members holding the target role, and only they |
| MassRole.Humans | massrole/massrole.py:307 | the members who are not bots, and only they |
| MassRole.ConfirmAndAssign | massrole/massrole.py:209-259 | no members, a timeout or a cancel assigns nothing; a confirmation assigns to every member |
| MassRole.ToRole | massrole/massrole.py:174-259 | refused without the manage-roles right or when the bot's top role is not above both roles; otherwise the members with the target role are assigned once confirmed; a declined confirmation cancels and an unanswered one times out |
| MassRole.ToAll | massrole/massrole.py:282-356 | refused without the manage-roles right or when the bot's top role is not above the role; otherwise every non-bot member is assigned once confirmed; a declined confirmation cancels and an unanswered one times out |
| Text.Strip | giveaway/giveaway.py:64 | `str.strip()`: the result is no longer than the input and starts and ends with a non-whitespace character, or is empty |
| Text.StripEmptyIff | giveaway/giveaway.py:65 | a stripped string is empty exactly when the input was all whitespace, which is how a blank prize is skipped |
| Text.Lower | applications/applications.py:104 | `str.lower()` keeps the length and lower-cases each ASCII letter, leaving other characters alone |
| Text.ParseInt | giveaway/giveaway.py:1155 | `int(value)` succeeds only on text that is not blank |
| Text.UnderscoreIgnored | giveaway/giveaway.py:1155 | `int(value)` reads a `_` between digits as a separator: `a_b` parses to the value of the digits `ab` |
| Text.TrimLeft | giveaway/giveaway.py:64 | the leading part of `strip()`: what is dropped is all whitespace, what is kept is a suffix not starting with whitespace |
| Text.SplitAny | giveaway/giveaway.py:63 | `split` gives at least one piece and no piece holds a separator |
| Text.ReplaceAbsent | linkreplacer/linkreplacer.py:204 | `replace` of text that does not occur leaves the content unchanged |
| Text.IntToStringRoundTrip | giveaway/giveaway.py:1217 | an id written out in decimal reads back as the same integer |
| Text.SplitAnyJoin | giveaway/giveaway.py:63 | splitting on a separator and joining with it gives the input back |

## Left out

- Platform calls: sending, editing, deleting and fetching messages, channels, roles and members. Their outcomes are arguments, and the model does not make the calls.
- Concurrency: asyncio tasks and sleeps. A wait is reported as a value, such as the due time of a timer. Only the giveaway timer table keeps its tasks, because the giveaway finding depends on them.
- Floating point: times are integer seconds, milliseconds or microseconds, depending on the cog.
- Display text: embeds, progress and summary messages, `pagify`, `humanize_timedelta` and logging.
- Role hierarchy: role positions are plain integers.
- `except discord.Forbidden` and `except discord.NotFound` placed after an `except discord.HTTPException` are never reached, because both are subclasses of `HTTPException`.
- Case folding, whitespace and `\d` cover ASCII only (`Text.IsSpace` holds the ten ASCII characters `str.strip()` removes, so `Text.Strip` and `Text.TrimLeft` ignore Unicode spaces such as U+00A0 and U+0085). No Unicode tables are modelled.
- Giveaway builder modals and view input parsing (giveaway/giveaway.py lines 70-490): the drafts they produce are inputs to `SetDraftField`.
- Giveaway `_add_reaction_safe` and `_resolve_message_id`: the message id is given directly.
- Giveaway missing-guild early returns.
- Giveaway `random.sample`: only which draws are possible is modelled, not how likely each one is.
- Giveaway `_winner_ids_list`: its `None` filtering is not modelled, because stored winners are always ids.
- GiveawayCogs.GiveawayCog.RunTimer: it runs the corrected `finally` (`FinishTimer`), not the `finally` as written at giveaway/giveaway.py:554-555 and 781, so its promise that the table stays accurate does not hold for the code as written. `RunTimerAsWritten`, `FinishTimerAsWritten` and `OrphanedTimer` show what the code as written does (Findings row 1). Its own ensures covers only the cancelled case and the timer table. The live case is stated by `EndGiveaway` and `ClaimTimeout`, which it calls.
- TextReplace.Accepted: it also skips an entry whose pattern was taken earlier in the same import, which the code as written does not do. `AcceptedAsWritten` and `ImportAsWrittenDuplicates` model the code (Findings row 2).
- TextReplace.Classify, TextReplace.TakenBefore and TextReplace.RuleStore.Import: these count a pattern repeated within one import as a duplicate, following the corrected `Accepted`. The code checks only the stored patterns (textreplace/textreplace.py:343-347), so as written a repeated pattern is stored twice.
- LinkReplacer.RuleTarget, LinkReplacer.Target, LinkReplacer.Plan, LinkReplacer.PlanWords and LinkReplacer.LinkStore.OnMessage: these fill templates with the corrected `FillStars`. As written, the fill is `TemplateAsWritten`. It agrees with `FillStars` whenever no capture holds a `*` (Findings row 3).
- FixupxNudge.FixupxNudge.OnMessage, FixupxNudge.ConvertAll and FixupxNudge.SuggestedLinks: these convert links with the corrected `Convert`. As written, the conversion is `ConvertAsWritten`. It agrees with `Convert` when no `h` follows the link's first host, and it differs when a scheme and X host occur again later in the link, for example in the query (Findings row 4).
- Counting `_parse_count` and `_safe_eval_math`: the parsed value of a message is an input.
- Counting.Judge, Counting.Step, Counting.CountAccepted, Counting.Judged and Counting.CountingCog.OnMessage: the parsed value is an `Option<int>` compared for equality with the next count. The handler parses with `float(content)` (counting/counting.py:103), accepts any value within 0.0001 of the next count (counting/counting.py:734) and stores `int(parsed_value)` (counting/counting.py:819). So with 3 expected, "2.99995" is counted but the stored count becomes 2, which the model does not capture. A message reading "nan" passes the check at line 734 and then `int()` raises `ValueError` at line 819, so the message is neither counted nor deleted; the model has no such outcome. A message reading "inf" fails the check at line 734 and is handled as a wrong number, as in the model.
- Counting reaction queue and channel descriptions.
- Applications `on_member_join` and `create_application_channel`: these are platform work.
- Applications member lookup by channel id in approve, deny and close: the member is given.
- Applications notification role, cleanup loop timing, and the field list and manager refresh displays.
- Applications ISO timestamps: these are integers, so the `ValueError` branch is not modelled.
- Applications move buttons: their "fewer than two fields" pre-check is not modelled. The select menu then refuses the same move.
- Applications `DenyModal` permission check: the deny button makes this check before the modal opens.
- SelfRoles `_edit` and `_update_existing_message`, the edit path of `send_message`, are not modelled.
- SelfRoles `_list`, preview, underscores in colour names, and the "Edit action not yet implemented" branch are not modelled.
- RemindMe interactive view, buttons and modal; the list displays of presets, published presets and timers; and `cog_unload`.
- RemindMe duration parser: Red's `parse_timedelta` is a function argument.
- TextReplace regex compilation, substitution and JSON decoding: these are function arguments. A substitution's `re.error` is the argument's `None`; which templates raise is left to the argument.
- TextReplace export: chunking at 1990 characters, non-string JSON values, and the list display are not modelled.
- TextReplace.RuleStore.Import: a rule whose "pattern" is not a string makes `re.compile` raise `TypeError`. Only `re.error` is caught (textreplace/textreplace.py:350-353), so the whole import stops there. The model takes every pattern as a string, so it does not capture this abort.
- LinkReplacer list display.
- LinkReplacer "Invalid source URL pattern" branch: it is not modelled because no pattern reaches it.
- ChannelNotify list display.
- FixupxNudge: the two `utcnow()` calls in one handler are one `now`. The status display and the reply-then-send fallback are not modelled.
- FixupxNudge `last_nudge`: the nested dictionary is kept per guild.
- MassRole: the 1.1 second delay between members and the confirmation reaction wait are not modelled. The confirmation is an argument.

## Findings

| source | as written | input that shows it | evidently intended | confidence | as-written member | corrected member |
|---|---|---|---|---|---|---|
| giveaway/giveaway.py:545-557 | the end task's `finally` pops `_end_tasks[key]` even after an edit has replaced it with a newer task (same at lines 769-782) | task 0 for giveaway (1,2) is cancelled by `giveaway edit` and replaced by task 1; task 0's `finally` then pops the key, so a second edit cannot cancel task 1 and the giveaway ends at the earlier time | a task removes its table entry only while the entry is still itself | not executed | GiveawayCogs.OrphanedTimer | GiveawayCogs.FinishKeepsTracked |
| textreplace/textreplace.py:343-370 | import checks each entry only against the patterns stored before the import (`_pattern_exists`), not against entries taken earlier in the same import, so a pattern repeated within the import is stored twice | two import entries, both with the new pattern `x` | duplicate patterns are skipped, as the command's help text (line 311) says and as `add` enforces | not executed | TextReplace.ImportAsWrittenDuplicates | TextReplace.ImportKeepsDistinct |
| linkreplacer/linkreplacer.py:188-193 | the template is filled by replacing each `*` of the template, in order, with the captures, including `*` characters that came from earlier captures | source `*/*`, template `*/*`, word `a*/b` gives `ab/*` | each template `*` is replaced by its own capture, giving `a*/b` | not executed | LinkReplacer.RefillAsWritten | LinkReplacer.FillAgrees |
| fixupxnudge/fixupxnudge.py:39-49 | the host is replaced everywhere in the link, including inside the query string | `http://x.com/a/status/1?u=http://x.com` becomes `https://fixupx.com/a/status/1?u=https://fixupx.com` | only the host is replaced, and the path and query are kept whole, as the code's own comment says | not executed | FixupxNudge.QueryRewritten | FixupxNudge.Convert |
