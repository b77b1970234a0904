# TrackMan activity tracker — a Dafny model

TrackMan is a Discord bot. Once a minute it records each guild member's
online status, the game they are playing and the voice channel they sit in.
Each of these is kept as a table of intervals `(user, value, start, end?)`.
Commands report weekly totals from these tables, rank users in leaderboards
and award badge roles when activity thresholds are met. This project models
the logic at the core of `track.py` over an in-memory store and proves what
that logic guarantees.

- `intervals.dfy` (module `Intervals`): the interval record, the lookup of a
  user's open interval (`filter_by(user_id, end_time=None).first()`, the
  lowest row), the invariant *at most one open interval per user and kind*,
  and the *append-only* relation between two states of a table.
- `reconciler.dfy` (module `Reconciler`): the per-member body of
  `track_activities` as pure functions over one table (status, games, voice),
  and their properties.
- `poller.dfy` (module `Poller`): the class `ActivityStore` holding the three
  tables. Its tick methods do the per-member body in place. `Poll` is one
  pass of the polling loop over guilds and members; it is specified by
  `StepGuilds` and `PollGrants` and proved to keep the invariant.
- `settings.dfy` (module `Settings`): a `server_settings` row and the
  `toggle` command on the class `SettingsStore`.
- `aggregation.dfy` (module `Aggregation`): the row filters of the report
  commands, the accumulation loops of `status`, `gametime` and `voicetime`
  as methods, and the hours/minutes split.
- `ranking.dfy` (module `Ranking`): group-by/sum/sort-descending/limit for
  `leaderboard` and `mostplayedgame`, and the display order of `gametime`.
- `badges.dfy` (module `Badges`): the `BADGES` table, the two evaluated
  metrics, the tiers they reach, and the class `AwardLedger` that grants a
  role and notifies only when the member does not already hold it.

Time is integer UTC seconds, and one value `t` (or `now`) stands for every
`datetime.utcnow()` of a tick or command. A UTC date is `start div 86400`.
Voice hours are compared as `seconds >= hours * 3600`. A badge evaluation
reads the tables as they were committed before the current pass, because
`check_and_award_badges` opens its own session while the pass commits only
at its end.

Online Streaker Silver (14 days) and Gold (30 days) cannot be reached.
`track.py:195-199` counts distinct start dates of online rows in a single
7-day window, and such a count is at most 8 (`OnlineDaysAtMostEight`).
`StreakAboveBronzeUnreachable` proves that these two tiers are never
awarded.

A member of two tracked guilds is seen once per guild, and each sighting
carries that guild's voice state. A user sits in at most one voice channel,
so a member in voice in guild A has no voice state in guild B. When A comes
before B in the pass, A's sighting opens a voice interval and B's closes it
again (`VoiceInTwoGuilds`). Each pass then leaves a row that lasts only the
time between the two sightings, which is zero in the model because one `t`
stands for the whole pass. In the other order, each pass after the first
closes the running interval at B's sighting and opens a new one at A's
(`VoiceInTwoGuildsTwoPasses`). The totals are then right, but a row is
written every minute. The model follows the code here.

## Model

| member | source | states |
|---|---|---|
| Intervals.FirstOpen | track.py:136-138 | the index found is an open interval of the user with no open one of the user before it; `None` exactly when the user has no open interval |
| Intervals.FirstOpenIsOnly | track.py:136-138 | with at most one open interval per user, the interval found is the user's only open one |
| Intervals.EvolvesTransitive | track.py:134-174 | append-only evolution (rows kept, or closed once from open) composes across ticks |
| Intervals.ClosedRowsAreFrozen | track.py:134-174 | once a row is closed, every later state holds that row unchanged |
| Intervals.DurationNonNegative | track.py:416-417 | a row that starts no later than now and ends no earlier than its start has a duration `(end or now) - start` of at least 0 |
| Intervals.LogsEvolveTransitive | track.py:134-174 | append-only evolution of all three tables composes |
| Reconciler.ReconcileOpensObserved | track.py:134-145 | after a status tick, with at most one open interval before it, exactly one interval of the user is open, it carries the observed status, and the invariant holds |
| Reconciler.ReconcileOnChange | track.py:140-143 | on a change of value the open row is closed at `t` with start and value kept, one row `(user, observed, t, open)` is appended, and nothing else changes |
| Reconciler.ReconcileUnchanged | track.py:140-141 | when the open interval already carries the observed value, the table is unchanged |
| Reconciler.ReconcileFrame | track.py:134-145 | a tick only appends and closes, touches only the user's rows, and appends only open rows of the user starting at `t` |
| Reconciler.ReconcileIdempotent | track.py:134-145 | applying the same tick twice equals applying it once |
| Reconciler.ReconcileChronological | track.py:134-145 | no timestamp written by a tick is later than the tick time, and no end precedes its start |
| Reconciler.GameIdleIsFrame | track.py:147-148 | when the member is not playing, the game table, open interval included, is unchanged |
| Reconciler.GamePlayingOpensGame | track.py:147-159 | while playing, the user's only open game interval carries the game's name |
| Reconciler.VoiceJoinOpens | track.py:162-168 | in voice with no open interval, one open row for that channel is appended at `t` |
| Reconciler.VoiceSwitchIgnored | track.py:162-168 | in voice with an open interval, nothing changes even when the channel differs |
| Reconciler.VoiceLeaveCloses | track.py:169-174 | out of voice, the open interval (if any) is closed at `t`, no interval of the user stays open, and nothing else changes |
| Reconciler.VoiceJoinThenLeave | track.py:162-174 | joining and then leaving voice within one tick leaves one row that opens and closes at `t` |
| Reconciler.VoiceLeaveThenJoin | track.py:162-174 | seeing the user out of voice and then in voice within one tick closes the running interval and opens a new one, both at `t` |
| Reconciler.VoiceKeepsInvariant | track.py:161-174 | a voice tick keeps the invariant, is append-only, writes no time later than `t`, and touches only the user's rows |
| Reconciler.VoiceFrame | track.py:161-174 | a voice tick is append-only, leaves other users' rows alone and appends only the user's rows |
| Reconciler.StepMemberKeepsInvariant | track.py:134-174 | a member's step keeps the invariant in all three tables, is append-only, and leaves the table of a disabled kind untouched |
| Reconciler.StatusStepKeepsInvariant | track.py:134-145 | a status tick at `t` keeps at most one open interval per user, is append-only, and writes no time later than `t` |
| Reconciler.GameStepKeepsInvariant | track.py:147-159 | a game tick, playing or not, keeps at most one open interval per user, is append-only, and writes no time later than `t` |
| Reconciler.StepMemberOthersUnchanged | track.py:134-174 | a member's step leaves other users' rows alone and appends none for them, so an absent member's open interval stays open |
| Poller.StepMembersKeepsInvariant | track.py:130-174 | a guild's member loop keeps the invariant and is append-only |
| Poller.StepGuildsKeepsInvariant | track.py:125-174 | a whole pass keeps the invariant, is append-only, and writes no time later than `t` |
| Poller.StepMembersUntouched | track.py:130-132 | the rows of a user who is not in the member list (or is the bot) are untouched |
| Poller.StepMemberUntouched | track.py:134-174 | one member's step keeps every row of another user as it was, keeps every row's user, and appends no row for that user |
| Poller.UserUntouchedTransitive | track.py:130-174 | leaving a user's rows untouched composes across members and guilds |
| Poller.StepMembersStep | track.py:130-174 | the member loop over one more member is the loop so far followed by that member's step, or nothing for the bot |
| Poller.MemberGrantsStep | track.py:176-177 | the grants of one more member are the grants so far followed by that member's evaluation, or none for the bot or with badges off |
| Poller.StepGuildsSkipsBot | track.py:131-132 | a pass never writes or appends a row for the bot's own id |
| Poller.StepGuildsUnconfigured | track.py:126-128 | a pass over guilds none of which has settings leaves the store unchanged |
| Poller.UnconfiguredSkipped | track.py:126-128 | a guild without settings, wherever it stands among the others, changes nothing: the pass equals the pass without it |
| Poller.UnconfiguredGrantsNothing | track.py:126-128 | a guild without settings, wherever it stands, adds no grant to the pass |
| Poller.MemberGrantsFrom | track.py:176-177 | a guild's evaluations grant only in that guild, never to the bot, and only with badges on |
| Poller.PollGrantsOnlyWhereOn | track.py:125-177 | a pass grants badges only in configured guilds whose badges are on, and never to the bot |
| Poller.StepMemberIdempotent | track.py:134-174 | with the same settings, applying the same member snapshot twice in one pass changes the tables only once |
| Poller.VoiceInTwoGuilds | track.py:125-174 | a member in voice in the first of two tracked guilds, and so without voice state in the second, gets one voice row opened and closed at `t`, lasting zero seconds |
| Poller.VoiceInTwoGuildsReversed | track.py:125-174 | with the two guilds the other way round, the voice interval that the pass opens for that member is open after the pass |
| Poller.VoiceInTwoGuildsTwoPasses | track.py:125-174 | with the guilds the other way round, a second pass closes the interval at its own time and opens a new one, so each pass leaves a row |
| Poller.StepTwoGuilds | track.py:125-130 | a pass over two configured guilds is the first guild's member loop followed by the second's |
| Poller.StepOneMember | track.py:130-132 | the member loop over a single member who is not the bot is that member's step |
| Poller.ActivityStore.TickStatus | track.py:134-145 | the status table becomes the reconciled table, and games and voice are unchanged |
| Poller.ActivityStore.TickGame | track.py:147-159 | the game table becomes the reconciled table, and status and voice are unchanged |
| Poller.ActivityStore.TickVoice | track.py:161-174 | the voice table becomes the reconciled table, and status and games are unchanged |
| Poller.ActivityStore.TickMember | track.py:134-174 | the store becomes the member's step over the enabled kinds |
| Poller.ActivityStore.Poll | track.py:124-179 | the store becomes `StepGuilds` of the old store and keeps the invariant and the append-only history; the ledger receives every grant of `PollGrants`, evaluated against the tables as they were before the pass |
| Poller.ActivityStore.PollGuild | track.py:130-177 | one guild's member loop: the store becomes `StepMembers`, and the ledger receives that guild's grants |
| Poller.ActivityStore.PollMember | track.py:131-177 | the bot is skipped; anyone else gets the step of the enabled kinds and, with badges on, the grants their evaluation reaches |
| Settings.Lower | track.py:327 | lower-casing keeps the length and lowers each ASCII capital |
| Settings.LowerOfLowercase | track.py:327 | a word without capitals is its own lower-case form |
| Settings.ParseFeatureCorrect | track.py:327-342 | a word names feature `f` exactly when its lower-cased form is `f`'s keyword |
| Settings.ParseFeatureName | track.py:328-337 | each keyword is recognised as its own feature |
| Settings.Flip | track.py:328-339 | toggling flips the chosen feature's switch, leaves the other three and the notification channel unchanged |
| Settings.FlipTwice | track.py:328-339 | toggling a feature twice restores the settings |
| Settings.SettingsStore.Toggle | track.py:319-345 | an unknown server reports "not set up", and an unknown word reports "invalid"; neither changes anything; otherwise exactly that server's chosen switch flips and the new state is reported |
| Aggregation.SelectMatches | track.py:409-412 | a query returns exactly the rows satisfying all its filters |
| Aggregation.KeysMembers | track.py:453-457 | the keys collected are exactly the values the rows carry, each once |
| Aggregation.TotalByNotKey | track.py:457 | the form of `TotalByAbsent` in terms of the collected keys: a key that is not among `Keys` totals zero |
| Aggregation.TotalByAbsent | track.py:457 | a key that no row carries totals zero |
| Aggregation.TotalByStep | track.py:415-418 | one more row adds its duration to its own key's total and to no other |
| Aggregation.KeysStep | track.py:453-457 | one more row adds its key at the end when it is new, and otherwise keeps the keys |
| Aggregation.TotalsAgreeStep | track.py:415-418 | adding a row's duration to its key's entry keeps every entry equal to its total over the rows seen so far |
| Aggregation.StatusSoFarInit | track.py:414 | the four statuses at zero agree with the totals over no rows |
| Aggregation.StatusSoFarStep | track.py:415-418 | a row carrying one of the four statuses keeps the four keys and their agreement with the totals, one row further |
| Aggregation.StatusSoFarMissing | track.py:415-418 | a row carrying another status means not every row of the week carries one of the four |
| Aggregation.StatusSoFarDone | track.py:415-418 | after the last row the four keys hold the totals over every row of the week |
| Aggregation.TotalNonNegative | track.py:492-496 | over rows that start no later than now and do not end before they start, a total is at least 0 |
| Aggregation.SelectChronological | track.py:487-490 | filtering keeps the rows chronological |
| Aggregation.StatusTimes | track.py:409-418 | the report exists exactly when every row of the week carries one of the four statuses; it then maps each of the four to the sum of its rows' durations |
| Aggregation.GameTimes | track.py:448-457 | the dict holds exactly the games of the week, each with the sum of its rows' durations, in order of first appearance |
| Aggregation.VoiceTime | track.py:487-496 | the total is the sum of the week's voice durations, and is at least 0 when no timestamp is in the future |
| Aggregation.HoursMinutes | track.py:427-428 | the split gives minutes in `[0, 60)` such that `hours*3600 + minutes*60 <= time < hours*3600 + minutes*60 + 60` |
| Ranking.Insert | track.py:465 | insertion adds exactly one row to the multiset |
| Ranking.InsertSorted | track.py:465 | inserting into a descending list keeps it descending |
| Ranking.SortDesc | track.py:465 | the result is a permutation of the input, sorted by total, largest first |
| Ranking.InsertWithTotal | track.py:465 | an inserted row comes before every row with the same total, and the order of those rows is kept |
| Ranking.SortDescStable | track.py:465 | the sort is stable: for every total, the rows with that total keep their input order |
| Ranking.SortDescNoDuplicates | track.py:465 | sorting a list of distinct rows keeps the rows distinct |
| Ranking.SortedGroups | track.py:519-550 | the sorted groups have one row per key, each with that key's total, and no key twice |
| Ranking.SortedGroupsComplete | track.py:519-550 | no key is lost: each key's row with its total is among the sorted groups |
| Ranking.TopOfSorted | track.py:519-550 | the first `n` rows of a descending list are its prefix of length `min(n, len)`, descending, and no row cut off exceeds the last one kept |
| Ranking.TopOfGroups | track.py:519-550 | the first `n` of the sorted per-key totals are the top `n` keys |
| Ranking.InsertNoDuplicates | track.py:465 | inserting a row not yet in a list of distinct rows keeps the rows distinct |
| Ranking.RankedTop | track.py:519-590 | the ranking holds `min(n, #keys)` distinct keys, each with its true total, descending, and no key left out has more than any key shown |
| Ranking.LeaderboardCorrect | track.py:515-556 | an unknown category gives no board; otherwise at most five users, each with counted rows and never the bot, each with their total, largest first, no user left out ahead of any user shown |
| Ranking.BoardRowsFiltered | track.py:519-550 | a board counts only rows of the week from users other than the bot; online time counts only "online" rows; games time never counts "Stalking Simulator" |
| Ranking.MostPlayedGameCorrect | track.py:584-608 | there is no answer exactly when no game row of the week counts; otherwise the game is one of the week's counted games, is not "Stalking Simulator", has its true total, and no other game has more |
| Ranking.GameLinesAreRankedGames | track.py:453-465 | the lines `gametime` shows are the week's per-game totals sorted largest first |
| Badges.EvaluatedTiersHaveRoles | track.py:63-87 | every tier that is evaluated has a role in the table |
| Badges.ThresholdsMonotone | track.py:201-221 | a higher tier has a higher threshold, and is evaluated only if every lower tier is |
| Badges.OnlineDaysAtMostEight | track.py:191-199 | distinct online start dates within the week number at most 8 |
| Badges.ReachedMembers | track.py:201-221 | the tiers reached are exactly the ladder's tiers whose threshold the metric meets |
| Badges.ReachedStep | track.py:201-221 | one more comparison appends its tier exactly when the metric meets that tier's threshold |
| Badges.SetWithinRange | track.py:195 | a set of dates inside a range of `n` days has at most `n` elements |
| Badges.EarnedIffThreshold | track.py:187-221 | a tier is awarded exactly when badges are on and its metric meets its threshold (7/14/30 days; 10/25/50/100 hours) |
| Badges.EarnedBackfillsLowerTiers | track.py:201-221 | reaching a tier awards every lower tier of the same badge in the same evaluation |
| Badges.EarnedNothingWhenOff | track.py:187-189 | nothing is evaluated without settings or with badges off |
| Badges.StreakAboveBronzeUnreachable | track.py:195-206 | Online Streaker Silver and Gold are never awarded |
| Badges.ChatterboxAtTwentyFiveHours | track.py:214-221 | exactly 25 voice hours earns Chatterbox Bronze and Silver, not Gold or Platinum |
| Badges.AwardAllAppend | track.py:225-235 | awarding two lists in turn equals awarding their concatenation |
| Badges.AwardOneEffect | track.py:233-235 | one award holds the role afterwards and notifies exactly when the role was not held before; the ledger stays consistent |
| Badges.AwardAllHeldSet | track.py:233-235 | the held roles grow by exactly the awarded ones |
| Badges.AwardAllSent | track.py:233-235 | notifications are only appended, each for an awarded role that was not held before |
| Badges.AwardAllValid | track.py:233-235 | every notified role is held and none is notified twice |
| Badges.AwardAllEffect | track.py:233-235 | the held roles grow by exactly the awarded ones; each notification is for a role not held before; no role is notified twice |
| Badges.AwardAllIdempotent | track.py:233-235 | re-running the same awards adds no role and sends no notification |
| Badges.AwardAllHeld | track.py:233-235 | after awarding, every awarded role and every role held before is held |
| Badges.AwardAllNoop | track.py:233-235 | awarding roles that are all held changes nothing |
| Badges.AwardLedger.AwardBadge | track.py:225-235 | the role is held afterwards; a notification is added only when it was not held before |
| Badges.AwardLedger.CheckAndAward | track.py:183-223 | the ledger receives, in order, every tier the two metrics reach, or nothing when badges are off |
| Badges.AwardLedger.AwardStreak | track.py:201-206 | the three Online Streaker comparisons award, in order, the tiers the online days reach |
| Badges.AwardLedger.AwardChatterbox | track.py:214-221 | the four Chatterbox comparisons award, in order, the tiers the voice time reaches |
| Badges.AwardLedger.AwardIfReached | track.py:201-221 | one threshold comparison extends the awards by that tier exactly when it is reached |
| Badges.AwardLedger.AwardStep | track.py:233-235 | one more award applies the next grant after those applied so far |

## Left out

- Discord I/O is not modelled. This covers events, embeds, messages, avatars, `ping` and `commands`, the greeting and farewell messages, and the text of badge notifications. A notification is the grant recorded in the ledger's `sent` list.
- The interactive `setup` dialog, `config`, `setchannel` and `create_badge_roles` are not modelled, because they are waits for user replies and calls into Discord. Role creation inside `award_badge` is a foreign call; the ledger treats every role as existing.
- Failing Discord calls are not modelled: every foreign call is taken to succeed. In the code, an exception inside the pass leaves `track_activities` before `session.commit()` (track.py:179). The pass's interval changes are then lost and the polling task ends. Examples are `create_role` or `add_roles` without the permission to manage roles (track.py:231, 234), `member.send` to a member who refuses direct messages (track.py:248), and `member.voice.channel.id` when the voice state has no channel (track.py:168). `Poll` always completes.
- The `asyncio` loop and its `sleep(60)` are not modelled. `Poll` is one pass.
- SQLAlchemy sessions are not modelled. Reads inside the pass see the pass's own earlier writes, which is autoflush. Badge evaluation reads the state committed before the pass.
- The server settings the pass reads are given to `Poll` as a map. `SettingsStore` is not connected to it.
- Time is integer seconds, not floating point. This covers `total_seconds()`, `julianday` differences scaled to hours or seconds, and `:.0f` formatting. Every `utcnow()` of one pass or command is the same `t`.
- The bot id, which `on_ready` stores in `TRACKMAN_ID`, is a parameter. The commands' refusal when the bot itself is the author is not modelled.
- Members are snapshots: status string, activity, and voice channel id. `str(member.status)` is taken as given.
- `Settings.Lower`: lower-cases ASCII letters only, because Unicode case mapping is outside the model. Full Unicode lowering would accept no further word. U+212A lowers to `k`, which none of the four keywords contains. U+0130 lowers to `i` followed by a combining dot, and the dot stays in the word.
- Ranking.LeaderboardCorrect: SQL leaves the order of users with equal totals unspecified. The model orders them by a stable sort over first appearance and proves only the properties that hold for any order.
- The leaderboard skips users who are no longer in the guild (`get_member`) while the rank numbers still count them. This display step is not modelled.
- Night Owl, Game Addict and Online Streaker Platinum are in the `BADGES` table but are never evaluated. They appear only as table data.
- Not in the code, so not modelled: clipping of intervals to the report window, recording of voice channel switches, closing a game interval when the member stops playing, and closing the open intervals of members who left.
