# Verification bot core in Dafny

A Dafny model of the logic under a small Discord moderation bot. Moderators
use `/verify` to give a member the "verified" role and take away the
"unverified" role. They use `/vlog` to list, summarise and count past
verifications. The bot keeps verification rows and per-guild settings in
SQLite, and writes audit lines to a daily file.

The model covers four pieces:

- **Record store** (`store.dfy`, `ordering.dfy`). The class
  `VerificationDatabase` holds the rows, the settings map and the next
  AUTOINCREMENT id. The query "rows of a guild, newest first, at most
  `limit`" is specified by `IsQueryResult`. That predicate does not fix the
  order of rows with equal timestamps, and neither does SQLite. Timestamps
  are compared as text, in SQLite's BINARY order (`Text.TextLe`). As in
  SQLite, a negative limit means no bound.
- **Statistics** (`stats.dfy`). These are pure functions over the window of
  a guild's 1000 most recent rows. They compute the total, the distinct
  verifier and verified-user ids, and the per-username tally with its most
  active verifier. They also compute the seven-day count and the first
  verification.
- **Logging** (`logger.dfy`, `listing.dfy`). This covers the audit entry and
  the daily file name. It also covers the numbered listing shared by
  `vlog view` and the channel summary, the summary text, and the three
  sinks. A channel is an object with a list of posts, and the audit
  directory maps file names to contents.
- **Commands** (`vlog.dfy`, `verify.dfy`). These are the guard chains and
  the dispatch, with replies as values. `/verify` changes the target member's
  role set in place.

The model keeps these behaviours of the code as written:

- Each settings writer uses `INSERT OR REPLACE` with a single column, so each
  write replaces the whole row. `SetLogChannel` turns verbose logging off,
  and `SetVerboseLogging` clears the log channel
  (`Store.SettingsWritesReplaceRow`).
- `vlog view` answers with the generic error when its listing is longer than an embed description may be. The limit option allows up to 50 rows, and the listing is not cut.
- `vlog update` reports success whenever a channel id is configured. This
  holds even when the channel is missing, is not text-based, or the send
  fails, because `updateChannelLog` catches its own errors.
- In `/verify`, a failed removal of the unverified role gives the generic
  failure reply. The verified role added just before stays.
- The unverified role is removed only if the member held it when fetched.
  The role list is not re-read after the add.
- `/verify` does not write to the store or the logger. No code in the
  repository calls `logVerification`, `logToChannel` or `logToServerFile`.

## Model

| member | source | states |
|---|---|---|
| Text.TextLeTotal | src/utils/database.ts:78 | any two timestamps are comparable under the text order used by ORDER BY |
| Text.TextLeTransitive | src/utils/database.ts:78 | the text order is transitive |
| Text.TextLeAntisymmetric | src/utils/database.ts:78 | two timestamps that each sort no later than the other are equal |
| Text.TextLeReflexive | src/utils/database.ts:78 | every timestamp sorts no later than itself |
| Text.DecimalRoundTrip | src/commands/vlog.ts:114 | the decimal rendering of a row number reads back as the same number |
| Text.BeforeFirst | src/utils/logger.ts:73 | `split('T')[0]` is a prefix without `T`, followed in the input by `T` when it is shorter |
| Ordering.Scoped | src/utils/database.ts:76-77 | the WHERE clause keeps exactly the guild's rows, each as often as stored |
| Ordering.InsertDescSorted | src/utils/database.ts:78 | inserting a row into a newest-first list keeps it newest-first and adds exactly that row |
| Ordering.SortDescSorted | src/utils/database.ts:78 | the sort is newest-first and a permutation of its input |
| Ordering.PrefixKeepsNewest | src/utils/database.ts:78-79 | cutting a newest-first list at the limit keeps it sorted, and every row left out is no newer than any row kept |
| Ordering.QueryIsAdmissible | src/utils/database.ts:74-82 | the sorted, cut guild rows meet every requirement on a query answer |
| Ordering.LastIsOldest | src/commands/vlog.ts:167 | the last row of a newest-first list has the smallest timestamp in it |
| Store.VerificationDatabase.constructor | src/utils/database.ts:19-52 | a new store has no rows, no settings, and will issue id 1 first |
| Store.VerificationDatabase.LogVerification | src/utils/database.ts:54-72 | appends exactly one row with the given fields and an empty or absent note stored as NULL; the id returned is larger than every earlier id and never issued again; settings are untouched |
| Store.VerificationDatabase.GetVerificationLogs | src/utils/database.ts:74-83 | only the guild's stored rows, newest first, min(limit, available) of them (all when the limit is negative), no omitted row newer than a returned one; the limit defaults to 100 |
| Store.VerificationDatabase.SetLogChannel | src/utils/database.ts:85-92 | the guild's row becomes (channel, verbose 0); the channel reads back (an empty id reads as none), verbose reads false, other guilds, the rows and the id counter are unchanged |
| Store.VerificationDatabase.GetLogChannel | src/utils/database.ts:94-101 | none for an unknown guild and for a stored NULL or empty id, the stored id otherwise; never the empty string |
| Store.VerificationDatabase.SetVerboseLogging | src/utils/database.ts:103-110 | the guild's row becomes (no channel, 1 or 0); the flag reads back, the channel reads none, other guilds, the rows and the id counter are unchanged |
| Store.VerificationDatabase.IsVerboseLogging | src/utils/database.ts:112-119 | false for an unknown guild, true exactly when the stored flag is 1 |
| Store.SettingsWritesReplaceRow | src/utils/database.ts:85-110 | enabling verbose logging and then setting a channel leaves verbose logging off; setting verbose logging leaves no channel |
| Stats.DistinctCount | src/commands/vlog.ts:136-137 | the number of distinct ids is at most the row count, and at least 1 for a non-empty window |
| Stats.ImageSize | src/commands/vlog.ts:136-137 | the set of ids taken from the rows has between 1 and as many elements as rows |
| Stats.TallyFromCounts | src/commands/vlog.ts:140-143 | the reduce adds each username's row count to the starting tally and creates keys only for usernames that occur |
| Stats.TallyCounts | src/commands/vlog.ts:140-143 | the tally holds exactly the usernames that occur, each with its number of rows |
| Stats.EntryKeysProps | src/commands/vlog.ts:145 | the entries list each occurring username exactly once |
| Stats.SumCountsIsTotal | src/commands/vlog.ts:140-143 | over a duplicate-free list covering every username, the per-username counts sum to the row count |
| Stats.TallySumsToTotal | src/commands/vlog.ts:140-143 | the per-username tallies sum to the total |
| Stats.FirstMax | src/commands/vlog.ts:145-146 | the first entry after a stable sort by descending count: a listed name with the largest count, and no earlier name has that count |
| Stats.MostActive | src/commands/vlog.ts:140-146 | for a non-empty window, a username whose reported count is its row count, at least 1 and no smaller than any username's count |
| Stats.Recent | src/commands/vlog.ts:149-150 | keeps exactly the rows whose parsed time is later than now minus 604800000 ms, each as often as in the window, so its length is the number of such rows |
| Stats.Aggregate | src/commands/vlog.ts:130-167 | no statistics for an empty window; otherwise total = window size, both distinct counts between 1 and total, recent count at most total, a most active verifier, and the last row's timestamp as first verification |
| Stats.FirstVerificationIsOldest | src/commands/vlog.ts:128-167 | for a newest-first window, the reported first verification is no later than any row in it |
| Stats.MergedByUsername | src/commands/vlog.ts:136-146 | two rows with one username but two verifier ids count as two verifiers but one most active verifier with 2 rows |
| Listing.NumberingReadsBack | src/commands/vlog.ts:111-116 | the listing has one line per row, and the i-th line's leading number reads back as i + 1 |
| Logger.DailyFileName | src/utils/logger.ts:73-74 | `verifications-` + the ISO text before its first `T` + `.log` |
| Logger.AuditEntry | src/utils/logger.ts:78-86 | the entry starts with the fixed verification text and ends with one newline; the notes suffix appears exactly when the guild is verbose and the notes are non-empty |
| Logger.AuditNotesRoundTrip | src/utils/logger.ts:82-84 | the notes can be read back from the entry exactly when the guild is verbose and they are non-empty, and are absent otherwise |
| Logger.Summary | src/utils/logger.ts:42-54 | the summary begins with the header and ends with the last-updated line; with no rows the body is the placeholder |
| Logger.BuildSummary | src/utils/logger.ts:42-54 | the line-by-line accumulation produces exactly the summary text |
| Logger.LogToChannel | src/utils/logger.ts:8-30 | posts one announcement to the configured text channel when the send succeeds; with no channel id, an unknown channel, a non-text channel or a failed send, no channel changes |
| Logger.UpdateChannelLog | src/utils/logger.ts:32-66 | posts the summary of an admissible answer for at most 20 rows to the configured text channel; otherwise no channel changes |
| Logger.LogToServerFile | src/utils/logger.ts:68-92 | appends the entry for the record's own guild verbosity to the day's file; a failed write changes nothing |
| VlogCommand.ViewLimit | src/commands/vlog.ts:104 | no limit or 0 gives 10, any other given limit is used as is |
| VlogCommand.RenderListing | src/commands/vlog.ts:111-116 | appending one numbered line per row yields exactly the concatenated listing of the rows in order |
| VlogCommand.HandleView | src/commands/vlog.ts:103-125 | queries with the view limit; the empty reply exactly when the guild has no rows; otherwise the numbered listing of the returned rows in store order with their count, min(limit, the guild's rows) (all when negative), or the generic error when that listing is longer than the 4096 characters an embed description allows |
| VlogCommand.HandleStats | src/commands/vlog.ts:127-174 | queries 1000 rows; no rows gives the no-data reply, otherwise the statistics of that window, whose total is min(1000, the guild's rows) and whose first verification is the oldest in the window |
| VlogCommand.HandleUpdate | src/commands/vlog.ts:85-101 | no channel configured gives that reply; otherwise success is reported in every case, and when the channel is usable the summary posted is that of an admissible answer for the guild's 20 most recent rows |
| VlogCommand.Execute | src/commands/vlog.ts:40-83 | guild, mod-role configuration and mod-role membership are checked in that order, each with its own reply and no post; then `update`, `view` and `stats` give exactly what their handlers promise (the summary posted, the listing or error, the statistics of the window), an unknown subcommand gets its own reply, and only `update` posts |
| VerifyCommand.GrantVerified | src/commands/verify.ts:68-74 | afterwards the verified role is held, the unverified role is gone unless it is the same role, and every other role is unchanged |
| VerifyCommand.Execute | src/commands/verify.ts:24-81 | guild, configuration, permission, target, member lookup and already-verified are checked in that order, each with its own reply and no role change; on success the roles become GrantVerified of the fetched roles; a failed add changes nothing, a failed removal keeps the added role, and both give the generic failure |
| VerifyCommand.VerifyTwice | src/commands/verify.ts:63-66 | a second verification of the same member answers "already verified" and leaves the roles as the first one left them |

## Left out

- Discord (client login, command registration, dispatch in `src/commands/handler.ts`, `src/index.ts` and `src/deploy-commands.ts`) is not part of this model. Embeds are reduced to the data they carry. Titles, colours, embed timestamps, `deferReply` and the exact reply strings become reply values.
- The SQLite engine, the database file and `fs-extra` are not modelled. The store lives in memory, and the audit directory is a map from file name to contents. Persistence across restarts is out of scope.
- Date handling is taken as parameters: `Date.now()` as `now`, `new Date(ts)` as `instant` (None where JavaScript would produce an invalid date), `toLocaleString` as `localeTime`, the current locale time as `nowText`, and `toISOString()` as `isoNow`.
- Failures of external calls are inputs: a channel id the guild does not have (the fetch throws), `sendOk`, `writeOk`, `addFails`, `removeFails`, and `LookupFails` for the member fetch. `console.error` logging is left out.
- VlogCommand.Execute: the outer catch is reached only through an over-long `view` listing, which is modelled as the `Failed` reply. Other rejections of Discord calls are not modelled. The failure branch of `handleUpdate` cannot occur, because the in-memory store never throws and the logger catches its own errors.
- VlogCommand.HandleView: the 4096 limit is discord.js's bound on an embed description, which counts UTF-16 code units. The model counts the characters of its strings, so a listing with characters outside the Basic Multilingual Plane can pass the model's bound yet fail in discord.js. The 6000-character bound on a whole embed is never the binding one here.
- Stats.MostActive: the contract does not state the tie-break. `FirstMax` implements and states the tie-break: first occurrence wins among equal counts. In JavaScript, `Object.entries` lists integer-like keys such as `"123"` first, so the tie-break can differ for all-digit usernames. A username that names an inherited member of a plain object, such as `constructor`, is tallied here as an ordinary key. The source instead starts from the inherited value.
- Ids and limits are unbounded integers. The 2^53 range of JavaScript numbers and SQLite's 64-bit row ids are not modelled.
- Store.VerificationDatabase.GetVerificationLogs: the order among rows with equal timestamps is deliberately left open, because SQLite does not define it.
