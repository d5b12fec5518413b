# Roblox auto-ranking bot: the command handler, in Dafny

The bot is a Discord application that manages the members of one Roblox group. It handles
seven slash commands. `promote`, `demote`, `kick` and `setrank` change a member's rank
through the group-management service. `rankinfo` lists the group's rank ladder. `rankhistory`
and `auditlog` show recent entries of an in-memory action log. This project models the core
of `index.js` in Dafny and proves its properties:

- **The action log** (`Audit`, `action_log.dfy`). This is the module-level `actionLog` array.
  It is modelled as the class `ActionLog` with a `seq<Entry>` field. `Record` does
  `unshift` and then a `pop` above 100 entries. `Recorded` and `RecordAll` specify it, and
  `Latest` and `HistoryFor` are the two read-only views. The proofs show that the log is a
  sliding window of the newest 100 entries, newest first, and that the per-user view keeps
  log order.
- **The rank resolver and listing** (`Ranks`, `ranks.dfy`). `Resolve` models the `setrank`
  lookup. A truthy rank number picks the first rank with that exact number and never falls
  back to the name. Otherwise a truthy rank name picks the first rank whose lower-cased name
  contains the lower-cased query. The number 0 and the empty name are falsy, so they count as
  absent. `SortByRank` and `RankListing` model the `rankinfo` sort and its listing.
- **String helpers** (`Text`, `text.dfy`). These are `toLowerCase`, `includes`, and the
  decimal rendering of integers in template literals.
- **The command handler** (`Dispatcher`, `dispatcher.dfy`). One invocation of the
  `interactionCreate` handler produces an ordered trace of effects. An effect is a call into
  the group-management service, a response on the interaction, or a write to the log. Each
  service call is given as a canned answer in `Gateway`, either a value or a throw. The pure
  `Dispatch` describes the handler as written. The `try` block is `Try`; it ends `Finished`
  or `Threw` with the effects so far. Then comes the catch reply. `DispatchFixed` is the same
  handler with the catch block corrected as described under Findings: it edits a reply that
  was already deferred instead of replying a second time. The imperative methods run against
  an `ActionLog` object. `TryCommand` and one method per branch follow the as-written `Try`
  step by step. `Handle` implements the corrected `DispatchFixed`. Each contract also gives
  the new log: the old log with the trace's writes recorded in order.
- **Guarantees** (`Guarantees`, `guarantees.dfy`). These are lemmas over whole invocations:
  - validation comes before any call;
  - resolution comes before `setRank`;
  - a log write happens only after a mutation has returned;
  - the catch block is reached exactly when an awaited call throws;
  - the read-only commands leave the log alone;
  - a promote followed by a rankhistory shows the new entry first;
  - every handled command answers exactly once, except in the case listed under Findings.

Three behaviours of the bot could be expected to differ from what `index.js` does. The
model follows `index.js` in each:

- A rank number of 0 could be expected to mean rank 0. The falsy test at index.js:194 treats
  it as absent instead, and so does the model. `Ranks.ZeroNumberIsAbsent` states this.
- Every command could be expected to get exactly one reply. A command name that no branch
  handles gets no reply at all (`Guarantees.IgnoredEvents`). A rankinfo whose catalog fetch
  throws gets two (see Findings).
- `kick` fetches the group (`getGroup`) between the user lookup and `exile`. That fetch is
  one more point where the command can fail.
- An unresolved `setrank` answers only after the user lookup and the catalog fetch have both
  returned.

## Model

| member | source | states |
|---|---|---|
| `Text.Lower` | index.js:195 | `toLowerCase` keeps the length, turns each upper-case ASCII letter into its own lower-case letter, keeps every other character in place, and so leaves no upper-case letter |
| `Text.LowerIdempotent` | index.js:218 | lower-casing an already lower-cased name changes nothing |
| `Text.ContainsIff` | index.js:195 | `includes` is true exactly when some window of the name equals the query, in both directions |
| `Text.NatToString` | index.js:207 | a non-negative number renders as decimal digits with no leading zero |
| `Text.IntToStringRoundTrip` | index.js:207 | reading back the rendered rank number gives the rank number |
| `Text.IntToStringInjective` | index.js:222 | two different rank numbers never print alike in a reply |
| `Text.NoStarInIntToString` | index.js:113 | a rendered number holds no `*`, so it cannot merge with the bold markers around it |
| `Ranks.FindIndex` | index.js:194-195 | `find` returns the first position satisfying the test, and returns nothing only when no position does |
| `Ranks.Resolve` | index.js:193-197 | a truthy number gives the first descriptor with exactly that rank, or none when no rank has it; otherwise a truthy name gives the first case-insensitive substring match, or none; otherwise none |
| `Ranks.ResolveFromCatalog` | index.js:194-195 | a resolved rank is an entry of the fetched catalog |
| `Ranks.NumberTakesPrecedence` | index.js:194-195 | with a truthy number, the name given alongside never changes the result |
| `Ranks.ZeroNumberIsAbsent` | index.js:194 | rank number 0 resolves exactly as if no number were given |
| `Ranks.NameCaseIgnored` | index.js:195 | two names that lower-case alike resolve alike |
| `Ranks.ResolveByNumberExample` | index.js:194 | on the Member/Moderator/Admin ladder, number 2 gives Moderator |
| `Ranks.ResolveByNameExample` | index.js:195 | on the same ladder, "mod" gives Moderator, the first name that contains it |
| `Ranks.ResolveZeroNumberExample` | index.js:194-195 | number 0 with name "MOD" falls through to the name and gives Moderator |
| `Ranks.ResolveUnknownNameExample` | index.js:195-197 | "zzz" matches nothing and gives no rank |
| `Ranks.ResolvePrecedenceExample` | index.js:194-195 | number 3 with name "mod" gives Admin: the number wins |
| `Ranks.ResolvesToFirstByName` | index.js:195 | a name-only request resolves to the first descriptor whose name matches |
| `Ranks.InsertByRankPermutes` | index.js:112 | one insertion step of the sort adds exactly the inserted descriptor to the multiset |
| `Ranks.InsertByRankSorted` | index.js:112 | inserting into a list sorted by rank keeps it sorted |
| `Ranks.SortByRank` | index.js:112 | the sorted catalog is ascending by rank and a permutation of the catalog |
| `Ranks.RankLine` | index.js:113 | one listing line, `**rank** - name`; `Ranks.RankLineShowsRank` states what it shows |
| `Ranks.RankLineShowsRank` | index.js:113 | two descriptors with different ranks never give the same listing line, whatever their names |
| `Ranks.RankListing` | index.js:112-113 | the rankinfo description lines; `Ranks.RankListingSortsCatalog` states their order and content |
| `Ranks.RankListingSortsCatalog` | index.js:112-113 | the rankinfo listing has one line per catalog entry, in the order of an ascending permutation of the catalog |
| `Audit.Recorded` | index.js:132-133 | the new entry is in front, the old entries follow in order, and the oldest is dropped only past 100 entries |
| `Audit.RecordedWithinCapacity` | index.js:133 | recording never takes the log past 100 entries |
| `Audit.ActionLog.constructor` | index.js:47 | the log starts empty |
| `Audit.ActionLog.Record` | index.js:132-133 | the new contents are `Recorded` of the old ones, and the 100-entry bound is kept |
| `Audit.Reversed` | index.js:132 | the records in the opposite order of recording, last first, as repeated `unshift` leaves them |
| `Audit.Latest` | index.js:237 | `slice(0, n)` gives the first min(n, length) entries, unchanged |
| `Audit.RecordedIsWindow` | index.js:132-133 | one record is the first 100 entries of the log with the new entry in front |
| `Audit.RecordAllWindow` | index.js:132-133 | after any run of records, the log is the recorded entries newest first, then the earlier log, cut at 100 |
| `Audit.RecentAfterRecords` | index.js:237 | after any run of records, the log stays within 100 entries, and its first n ≤ 100 entries are the n most recent records, newest first |
| `Audit.ByUser` | index.js:218 | the filter keeps exactly the entries whose username lower-cases like the query |
| `Audit.ByUserAppend` | index.js:218 | the filter works piecewise, so it keeps log order |
| `Audit.HistoryFor` | index.js:218 | the rankhistory view, the user's matches cut at six; `Audit.ByUser` and `Audit.Latest` state what it keeps, and `Audit.HistoryAfterRecord` states what a record does to it |
| `Audit.HistoryAfterRecord` | index.js:218 | a newly recorded entry heads that user's history, whatever case the lookup uses |
| `Audit.HistoryOfOthers` | index.js:218 | recording about someone else leaves a user's matches unchanged, apart from eviction at the end |
| `Audit.HistoryLine` | index.js:221-224 | one rankhistory line: the action in bold, then the rank name and number when the entry has a rank name; `Guarantees.RankHistoryShowsUser` places it in the reply |
| `Audit.AuditLine` | index.js:240-244 | one auditlog line: the bold username when it is not empty, the action, then the rank name and number when present; `Guarantees.AuditLogShowsLatest` places it in the reply |
| `Dispatcher.Route` | index.js:107-253 | the chain of `commandName ===` tests: a branch for each of the seven registered names, and no branch for any other name |
| `Dispatcher.TryRankInfo` | index.js:109-122 | the rankinfo branch of the `try` block; `Guarantees.RankInfoWrites`, `Guarantees.RankInfoAnswers` and `Guarantees.RankInfoListsCatalog` state its properties |
| `Dispatcher.TryPromote` | index.js:125-142 | the promote branch; `Guarantees.PromoteWrites`, `Guarantees.PromoteAnswers` and `Guarantees.PromoteRecordsNewRole` state its properties |
| `Dispatcher.TryDemote` | index.js:145-162 | the demote branch; `Guarantees.DemoteWrites`, `Guarantees.DemoteAnswers` and `Guarantees.DemoteRecordsNewRole` state its properties |
| `Dispatcher.TryKick` | index.js:165-183 | the kick branch; `Guarantees.KickWrites`, `Guarantees.KickAnswers` and `Guarantees.KickRecordsNoRank` state its properties |
| `Dispatcher.TrySetRank` | index.js:186-212 | the setrank branch; `Guarantees.SetRankWrites`, `Guarantees.SetRankAnswers`, `Guarantees.UnresolvedRankStopsBeforeSetRank` and `Guarantees.SetRankRecordsResolved` state its properties |
| `Dispatcher.RankHistoryReply` | index.js:215-233 | the rankhistory branch; `Guarantees.RankHistoryShowsUser` states what it shows |
| `Dispatcher.AuditLogReply` | index.js:236-253 | the auditlog branch; `Guarantees.AuditLogShowsLatest` states what it shows |
| `Dispatcher.FailureReply` | index.js:257-261 | the catch block's ephemeral embed, "Could not <command> <username>"; `Guarantees.RejectionEndsInCatch` states when it is sent |
| `Dispatcher.Dispatch` | index.js:102-262 | the whole handler as written, ignoring non-commands and running the catch reply after a throw; the `Guarantees` lemmas state its properties |
| `Dispatcher.CatchResponse` | index.js:261 | the corrected catch response: an edit of the deferred reply when one was deferred, otherwise the reply of index.js:261; `Guarantees.RankInfoRejectionRespondsTwice` states its value on the rankinfo path |
| `Dispatcher.DispatchFixed` | index.js:102-262 | the handler with the corrected catch block; `Guarantees.FixedRespondsOnce` states that it responds once and otherwise equals `Dispatch` |
| `Dispatcher.RankInfo` | index.js:109-122 | the rankinfo branch defers, fetches the roles, and edits in the listing, or throws after the fetch; it never writes |
| `Dispatcher.Promote` | index.js:125-142 | the promote branch follows `TryPromote` step by step, and the log changes by exactly the writes of its trace |
| `Dispatcher.Demote` | index.js:145-162 | the demote branch follows `TryDemote`, and the log changes by exactly the writes of its trace |
| `Dispatcher.Kick` | index.js:165-183 | the kick branch follows `TryKick`, and the log changes by exactly the writes of its trace |
| `Dispatcher.SetRankCommand` | index.js:186-212 | the setrank branch follows `TrySetRank`, and the log changes by exactly the writes of its trace |
| `Dispatcher.RankHistory` | index.js:215-233 | the rankhistory branch answers with `RankHistoryReply` and writes nothing |
| `Dispatcher.AuditLog` | index.js:236-253 | the auditlog branch answers with `AuditLogReply` and writes nothing |
| `Dispatcher.TryCommand` | index.js:107-253 | the `try` block runs the branch the command name selects; its trace and whether it threw match `Try`, and the log changes by exactly its writes |
| `Dispatcher.Handle` | index.js:102-262 | the whole handler produces `DispatchFixed`, the catch corrected as under Findings; the log becomes the old log with the trace's writes recorded in order |
| `Guarantees.PromoteWrites` | index.js:128-133 | promote writes at most once, only right after a `promote` that returned, and never when it throws |
| `Guarantees.PromoteAnswers` | index.js:126-141 | promote answers once at its end, or not at all before throwing; it throws exactly when the lookup or `promote` rejects |
| `Guarantees.DemoteWrites` | index.js:148-153 | demote writes at most once, only right after a `demote` that returned, and never when it throws |
| `Guarantees.DemoteAnswers` | index.js:146-161 | demote answers once at its end, or not at all before throwing; it throws exactly when the lookup or `demote` rejects |
| `Guarantees.KickWrites` | index.js:168-174 | kick writes at most once, only right after an `exile` that returned, and never when it throws |
| `Guarantees.KickAnswers` | index.js:166-182 | kick answers once at its end, or not at all before throwing; it throws exactly when the lookup, `getGroup` or `exile` rejects |
| `Guarantees.SetRankWrites` | index.js:191-203 | setrank writes at most once, only right after a `setRank` that returned, and never when it throws |
| `Guarantees.SetRankAnswers` | index.js:189-211 | setrank answers once at its end, or not at all before throwing; it throws exactly when the lookup or the catalog fetch rejects, or when a resolved `setRank` rejects |
| `Guarantees.RankInfoWrites` | index.js:109-122 | rankinfo never writes |
| `Guarantees.RankInfoAnswers` | index.js:109-122 | rankinfo throws exactly when the catalog fetch rejects, and never answers in the catch block's style |
| `Guarantees.RankHistoryWrites` | index.js:215-233 | rankhistory never writes |
| `Guarantees.RankHistoryAnswers` | index.js:215-233 | rankhistory never throws and answers once, at its end |
| `Guarantees.AuditLogWrites` | index.js:236-253 | auditlog never writes |
| `Guarantees.AuditLogAnswers` | index.js:236-253 | auditlog never throws and answers once, at its end |
| `Guarantees.UnhandledWrites` | index.js:107-254 | a name that no branch handles writes nothing |
| `Guarantees.UnhandledAnswers` | index.js:107-254 | a name that no branch handles never throws |
| `Guarantees.RunWrites` | index.js:107-253 | every branch keeps to the write discipline of its command |
| `Guarantees.RunAnswers` | index.js:107-253 | every branch keeps to the answer discipline of its command |
| `Guarantees.IgnoredEvents` | index.js:103 | a non-command interaction, or an unhandled command name, has no effect at all |
| `Guarantees.MissingUsernameStopsEarly` | index.js:126 | without a username, promote, demote, kick, setrank and rankhistory give one ephemeral notice, with no call and no write |
| `Guarantees.UnresolvedRankStopsBeforeSetRank` | index.js:191-197 | an unresolved setrank makes the two lookups, then gives one ephemeral notice, with no `setRank` and no write |
| `Guarantees.UnknownNumberNeverSetsRank` | index.js:194-199 | a rank number no catalog entry carries never reaches `setRank` and writes nothing, whatever name comes with it |
| `Guarantees.WriteFollowsMutation` | index.js:128-203 | in any invocation, a write only comes right after a mutation that returned, is followed by one last reply, and happens at most once |
| `Guarantees.PromoteRecordsNewRole` | index.js:129-132 | a successful promote logs the user with the role `promote` reports afterwards |
| `Guarantees.DemoteRecordsNewRole` | index.js:149-152 | a successful demote logs the user with the role `demote` reports afterwards |
| `Guarantees.KickRecordsNoRank` | index.js:170-173 | a successful kick logs the user with no rank |
| `Guarantees.SetRankRecordsResolved` | index.js:199-202 | a successful setrank sets, and logs, exactly the rank the resolver picked |
| `Guarantees.RejectionEndsInCatch` | index.js:255-262 | an invocation ends in the catch reply exactly when an awaited call throws; that reply is last, and nothing is written |
| `Guarantees.ReadOnlyCommandsLeaveLogAlone` | index.js:109-253 | rankinfo, rankhistory and auditlog never write, and make no call other than the catalog fetch |
| `Guarantees.RankInfoListsCatalog` | index.js:109-121 | rankinfo defers, fetches, and edits its reply to show the sorted listing |
| `Guarantees.AuditLogShowsLatest` | index.js:236-252 | auditlog shows one line for each of the first min(6, length) entries, newest first, or an ephemeral notice on an empty log |
| `Guarantees.RankHistoryShowsUser` | index.js:215-232 | rankhistory shows one line for each of the user's first six entries, in log order, or an ephemeral notice when there are none |
| `Guarantees.PromoteThenHistory` | index.js:125-233 | after a successful promote, a rankhistory for that user in any case shows the new entry first |
| `Guarantees.OneInitialResponse` | index.js:107-262 | every handled command responds exactly once, except a rankinfo whose catalog fetch throws |
| `Guarantees.OrdinaryRespondsOnce` | index.js:124-262 | the commands other than rankinfo respond exactly once, whether or not they throw |
| `Guarantees.RankInfoRejectionRespondsTwice` | index.js:110-111 | as written, a rankinfo whose fetch throws defers its reply and then replies again from the catch block |
| `Guarantees.FixedRespondsOnce` | index.js:255-262 | with the catch block editing a deferred reply, every handled command responds exactly once; nothing else changes |

## Left out

- Start-up is not modelled: environment variables, the service and Discord logins, client
  construction and the registration of the slash commands (index.js:1-36, 49-99, 265-267).
  None of it is part of handling a command.
- Each call into the group-management service (noblox) is a canned answer in `Gateway`: a
  value or a throw. `groupId` is implicit. No command makes the same kind of call twice, so
  one answer per kind suffices. What the service does to the real group is outside the model.
- A malformed service payload is not modelled. An example is a `promote` result without
  `newRole`, which throws at the log write. The model treats every resolved answer as
  well-formed.
- `new Date()` is the integer parameter `now`. The clock is outside the model.
- Responses on the interaction (`reply`, `deferReply`, `editReply`) never reject in the
  model. So the model does not cover a rejected catch reply, or the missing-username reply
  that is returned without `await`.
- Embed titles, colours, timestamps and emoji are not modelled. The failure-emoji prefix of
  the content replies is dropped. An embed's description is the sequence of its lines,
  before `join("\n")`.
- The embed builder's own validation is not modelled. For example, it rejects an empty or
  over-long description, as an empty catalog would give.
- `console.error` logging is not modelled.
- Several handlers can be in flight at once, and their appends to the shared log can
  interleave. The model runs each invocation to completion on its own.
- `Text.Lower`: does not model Unicode case mapping. Only the ASCII letters A-Z are
  lower-cased, so names outside ASCII compare as they are.
- `Ranks.SortByRank`: does not state that equal ranks keep their catalog order. JavaScript's
  `sort` is stable, but the contract states only ascending order and permutation.
- `Ranks.RankListingSortsCatalog`: like `Ranks.SortByRank`, does not state the order among
  equal ranks.
- Integers are unbounded. Rank numbers and service ids in the bot are JavaScript numbers,
  and their range is never approached.

## Findings

| source | as written | input that shows it | evidently intended | confidence | as-written member | corrected member |
|---|---|---|---|---|---|---|
| index.js:110,261 | rankinfo calls `deferReply()` first; when `getRoles` then throws, the catch block calls `reply(...)` on the interaction it has already acknowledged, so there are two initial responses and the failure message is not shown | command `rankinfo` with `getRoles` rejecting | the catch block edits the deferred reply (`editReply`) when a reply was already deferred, so each command responds exactly once | not executed | `Guarantees.RankInfoRejectionRespondsTwice` (over `Dispatcher.Dispatch`) | `Guarantees.FixedRespondsOnce` (over `Dispatcher.DispatchFixed`, which `Dispatcher.Handle` implements) |
