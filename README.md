# threads-poster, modelled in Dafny

threads-poster publishes the articles of a portfolio blog as posts on the
Threads social network. This project models its core logic and proves
properties of that model:

- **Article selection and posting text** (`index.js`, module `Poster` in
  `poster.dfy`). Covers:
  - which markdown entries become articles;
  - the fallback thread text with its category emoji, up to three hashtags and
    the 500-code-unit limit;
  - which articles one run sends: not yet posted, category not excluded,
    capped in number;
  - the posting loop that records results and extends the posted-id history.
- **The delivery scheduler** (`lib/scheduler.js`, module `Scheduling` in
  `scheduler.dfy`). The class `Scheduler` keeps the list of scheduled items
  and mirrors it to a schedule file. It covers:
  - loading, scheduling, lookup and listing;
  - cancellation and status updates;
  - retention cleanup;
  - the polling cycle, which hands due items to a callback, counts retries
    and fails an item once it reaches `maxRetries`.
- **The scheduler integration** (`scheduler-integration.js`, module
  `Integration` in `integration.dfy`). The class `SchedulerIntegration`:
  - turns the outcome of posting a due item into status updates;
  - schedules article posts and text posts, sending a notice for each;
  - cancels items and reports statistics.
- **Configuration** (`lib/config.js`, module `Config` in `config.dfy`):
  - the merge of defaults, config file and environment;
  - the removal of null and undefined entries;
  - the check that an access token is present.
- **Logging** (`lib/logger.js`, module `Logging` in `logger.dfy`): the
  level-threshold filter of class `Logger`.

`seqs.dfy` holds the order-preserving filter used throughout. It models
`Array.prototype.filter`. `wrappers.dfy` holds `Option` and `Result`.

Conventions of the model:

- JavaScript strings that are measured or cut are sequences of UTF-16 code
  units (`Poster.Text`). So an emoji counts two, as it does for `.length`
  and `.slice`.
- Times are integers. The current time, the length of a day and fresh ids are
  parameters.
- The schedule file is a `Snapshot` value: missing, unreadable, or a stored
  list.
- Whether saving succeeds is the constant `writable` of a scheduler. A save
  that fails keeps the in-memory change, as the source assigns before it
  saves. The failure surfaces as `SaveFailed`.
- The callback the scheduler calls for a due item is a function from the item
  to a `Dispatch`. A `Dispatch` holds the status updates the callback makes
  through the scheduler, and the message of the exception it ends by
  throwing, if it throws.
- The remote API is a function from each article or item to a `Delivery`:
  accepted with a thread id, or refused with an error message.

## Model

| member | source | states |
|---|---|---|
| Poster.EntryPost | index.js:21-54 | An entry becomes an article iff it is a `.md` file, is not marked `published: false`, and has no valid date or is dated no later than today. Its id and slug are the front-matter slug, or else the file name without `.md`. Its tags default to the empty list. |
| Poster.Emoji | index.js:143-151 | A listed category gets its own emoji and any other category gets ✨. Either is one or two code units long. |
| Poster.StripSpaces | index.js:154 | The result is the tag's characters that are not JavaScript whitespace, in their original order and number. |
| Poster.Hashtags | index.js:154 | At most three hashtags, one per tag among the first three, in order. Each is `#` followed by the tag without whitespace. |
| Poster.Limit | index.js:175-178 | The text is never longer than 500 code units. A text that fits is unchanged. A longer one keeps its first 497 units and ends in `...`. |
| Poster.GenerateFallbackPost | index.js:139-181 | The text built piece by piece is the specified fallback post: title and emoji, then the description when present, then the link paragraph, then the hashtags when there are tags, limited to 500 code units. |
| Poster.PostUrl | index.js:117 | The article URL is the base URL, then `/blog/`, then the slug, so the slug can be read back from the URL. |
| Poster.Publish | index.js:262-281 | The result is a success iff the text was generated and the API accepted it. A success carries the text and the thread id. A failure carries the message of whichever step threw. |
| Poster.PostToThreads | index.js:253-282 | Posting an article succeeds iff the API accepts it. The text sent is the article's fallback post for its blog URL, at most 500 code units long. |
| Poster.SliceEnd | index.js:316 | `slice(0, end)` keeps `min(end, length)` elements for a non-negative end, and never more than the list has. |
| Poster.SelectPosts | index.js:302-316 | The articles sent are a prefix of the eligible articles in their original order. Eligible means not yet posted and not in an excluded category. The prefix is `maxPostsPerRun` long, or all of them when fewer. When the setting is absent, every eligible article is sent. |
| Poster.ResultsAt | index.js:327-329 | The k-th result is the outcome of posting the k-th selected article. It is a success iff the API accepted that article. |
| Poster.PostAll | index.js:326-338 | The loop records one result per article in order. The history becomes the old ids plus exactly the ids of the articles whose result is a success. |
| Scheduling.Loaded | lib/scheduler.js:39-55 | Loading yields the stored list. A missing or unreadable schedule file yields the empty list. |
| Scheduling.Saved | lib/scheduler.js:61-72 | After a save, a writable file loads back as exactly the saved list. An unwritable file keeps its previous contents. |
| Scheduling.NewItem | lib/scheduler.js:81-92 | A new item holds the given id, payload and time and is pending. Its retry count is 0 and its thread id, publication time, update time and error are all unset. |
| Scheduling.FindIndex | lib/scheduler.js:128 | The lookup answers the first position holding the id, and nothing iff no item has it. |
| Scheduling.ScheduledIsFound | lib/scheduler.js:94-107 | An item scheduled under a fresh id is found by that id, at the end of the list and pending, and the ids stay unique. |
| Scheduling.Touched | lib/scheduler.js:210-223 | A status update sets the status and the update time. It overwrites the thread id and the error only with a non-empty value, and the publication time only when one is given. Every other field is kept. |
| Scheduling.StatusUpdated | lib/scheduler.js:203-227 | An unknown id changes nothing. Otherwise the first item with the id is updated whatever its previous status, and every other item is unchanged. |
| Scheduling.CancelOutcome | lib/scheduler.js:127-146 | Cancelling succeeds iff the id exists and its item is pending. On success only that item changes: it becomes cancelled and records the update time. |
| Scheduling.CancelTwice | lib/scheduler.js:134-138 | After a successful cancel, cancelling the same id again returns false. |
| Scheduling.LastTouched | lib/scheduler.js:179 | A finished item is aged by its update time, else its publication time, else its creation time. |
| Scheduling.Retained | lib/scheduler.js:169-185 | A failed item is kept iff it was created at or after the cutoff. A published or cancelled item is kept iff it was last touched at or after the cutoff. Pending items and items with any other status are always kept. |
| Scheduling.Survivors | lib/scheduler.js:169-185 | Cleanup never lengthens the list. |
| Scheduling.SurvivorsRetained | lib/scheduler.js:169-185 | An item survives cleanup iff it was in the list and is retained. |
| Scheduling.CleanupIdempotent | lib/scheduler.js:169-185 | Cleaning up a second time with the same cutoff removes nothing more. |
| Scheduling.Cleaned | lib/scheduler.js:164-194 | Cleanup keeps exactly the retained items, in order. The file is written only when something was removed and it is writable, and it then loads back as the kept list. |
| Scheduling.Applied | lib/scheduler.js:257 | The callback's status updates never add, remove or reorder items, and never change an id. |
| Scheduling.AppliedLocal | lib/scheduler.js:257 | With unique ids, the callback's updates on one item leave every other item as it was. |
| Scheduling.DueStep | lib/scheduler.js:256-272 | Dispatching one due item keeps the length of the list and every id. |
| Scheduling.ThrowingDispatch | lib/scheduler.js:258-271 | For any callback that throws, whether or not it updated the item first, the retry count ends exactly one above its value before the dispatch. Once the count reaches `maxRetries` the item becomes failed with the thrown message, and the loop is escaped iff that save fails. Below the threshold the item keeps the callback's updates. Only for a callback that made no update is the item otherwise unchanged and the file untouched. No other item changes. |
| Scheduling.AppliedKeepsRetries | lib/scheduler.js:203-227 | Status updates never change any retry count. |
| Scheduling.DueStepLocal | lib/scheduler.js:256-272 | Dispatching the item at one position changes no other item and keeps the ids unique. |
| Scheduling.RunCycle | lib/scheduler.js:255-273 | The loop dispatches a prefix of the due ids in order. It dispatches all of them unless it was escaped. Positions and ids are kept. |
| Scheduling.AbortSticks | lib/scheduler.js:251-280 | Once a save failure escapes the loop, the remaining due items are not dispatched and nothing further changes. |
| Scheduling.WritableNeverAborts | lib/scheduler.js:264-267 | When every save succeeds the loop is never escaped. |
| Scheduling.CycleLocal | lib/scheduler.js:255-273 | With unique ids, the loop changes no item outside the due positions and keeps the ids unique. |
| Scheduling.CycleDispatchesDue | lib/scheduler.js:252-257 | A cycle hands the callback the due items, each once, in list order, and all of them when every save succeeds. |
| Scheduling.Cycle | lib/scheduler.js:251-280 | A check cycle is escaped only when the file cannot be written. A cycle that completes leaves only items the seven-day retention keeps. |
| Scheduling.Setting | lib/scheduler.js:29 | A given setting overrides the default. |
| Scheduling.Scheduler.constructor | lib/scheduler.js:17-33 | A new scheduler is stopped with an empty list. Its interval, retry limit and retry delay default to 60000, 3 and 5000. |
| Scheduling.Scheduler.Save | lib/scheduler.js:61-72 | Saving writes the current list to the file iff the file is writable, and reports whether it did. |
| Scheduling.Scheduler.LoadSchedule | lib/scheduler.js:39-55 | The list becomes the stored one, or empty. Only a missing file is written back, as an empty list. |
| Scheduling.Scheduler.SchedulePost | lib/scheduler.js:80-99 | Exactly one new pending item is appended at the end and earlier items are unchanged. The list is saved, and the new item is returned unless the save throws. |
| Scheduling.Scheduler.GetScheduledPost | lib/scheduler.js:106-108 | The result is the first item with the id, and null iff no item has it. |
| Scheduling.Scheduler.GetAllScheduledPosts | lib/scheduler.js:115-120 | With a status, exactly the items with that status in list order. With no status, the whole list. |
| Scheduling.Scheduler.GetDuePosts | lib/scheduler.js:152-157 | Exactly the pending items scheduled no later than now, in list order. |
| Scheduling.Scheduler.CancelScheduledPost | lib/scheduler.js:127-146 | An unknown or non-pending id gives false and changes nothing, not even the file. Otherwise the list becomes the cancelled outcome and is saved, and the result is true unless the save throws. |
| Scheduling.Scheduler.UpdatePostStatus | lib/scheduler.js:203-227 | An unknown id gives false and changes nothing. Otherwise the list becomes the updated one and is saved, and the result is true unless the save throws. |
| Scheduling.Scheduler.CleanupOldPosts | lib/scheduler.js:164-194 | The list becomes the retained items. The result is the number removed. The file is written only when something was removed, and the call throws iff that save fails. |
| Scheduling.Scheduler.ApplyUpdates | lib/scheduler.js:257 | The callback's status updates run in order, each through `updatePostStatus`. |
| Scheduling.Scheduler.DispatchOne | lib/scheduler.js:256-272 | One pass of the loop body: the callback, then the retry count and the escalation to failed. It returns whether a save failure escaped. |
| Scheduling.Scheduler.DispatchAll | lib/scheduler.js:255-273 | The loop over the due positions ends in the state, dispatched ids and escape flag of the specified loop. |
| Scheduling.Scheduler.CheckSchedule | lib/scheduler.js:246-281 | A stopped scheduler does nothing. A running one performs the specified cycle: dispatch the items due now, then the seven-day cleanup unless a save failure escaped. |
| Scheduling.Scheduler.Start | lib/scheduler.js:234-288 | Starting an already running scheduler changes nothing. Otherwise it loads the schedule, becomes running, runs one cycle and arms the timer. |
| Scheduling.Scheduler.Stop | lib/scheduler.js:294-307 | Afterwards the scheduler is stopped. Stopping a running scheduler disarms its timer. |
| Scheduling.Scheduler.IsActive | lib/scheduler.js:313-315 | True iff the scheduler is running. |
| Integration.ContentAsWritten | scheduler-integration.js:107-110 | As written: an article's text is its fallback post, and generating the text of a text post always throws. |
| Integration.TextPostsNeverPost | scheduler-integration.js:103-135 | As written, a scheduled text post is never published, whatever the API would do. |
| Integration.Content | scheduler-integration.js:107-110 | Corrected: articles as before, and a text post's own text within the 500-unit limit. Any generated text fits the limit. |
| Integration.PostPayload | scheduler-integration.js:103-135 | As written, posting succeeds iff the payload is an article and the API accepted it. A success carries the article's fallback text and the thread id. A text post always fails with the TypeError's message. |
| Integration.PostPayloadIntended | scheduler-integration.js:103-135 | Corrected: posting succeeds iff the intended text was generated and the API accepted it. A success carries that text and the thread id. |
| Integration.ExecutionEffect | scheduler-integration.js:56-96 | A success marks the item published with the thread id and the time, and a failure marks it failed with the error. When that save throws, the item is marked failed with the save's message, and that save's exception escapes. |
| Integration.Executor | scheduler-integration.js:36-38 | The callback handed to the scheduler makes at least one update per item. The first update publishes the item iff it is an article the API accepted. The callback throws iff the schedule file cannot be written. |
| Integration.ExecutionSettles | scheduler-integration.js:56-96 | With a writable file a due item is settled in one pass. It becomes published exactly when it was posted, and failed otherwise, so a text post always ends failed. Its retry count is unchanged, the file mirrors the list, and no other item changes. |
| Integration.UnwritableExecution | scheduler-integration.js:77-95 | With an unwritable schedule file, executing a due item throws after its updates. The item ends failed with the write error and its retry count rises by one. The file keeps its contents. The loop is escaped iff the count reaches `maxRetries`. No other item changes. |
| Integration.TextPayload | scheduler-integration.js:168-172 | The payload holds `type: 'text'` and the text, and every metadata key, with the metadata overriding both. |
| Integration.TextPostDelivered | scheduler-integration.js:165-174 | Corrected: with the intended content, a text post scheduled without metadata publishes its own text, limited to 500 units, when the API accepts it. |
| Integration.Preview | scheduler-integration.js:178 | The notice preview is the text when it has at most 50 code units. Otherwise it is the first 50 followed by `...`. |
| Integration.StatsBalance | scheduler-integration.js:240-245 | The four status counts never exceed the total. They add up to it exactly when every item has one of the four known statuses. |
| Integration.SchedulerIntegration.constructor | scheduler-integration.js:25-29 | The integration owns a fresh scheduler that is stopped, with its timer unarmed and an empty list. Its interval, retry limit and retry delay are the defaults 60000, 3 and 5000. No notice has been sent. |
| Integration.SchedulerIntegration.Start | scheduler-integration.js:35-40 | Starting a running scheduler changes nothing and dispatches nothing. Otherwise the schedule is loaded, one check cycle runs with `executeScheduledPost` as its callback, and the timer is armed. The list and file are those the cycle leaves, and the dispatched ids are the cycle's. |
| Integration.SchedulerIntegration.Stop | scheduler-integration.js:46-49 | Afterwards the owned scheduler is stopped. A running scheduler's timer is disarmed; a stopped one's timer is left as it was. |
| Integration.SchedulerIntegration.ExecuteScheduledPost | scheduler-integration.js:56-96 | Executing an item performs exactly the status updates of the specified effect through the scheduler, and lets the same exception escape. |
| Integration.SchedulerIntegration.SchedulePost | scheduler-integration.js:143-156 | One new pending article item is appended. A notice naming the title and id is sent once it is saved. |
| Integration.SchedulerIntegration.ScheduleTextPost | scheduler-integration.js:165-184 | One new pending item holding the text payload is appended and the list is saved. The new item is returned iff the file is writable, else the save failure. A notice with the 50-unit preview is sent once it is saved. |
| Integration.SchedulerIntegration.CancelScheduledPost | scheduler-integration.js:200-213 | Cancelling an unknown or non-pending id returns false and changes neither the list nor the file. Otherwise the item becomes cancelled, the list is saved, and true is returned iff the file is writable. A notice is sent only when the answer is true. |
| Integration.SchedulerIntegration.CleanupOldPosts | scheduler-integration.js:220-223 | The list and file become what the scheduler's cleanup leaves. The result is the number of removed items, and it is a save failure iff something was removed and the file is not writable. |
| Integration.SchedulerIntegration.ListScheduledPosts | scheduler-integration.js:191-193 | With a status, exactly the items with that status, in list order. With no status, the whole list. |
| Integration.SchedulerIntegration.IsActive | scheduler-integration.js:229-231 | True iff the owned scheduler is running. |
| Integration.SchedulerIntegration.GetStats | scheduler-integration.js:237-248 | The total, the count for each status, and the running flag. The status counts sum to at most the total. |
| Config.EnvSettings | lib/config.js:40-48 | The environment mapping always has the seven keys, defined or not. `dryRun` is true iff THREADS_DRY_RUN is `"true"`. A THREADS_ variable wins over its fallback only when it is non-empty. |
| Config.FileSettings | lib/config.js:27-37 | A missing, unreadable or malformed file contributes nothing. |
| Config.Merged | lib/config.js:51-55 | The environment decides the seven environment keys. The file decides its other keys, over the defaults. |
| Config.Stripped | lib/config.js:57-62 | Exactly the entries that are neither null nor undefined remain, with their values. |
| Config.LoadConfig | lib/config.js:14-65 | Deleting the null and undefined keys one by one yields the stripped merge. |
| Config.LoadedShape | lib/config.js:50-62 | No loaded value is null or undefined. `dryRun` is always present. A file key outside the environment mapping keeps its non-null value. |
| Config.EnvDecides | lib/config.js:40-55 | As written, an environment key is present iff its variable is defined, and then holds it, whatever the file and defaults say. |
| Config.MalformedIsNoFile | lib/config.js:30-37 | A malformed config file loads like no file. |
| Config.ValidateConfig | lib/config.js:70-79 | Validation fails, naming `accessToken`, iff it is absent or falsy, and otherwise returns true. |
| Config.FileTokenDiscarded | lib/config.js:40-55 | As written, an access token given only in the config file is dropped, so validation fails. The default API version is lost too. |
| Config.IntendedEnv | lib/config.js:11-12 | Corrected: the environment mapping, except that an unset THREADS_DRY_RUN leaves `dryRun` undefined rather than false. |
| Config.IntendedConfig | lib/config.js:11-12 | Corrected: no value of the merged configuration is null or undefined. |
| Config.IntendedPriority | lib/config.js:11-12 | Corrected: each key takes the value of the highest-priority source that defines it (environment, then config file, then default), where an unset variable defines nothing. Every default survives when neither of the other sources defines the key. |
| Config.IntendedDryRun | lib/config.js:11-12 | Corrected: with THREADS_DRY_RUN unset, `dryRun` is the config file's value, or `false` when the file has none. |
| Logging.Threshold | lib/logger.js:17 | The threshold is 1, 2 or 3. A known level other than `debug` gives its own rank, and `debug` or an unknown name gives 1. |
| Logging.Logger.constructor | lib/logger.js:15-18 | The level is the configured one when it is a non-empty string, else `info`. The threshold follows it. |
| Logging.Logger.SetLevel | lib/logger.js:20-23 | The level becomes the given name, whatever it is, and the threshold follows it. |
| Logging.Logger.Log | lib/logger.js:25-33 | A message prints iff its level is known and ranked at or above the threshold. An unknown level never prints. |
| Logging.Logger.Debug | lib/logger.js:35-37 | Debug messages never print. |
| Logging.Logger.Info | lib/logger.js:39-41 | Info messages print unless the level is `warn` or `error`. |
| Logging.Logger.Warn | lib/logger.js:43-45 | Warn messages print unless the level is `error`. |
| Logging.Logger.Error | lib/logger.js:47-49 | Error messages always print. |
| Logging.PrintingIsMonotone | lib/logger.js:25-33 | A message that prints at one rank also prints at every higher rank. |
| Logging.DebugIsInfo | lib/logger.js:16-22 | The levels `debug` and an unknown name both behave like `info`. |

## Left out

- File I/O and JSON are not modelled: the schedule file, the config file, the blog directory, the posted-id history file and their text formats. Each file is a value: a snapshot, parsed settings, front matter, or a set of ids.
- The network is not modelled. Creating and publishing a thread is one `Delivery` answer per article or item.
- `lib/threads-client.js` and `lib/skill.js` are not part of this model.
- Timers and concurrency are not modelled. `setInterval` is the flag `timerArmed`. The `retryDelay` sleep and the one-second pause between articles take no time. The overlap of a timer tick with a cycle still running is not modelled.
- The wall clock and randomness are parameters. `Date.now`/`Math.random` ids are fresh ids the caller supplies. ISO date strings are integer times.
- The local-calendar `setDate` in `cleanupOldPosts` is `days` times a given day length, so daylight-saving days are not modelled.
- Scheduling.Scheduler.SchedulePost: requires nothing about the id, and the model does not show that generated ids are unique; the uniqueness lemmas take it as a hypothesis.
- Integration.SchedulerIntegration.ExecuteScheduledPost: requires the item's id to be in the list. The scheduler only calls it on items it just listed as due.
- Chat notices are not modelled for the outcome of an execution, for the empty run of `main`, or for failed sends. A notice is recorded only where scheduling and cancelling send one.
- The default `sendMessage` of the integration is not modelled: a function returning `undefined`, on which `.catch` would throw. Every caller passes a sender.
- The newest-first sort of `getBlogPosts` (index.js:58) is not modelled. `SelectPosts` keeps the order of whatever list it is given.
- The AI branch of `generateThreadPost` is the fallback post, as in the source. No AI text is generated.
- The `postId` field of the posting result is not kept. Results are matched to articles by position (`Poster.ResultsAt`). The `content` of a `Posted` result stands for `threadContent` (index.js:266-272).
- The text of a failed save's exception is the constant `WriteError`.
- Integration.ContentAsWritten: the message `tags.slice(...).map is not a function` stands for any text post whose metadata supplies a `tags` value that is not a list. It assumes the value is a string.
- Poster.Emoji: category names that are properties every JavaScript object inherits, such as `constructor` or `toString`, get the default emoji. In the source the lookup finds the inherited member, which is truthy, and inserts its string form instead.
- Logging.Logger.Log: level names that are properties every JavaScript object inherits, such as `toString`, are treated like unknown names. In the source they make the threshold a non-number, which silences every message.
- Config.LoadConfig: a config file parsing to something other than a JSON object (an array, a number, `null`) is not modelled.
- Console output, timestamps and the `[LEVEL]` prefixes are not modelled.

## Findings

| source | as written | input that shows it | evidently intended | confidence | as-written member | corrected member |
|---|---|---|---|---|---|---|
| scheduler-integration.js:107-110 | A due item is always posted through `generateFallbackPost`, even when its payload is the `{type: 'text', text}` object `scheduleTextPost` builds. That object has no `tags`, so `tags.slice` throws a TypeError, and every text post ends as failed. The integration class runs this as-written behaviour (`PostPayload`, `ExecutionSettles`). | `scheduleTextPost("hello", t)` and then a cycle at time `t` with an API that accepts everything: the item becomes `failed` with "Cannot read properties of undefined (reading 'slice')". | A text post publishes its own text: test-immediate.js schedules one for immediate publication and then lists its thread id. | not executed | Integration.TextPostsNeverPost | Integration.TextPostDelivered |
| lib/config.js:40-55 | The environment mapping always defines its seven keys, so an unset variable spreads `undefined` over the file and default values. The later stripping then deletes those keys. | An empty environment and a config file `{"accessToken": "abc"}`: the loaded configuration has no `accessToken`, so `validateConfig` throws. It also has no `apiVersion`, so the client URL ends in `/undefined` (lib/threads-client.js:12). | Environment over config file over defaults (lib/config.js:12), where an unset variable, THREADS_DRY_RUN included, does not override. | not executed | Config.FileTokenDiscarded | Config.IntendedPriority |
