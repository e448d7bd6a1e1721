# Layer OS runtime: verified models of its stateful components

The Go runtime keeps its state in small in-memory stores: a bounded event log with an archive on disk, throttle
counters, write tokens, a deduplicating corpus, continuity records, observation links, path checks, and a few
multi-step operations. Each is modelled here in Dafny in the form it has in the source (methods and loops over
fields where the Go code updates in place, functions where it computes values), and proved against laws about whole
runs. Check everything with `dafny verify dfyconfig.toml`.

| files | component |
|---|---|
| `Text`, `Sorting`, `SortedSets` | Go's string functions, stable sorting, sorted map keys |
| `EventLog`, `EventLogLaws`, `EventArchive`, `EventArchiveLaws`, `EventStream`, `EventStreamLaws` | the event store, its archive file, the resumable event stream |
| `Throttle`, `ThrottleLaws`, `WriteAuth`, `WriteAuthLaws` | failure counters with blocking and garbage collection, write tokens, the gate over both |
| `Corpus` | windowed deduplication behind a hash cache |
| `ContinuityRecords`, `ContinuityFields`, `ContinuityLists`, `ContinuityLaws`, `ContinuitySteps` | time-dependent normalisation, sorting, upsert, session steps |
| `Tokens`, `Evidence`, `EvidenceTools` | metadata tokens, evidence builders, dedupe references |
| `ObservationLinks`, `ObservationLinkLaws` | grouping of observations through maps |
| `Paths`, `PathChecks` | lexical paths, three containment checks, the path sanitizer |
| `Conversation`, `ConversationLaws` | the all-or-nothing conversation note |
| `Dispatch`, `Attention` | provider retries, ranking of source-intake items |

## Conventions

Time is a natural number of nanoseconds, zero being Go's zero time. Strings are sequences of code points. Unicode
tables are parameters with stated laws (`Text.Casing`, `Tokens.Alphabet`), hashing is a parameter (injective where a
law needs it), and JSON is a codec whose encoding is one non-blank line that decodes back. Where a proof needs only a few
laws of heavier functions, the functions are fields of a datatype (`Env`, `Tools`, `Texts`) with those laws as
`Valid()`; a lemma `ProgramIsValid` in `ContinuityFields`, `EvidenceTools` and `Dispatch` shows that the program's own
functions have them. What sits behind a call into code outside a component (a save that fails, the review room's answer,
an HTTP reply) is an input, so every law holds for all of its outcomes.

## Where the code differs from the expectation

Each of these is a law with the exact condition under which the expectation holds.

- A failed save restores the event store, but the archive may have been written by then: archive, queue and tail stay
  the log exactly when nothing queued had reached the archive (`EventLogLaws.FailureConservesIff`,
  `EventLogLaws.DuplicatedArchive`).
- Nor does the rollback take back the tail on disk. A save compares the tail with what the last successful save wrote, so
  after such a failure one that brings no event skips the event file, and a restart reads the rolled-back events. A
  successful save puts everything on disk exactly when it finds something to write or the tail is there already
  (`EventLogLaws.PersistQuiescentIff`, `EventLogLaws.RestartAfterPersistIff`, `EventLogLaws.RolledBackEventReturns`).
- Appending to an NDJSON archive extends its reading exactly when its last line is blank; otherwise the first new event
  is swallowed by the unfinished line (`EventArchiveLaws.AppendExtendsReading`).
- Sweeping old throttle counters cannot be observed exactly when windows are no longer than the retention
  (`ThrottleLaws.SweepingInvisibleIff`).
- When setting or clearing a scoped token fails to save, the change of the token table stays, since the copied
  configuration shares the map (`WriteAuth.AuthStore.SetWriteToken`, `WriteAuth.SharedTableSurvivesRestore`).
- `hasDirPrefix` with the current directory as prefix holds for no other relative path (`PathChecks.HasDirPrefixIff`).
- `pathWithinDir` goes by the working directory: on relative paths with dot-dots it departs from the segments
  (`PathChecks.RelativeWithinDirIff`, `PathChecks.ParentHoldsAll`).
- Sanitizing a sanitized path changes it exactly when the last segment given ends in white space
  (`PathChecks.SanitizeTwiceIff`, `PathChecks.SanitizeTwiceDiffers`).
- A reload of the corpus adds the saved entries again at the present time: taking less than a window it keeps only the
  first of every hash, however far apart they were accepted (`Corpus.QuickReloadKeepsFirsts`, `Corpus.ReloadKeepsAllIff`).
- The attention cascade departs from the rank in one case (`Attention.PickedRankIff`, `Attention.ExceptionOccurs`).
- A repeated conversation note is refused exactly when the job of its key exists but lost its dedupe note, which an
  update that replaces a job's notes brings about (`ConversationLaws.RefusedIff`, `ConversationLaws.ReplacedNotesRefuse`).

## Model

| member | source | states |
|---|---|---|
| `EventLog.EventStore.Append` | internal/runtime/event.go:116-129 | a valid event loses nothing: queue and tail are the old ones followed by it, and the tail has the smaller of a positive limit and one more than before; without a positive limit nothing is queued; an event is invalid exactly when its id, kind, actor or work item is blank, its time missing or its type unknown, and changes nothing |
| `EventLogLaws.AppendQueuesIff` | internal/runtime/event.go:116-129 | an append queues something if and only if it is valid and the tail full, then exactly the oldest event, and the tail stays full |
| `EventLogLaws.RunQueuesBesideFull` | internal/runtime/event.go:33-135 | over every run events wait for the archive only beside a full tail, and the tail never exceeds a positive limit |
| `EventLog.EventStore.WithArchiveCount` | internal/runtime/event.go:33-45 | a restart keeps the newest deduplicated events up to the limit, with nothing queued and a non-negative archive count |
| `EventLog.EventStore.FromEvidence` | internal/runtime/event.go:47-56 | an import loses nothing: tail and queue together are the deduplicated input, and only a full tail leaves a queue |
| `EventLog.EventStore.FromState` | internal/runtime/event.go:58-71 | a rollback restores the saved state, reading a non-positive limit from the environment again |
| `EventLog.EventStore.MarkArchivePersisted` | internal/runtime/event.go:100-105 | the queue is emptied into the archived count |
| `EventLog.EventStore.List` | internal/runtime/event.go:107-114 | the queue followed by the tail, which with the archive is the whole log (`EventLogLaws.CountIsLength`) |
| `EventLog.EventStore.TotalCount` | internal/runtime/event.go:131-135 | archived, queued and kept events together |
| `EventLog.DedupeKeepsAllIff` | internal/runtime/event.go:150-169 | deduplication drops nothing if and only if no non-blank id occurs twice |
| `EventLog.DedupeMeaning` | internal/runtime/event.go:150-169 | the result has every id of the input and none twice |
| `EventLog.DedupePicks` | internal/runtime/event.go:150-169 | the kept events are exactly the first with each id and all without one, in their order |
| `EventLog.DedupeEvents` | internal/runtime/event.go:150-169 | the loop over the seen set keeps the first event of each id and every event without one |
| `EventLogLaws.LogConserved` | internal/runtime/event.go:33-135 | over every run of appends, saves (which skip clean event files), failed saves with and without rollback, and restarts that meet their conditions, archive, queue and tail in this order are the appended history, the count is its length and the tail respects the limit |
| `EventLogLaws.GuardedRunsKeep` | internal/runtime/service.go:1489-1515 | runs meet those conditions, without a look at the files at a restart, if every restart follows a save and no failed save leaves a tail on disk that the service does not know of |
| `EventLogLaws.PersistQuiescentIff` | internal/runtime/service.go:209-227 | a successful save leaves everything on disk if and only if it finds events to write or the tail is there already |
| `EventLogLaws.FailureConservesIff` | internal/runtime/service.go:209-227 | snapshot, appends, failing save and rollback keep archive, queue and tail the log if and only if no queued event had been archived before the failure; of the tail on disk see `EventLogLaws.SyncedIff` |
| `EventLogLaws.AbandonConservesIff` | internal/runtime/conversation.go:336-348 | a failing save after which the events stay keeps the log if and only if the archive was not extended without the tail being saved |
| `EventLogLaws.SyncedIff` | internal/runtime/service.go:1489-1515 | the tail on disk stays the one the service compares with if and only if no failed save wrote another |
| `EventLogLaws.RestartConservesIff` | internal/runtime/event.go:33-45 | a restart of a store that is on disk keeps the log if and only if the saved ids are distinct and the limit covers the saved tail |
| `EventLogLaws.RestartAfterPersistIff` | internal/runtime/service.go:1489-1515 | under those conditions a restart after a successful save keeps the log if and only if the save found events to write or the tail was on disk |
| `EventLogLaws.DuplicatedArchive` | internal/runtime/service.go:209-227 | a run in which the rollback makes an event appear twice in the archive |
| `EventLogLaws.RolledBackEventReturns` | internal/runtime/service.go:209-227 | a run in which a rolled-back event is in the log again after a save and a restart |
| `EventArchive.ArchiveFile.StreamEventArchive` | internal/runtime/disk_events.go:76-157 | reads an array file whole or fails, and a line file line by line, skipping blank and malformed lines, down to an unterminated last one |
| `EventArchive.LinesSay` | internal/runtime/disk_events.go:122-157 | a line that decodes once trimmed gives its event; a blank or malformed one gives none |
| `EventArchive.PaddingIsSkipped` | internal/runtime/disk_events.go:76-120 | white space before the content does not show in the reading |
| `EventArchive.ArchiveFile.CountEventArchive` | internal/runtime/disk_events.go:22-29 | counts exactly the events a reading gives, and fails when it fails |
| `EventArchive.ArchiveFile.EnsureNDJSON` | internal/runtime/disk_events.go:159-222 | fails exactly on an unreadable array file, leaving it alone; rewrites a readable one as lines; touches no other file |
| `EventArchive.ArchiveFile.AppendEventArchive` | internal/runtime/disk_events.go:40-66 | adds one line per event after any migration, or fails without a change |
| `EventArchiveLaws.MigrationKeepsReading` | internal/runtime/disk_events.go:159-222 | rewriting an array file as lines leaves its reading unchanged |
| `EventArchiveLaws.AppendExtendsReading` | internal/runtime/disk_events.go:40-66 | reading after an append gives the old reading followed by the new events if and only if the file is missing, an array, or ends in a blank line; otherwise the last line and the first new event are lost |
| `EventArchiveLaws.AppendsAccumulate` | internal/runtime/disk_events.go:40-157 | over every series of appends to a sound file the reading grows by exactly the batches, in order |
| `EventStream.Connection.SeedSeenEvents` | internal/api/router_event_session.go:100-117 | everything up to and including the named event counts as seen; nothing does for a blank or unknown id |
| `EventStream.Connection.Poll` | internal/api/router_event_session.go:72-96 | a poll writes exactly the events of the view that marshal and were not yet sent, in order, and counts those that marshal as sent |
| `EventStream.MarshalledAll` | internal/api/router_event_session.go:80-83 | when all events marshal, as validation sees to, the poll is over the whole view |
| `EventStreamLaws.StreamResumes` | internal/api/router_event_session.go:49-98 | over every interleaving of appends, saves and polls, events go out in log order and at most once, starting where the client left off; they are all the events up to the last poll if and only if none leaves the tail before a poll shows it |
| `EventStreamLaws.OwedMeaning` | internal/api/router_event_session.go:100-117 | a known Last-Event-ID owes exactly what follows it; a blank or unknown one owes the whole view |
| `Throttle.WriteSecurityGuard.Blocked` | internal/api/security_guard.go:165-178 | blocked with the remaining time exactly before the end of the key's block |
| `Throttle.WriteSecurityGuard.ObserveFailure` | internal/api/security_guard.go:188-224 | the counter after the failure, and the count, block end, first and escalation flags it reports |
| `Throttle.WriteSecurityGuard.PruneExpired` | internal/api/security_guard.go:230-243 | removes exactly the counters past both the retention and their block |
| `ThrottleLaws.SweepingUnobservable` | internal/api/security_guard.go:165-243 | with a non-decreasing clock and windows within the retention, a guard that prunes answers every call as one that never does |
| `ThrottleLaws.SweepingInvisibleIff` | internal/api/security_guard.go:230-243 | for a fixed window that holds if and only if the window does not exceed the retention |
| `ThrottleLaws.BetrayalShows` | internal/api/security_guard.go:230-243 | three calls that tell the two guards apart for any longer window |
| `ThrottleLaws.EpochLaw` | internal/api/security_guard.go:165-224 | every failure reports the length of its epoch, first on the first, escalated on the one at the threshold; every query is blocked exactly until the end of the block that the epoch sets |
| `WriteAuth.AuthStore.SetToken` | internal/runtime/auth.go:56-74 | a blank token is refused without a change; another replaces the hash of its actor and no other |
| `WriteAuth.AuthStore.Clear` | internal/runtime/auth.go:76-89 | removes the actor's token and no other, dropping an empty table |
| `WriteAuth.AuthStore.Authorize` | internal/runtime/auth.go:91-108 | accepts exactly the non-blank token whose hash is the founder's or the actor's own |
| `WriteAuth.AuthStore.SetWriteToken` | internal/runtime/service.go:1400-1424 | a failed save restores the configuration, except the entry of a token table that existed before |
| `WriteAuth.AuthStore.ClearWriteToken` | internal/runtime/service.go:1426-1448 | the same for clearing: a failed save keeps a founder's token but not a scoped one |
| `WriteAuth.SharedTableSurvivesRestore` | internal/runtime/service.go:1400-1424 | two calls after which the unsaved second token is the live one |
| `WriteAuth.WriteGate.RecordAuthFailure` | internal/api/security_guard.go:71-103 | counts a failure of the subject under the write policy and says whether it is blocked now |
| `WriteAuth.WriteGate.RequireWriteAuth` | internal/api/router.go:550-584 | verdict and counters after the checks, made in the order of the source; what they come to is stated by `WriteAuthLaws.GateFollowsHistory` |
| `WriteAuthLaws.ConfigHoldsLiveTokens` | internal/runtime/auth.go:56-89 | over every run the stored hashes are those of the tokens set last and not cleared since |
| `WriteAuthLaws.EnabledIffLive` | internal/runtime/auth.go:29-39 | authentication is enabled if and only if some token is live |
| `WriteAuthLaws.AuthorizesIffBears` | internal/runtime/auth.go:91-108 | a request is authorized if and only if its trimmed header is "Bearer " followed by some text that trims to the live token of its actor or of the founder |
| `WriteAuthLaws.HeaderIsRead` | internal/api/router.go:573-583 | the gate reads a token out of the header exactly when the trimmed header is "Bearer " and some text, and the token is that text trimmed |
| `WriteAuthLaws.FifthFailureBlocks` | internal/api/security_guard.go:14-22 | the fifth failure without a quiet two minutes blocks for ninety seconds, and a pause of more than two minutes outside a block starts anew |
| `WriteAuthLaws.GateFollowsHistory` | internal/api/router.go:550-584 | over every sequential run from the empty configuration the verdict is the one that the history of tokens and failures and the text of the header dictate; accepted if and only if same-origin and either no token is live or the subject is outside its block and bears a live token |
| `WriteAuthLaws.BlockedTriesLeaveNoTrace` | internal/api/router.go:550-584 | a request inside the block changes no counter and no later verdict |
| `Corpus.SimpleCorpus.Reload` | internal/runtime/corpus.go:44-56 | a reload adds the saved entries again by the same rule, each at the time it is met |
| `Corpus.ReloadKeepsAllIff` | internal/runtime/corpus.go:44-56 | it keeps every saved entry if and only if it meets entries of one hash a window apart |
| `Corpus.QuickReloadKeepsFirsts` | internal/runtime/corpus.go:44-56 | taking less than a window it keeps the first entry of every hash and no other |
| `Corpus.SimpleCorpus.AddEntry` | internal/runtime/corpus.go:72-98 | accepts if and only if no entry of the same hash was accepted less than one window ago, whenever the clean-up runs |
| `Corpus.SimpleCorpus.Retrieve` | internal/runtime/corpus.go:101-123 | the first matching entries in order, as many as a positive limit allows |
| `Corpus.MatchingAt` | internal/runtime/corpus.go:101-123 | the matching entries are exactly those the query accepts, in order |
| `Corpus.FirstMatchesAre` | internal/runtime/corpus.go:101-123 | a positive limit leaves a beginning of them of that length, any other all |
| `Corpus.SignatureTells` | internal/runtime/corpus.go:58-70 | entries without the separator have one signature if and only if they agree on source, actor, situation and decision |
| `Corpus.CacheRefinesRule` | internal/runtime/corpus.go:72-98 | over every timed run, the cache test answers for every hash what the rule over all accepted entries does |
| `Corpus.AcceptancesApart` | internal/runtime/corpus.go:72-98 | accepted entries of one hash are at least one window apart |
| `ContinuityRecords.NormalizeRecord` | internal/runtime/continuity.go:178-220 | the record as it is seen at a time: fields normalised, blank notes dropped, references gathered before notes are cut to the last fifty, status by age |
| `ContinuityLaws.FieldsSeen` | internal/runtime/continuity.go:178-220 | each field of the record seen is its own field normalised; a blank id and missing times are filled in |
| `ContinuityLaws.StatusSeen` | internal/runtime/continuity.go:232-247 | a record is stale if and only if it is not resolved and its last update a day old; a resolution time is there if and only if it is resolved |
| `ContinuityLaws.NotesSeen` | internal/runtime/continuity.go:164-176 | the notes seen are exactly those whose text is not blank, in order, each with its fields normalised |
| `ContinuityLaws.LastNotesSeen` | internal/runtime/continuity.go:222-230 | of those the last fifty stay, by `ContinuityLaws.LastOfIs` |
| `ContinuityLaws.LastOfIs` | internal/runtime/continuity.go:222-230 | the last n of a list are its end, of length n or all of it |
| `ContinuityLists.NormalizeRecords` | internal/runtime/continuity.go:65-94 | every record normalised, in the four-key order |
| `ContinuityLists.NormalizedOrdered` | internal/runtime/continuity.go:81-107 | active before stale before resolved, then the later update, the later creation and the greater id first |
| `ContinuityLaws.LookAbsorbs` | internal/runtime/continuity.go:164-247 | for a record whose texts masking leaves alone, normalising at one time and then at another is normalising at the second; the id need only be non-blank |
| `ContinuityLists.RenormalisationAbsorbs` | internal/runtime/continuity.go:65-94 | so for lists whose normalised ids are distinct, whatever the order of the input: the sorted list leaves no choice |
| `ContinuityLaws.StoreAbsorbs` | internal/runtime/continuity.go:37-94 | the same for the store's lists with the program's normaliser and ids distinct once trimmed |
| `ContinuityLaws.StaleStaysStale` | internal/runtime/continuity.go:232-247 | with time a stale record stays stale, and time neither resolves nor reopens one |
| `ContinuityFields.ProgramIsValid` | internal/runtime/continuity.go:109-220 | the program's trimming, lower-casing, actor, limit and masking functions have the laws that the record laws need |
| `ContinuityFields.ActorsSay` | internal/runtime/operator_identity.go:10-34 | the two program names and a blank count as the default actor, any other as itself in lower case |
| `ContinuityFields.LimitTextKeeps` | internal/runtime/knowledge.go:223-233 | a text that fits is only trimmed; of a longer one the beginning stays, trimmed and with an ellipsis |
| `ContinuityFields.UnchangedByMasking` | internal/runtime/conversation.go:510-530 | the condition of those laws in plain terms: an id that is not blank, a creation time, and note texts equal to their masked form |
| `ContinuityLists.UpsertRecord` | internal/runtime/continuity.go:441-457 | the list normalised after replacing the record of the same id, or after adding it |
| `ContinuityLists.UpsertRefinesMap` | internal/runtime/continuity.go:441-457 | on a list that bears normalised distinct ids upsert is a map update: the new record under its id, all others as seen now, ids still distinct, order sorted |
| `ContinuityLaws.UpsertUpdatesMap` | internal/runtime/continuity.go:441-457 | so with the program's normaliser, for a list normalised at any earlier time and any clock readings in between |
| `ContinuityLists.ContinuityStore.List` | internal/runtime/continuity.go:44-50 | the stored records as seen now, in order |
| `ContinuityLists.LatestRecord` | internal/runtime/continuity.go:412-432 | the first record in order that matches actor, source and status, if any |
| `ContinuityLists.MatchesWhen` | internal/runtime/continuity.go:412-432 | a record matches if and only if it has the status, and the actor and the source asked for unless they are blank or the wildcard |
| `ContinuityLists.LatestOpenRecord` | internal/runtime/continuity.go:434-439 | the most recently updated active match, or else the most recently updated stale one, or none if there is neither: never a resolved one |
| `ContinuityLists.ContinuityStore.Replace` | internal/runtime/continuity.go:52-63 | replaces the list if and only if every normalised record validates; then every id, focus and note is sound, and otherwise nothing changes |
| `ContinuitySteps.StepLaw` | internal/runtime/continuity.go:330-395 | a checkpoint, note or finish keeps the bounds, adds its non-blank note as the newest, and adds its references |
| `ContinuitySteps.StepState` | internal/runtime/continuity.go:330-395 | after a step the record is resolved if and only if the step was a finish and active otherwise, updated at the time of the step, with that time as resolution time after a finish and none otherwise |
| `ContinuitySteps.StepPlan` | internal/runtime/continuity.go:330-395 | a checkpoint and a finish set focus, goal, handoff, next steps and risks to the normalised inputs; a note leaves them, but a todo adds its text to the next steps and a risk to the risks |
| `ContinuitySteps.StepOwner` | internal/runtime/continuity.go:330-395 | the id and the actor stay, and a finish keeps the source that the other steps set |
| `ContinuitySteps.NewestNote` | internal/runtime/continuity.go:330-395 | the newest note has the time, text, kind and references of the step |
| `ContinuitySteps.StepsLaw` | internal/runtime/continuity.go:330-395 | over every series of steps the kept notes are the last fifty non-blank ones in order, and the references are all ever contributed, once each |
| `ContinuitySteps.RefsNeverLost` | internal/runtime/continuity.go:222-230 | no reference of the record or of any step is lost, even after its note is cut |
| `Text.CleanList` | internal/runtime/service_observation.go:84-99 | the loop over the seen set trims every entry, drops blanks and keeps the first of equal ones |
| `Text.CleanIsTidy` | internal/runtime/service_observation.go:84-99 | a value is in the cleaned list if and only if it is not blank and some entry trims to it, and then once |
| `Tokens.NormalizeMetaToken` | internal/runtime/observation_taxonomy.go:126-146 | the builder loop yields letters and numbers with single inner underscores |
| `Tokens.FixedIffToken` | internal/runtime/observation_taxonomy.go:126-146 | a value is its own token if and only if it has the form of a token; normalising twice is normalising once |
| `Tokens.TokenJoinsWords` | internal/runtime/observation_taxonomy.go:126-146 | the token of a value is its lower-case words joined by single underscores; a separator ends a word, and any other character that is no letter or number is dropped |
| `Evidence.MetadataRefs` | internal/runtime/observation_taxonomy.go:81-111 | channel and topic references followed by those of the attributes in the order of their keys |
| `Evidence.MapOrderDoesNotShow` | internal/runtime/observation_taxonomy.go:95-109 | the order in which the attribute map is walked cannot show in the references |
| `Evidence.BuildTelegramObservation` | internal/runtime/evidence_ingest.go:96-162 | the stored record's references are those of the caller, tags, channel, topic and attributes, cleaned |
| `Evidence.BuildContentObservation` | internal/runtime/evidence_ingest.go:164-226 | the same for captured content |
| `Evidence.StoredAre` | internal/runtime/observation_taxonomy.go:81-111 | the stored references are exactly the non-blank trimmed ones of the caller, the tags, channel, topic and attributes |
| `Evidence.TelegramAttrsSay` | internal/runtime/evidence_ingest.go:96-162 | each attribute of a telegram record is the token of its own field, there if and only if that is not blank, and there are no others |
| `Evidence.ContentAttrsSay` | internal/runtime/evidence_ingest.go:164-226 | the same for captured content |
| `Evidence.FallbacksSay` | internal/runtime/evidence_ingest.go:96-226 | a topic or kind given stands, trimmed or as a token, and a blank one gives way to the default |
| `Evidence.DocIdSays` | internal/runtime/evidence_ingest.go:270-279 | a document is known by the token of its id, else by its URL, and by nothing if both are blank |
| `Evidence.TelegramStoredKeyIsLookupKey` | internal/runtime/evidence_ingest.go:228-234 | a record carries the looked-up dedupe reference if and only if the message ids have the same token, or the caller had put the reference in |
| `Evidence.ContentStoredKeyIsLookupKey` | internal/runtime/evidence_ingest.go:236-279 | the same for the document id or the hash of the URL |
| `EvidenceTools.ProgramIsValid` | internal/runtime/evidence_ingest.go:96-279 | the program's token, trim, list and name functions have the laws used, with no two reference heads confused |
| `ObservationLinks.LinkDeriver.AddGroup` | internal/runtime/observation_link.go:76-106 | the observation joins the group of the trimmed key, and a blank key changes nothing |
| `ObservationLinks.LinkDeriver.Collect` | internal/runtime/observation_link.go:30-41 | the map of groups after all observations have joined those of their linkable references and semantic keys; who is in which is stated by `ObservationLinkLaws.GroupedIs` |
| `ObservationLinks.LinkDeriver.Candidacies` | internal/runtime/observation_link.go:43-47 | one candidate for each group of two observations or more, whatever order the map is walked in |
| `ObservationLinks.Merge` | internal/runtime/observation_link.go:42-55 | one candidate for each fingerprint, from a reference group if there is one |
| `ObservationLinks.Arrange` | internal/runtime/observation_link.go:56-73 | every merged candidate once, in the display order |
| `ObservationLinkLaws.LinksAreOrdered` | internal/runtime/observation_link.go:57-72 | larger count first, then more channels, the later time and the smaller id |
| `ObservationLinkLaws.GroupedIs` | internal/runtime/observation_link.go:30-41 | the group under a key is that of exactly the observations that share it: a linkable reference trims to the key, or the semantic key does |
| `ObservationLinkLaws.GroupBySet` | internal/runtime/observation_link.go:76-106 | with distinct ids the set of ids decides which observations a group holds, in which order |
| `ObservationLinkLaws.LatestIn` | internal/runtime/observation_link.go:102-105 | a group's time is its latest capture, and its summary that of the first observation captured then |
| `ObservationLinkLaws.Derive` | internal/runtime/observation_link.go:26-74 | exactly one link for each set of two or more ids that some group has, in the display order, with count, channels, references and time determined by the set, and of kind "ref" if and only if a reference group has it |
| `ObservationLinkLaws.OrderDoesNotShow` | internal/runtime/observation_link.go:42-73 | two derivations agree on all links but for the printed id, and for the summary where the latest one is blank |
| `ObservationLinkLaws.LinkShows` | internal/runtime/observation_link.go:211-221 | a link lists each non-blank channel and each reference of its observations once, in order |
| `PathChecks.HasDirPrefixIff` | internal/api/path.go:75-85 | holds if and only if the directory's segments come first in the path's, but for the current directory, which holds only itself |
| `PathChecks.PathWithinDirIff` | internal/runtime/disk_auth.go:167-187 | holds if and only if both are given and the absolute directory's segments come first |
| `PathChecks.AllowedIff` | cmd/layer-osctl/job_work.go:804-827 | a prefix admits a path if and only if it is usable and its segments come first |
| `PathChecks.PathWithinAllowedPrefixes` | cmd/layer-osctl/job_work.go:804-816 | holds if and only if some usable prefix has its segments first |
| `PathChecks.ChecksAgree` | internal/api/path.go:75-85 | on absolute paths the three checks are one |
| `PathChecks.RelativeChecksAgree` | cmd/layer-osctl/job_work.go:804-827 | on relative paths the first and third agree but for the current directory, and without dot-dots the second goes by the segments too |
| `PathChecks.RelativeWithinDirIff` | internal/runtime/disk_auth.go:167-187 | from a working directory and without dot-dots it holds if and only if both are given and the directory's segments come first |
| `PathChecks.ParentHoldsAll` | internal/runtime/disk_auth.go:167-187 | with a dot-dot it departs from the segments |
| `PathChecks.SanitizeIs` | internal/api/path.go:41-64 | a relative path without dot-dot is never refused as outside and lands at base segments followed by its own; an absolute one is accepted if and only if it lies below the base |
| `PathChecks.AcceptedIsInside` | internal/api/path.go:41-64 | an accepted path is absolute, clean, free of dot-dot and below the base |
| `PathChecks.SanitizeTwiceIff` | internal/api/path.go:41-64 | sanitizing an accepted path again leaves it alone if and only if the last segment of the input, or of the base when the input names it, does not end in white space |
| `PathChecks.SanitizeTwiceDiffers` | internal/api/path.go:41-64 | a family of inputs for which it does not |
| `PathChecks.SanitizeSnapshotPaths` | internal/api/path.go:16-39 | all targets are settled, or all before the first refused one and none from it on |
| `PathChecks.SettledIs` | internal/api/path.go:16-39 | a settled target keeps its name and has the sanitized directory, or none if that was blank |
| `PathChecks.WorkerScopeViolations` | cmd/layer-osctl/job_work.go:789-802 | exactly the paths listed after, and not marked before, that no allowed prefix admits, sorted, however the map is walked |
| `Paths.ParseOfRender` | internal/api/path.go:75-77 | a clean path and its list of segments determine each other |
| `Paths.CleanExtends` | internal/api/path.go:75-77 | a name at the end of a path goes one below, a dot or a slash changes nothing, and a dot-dot goes up if it can |
| `Conversation.Service.UpsertProposal` | internal/runtime/conversation.go:630-663 | finds the first proposal marked with the key, or adds one with its event, or fails |
| `Conversation.Service.UpsertJob` | internal/runtime/conversation.go:665-715 | finds a job marked with the key, or adds one whose id is free, or fails |
| `Conversation.Service.CreateJob` | internal/runtime/service_job.go:44-58 | adds a job if and only if it validates, its id is free and its event is accepted |
| `Conversation.Service.CreateNote` | internal/runtime/conversation.go:201-334 | all steps of a note take effect, or the stores are as before but for a non-positive event limit, whichever step or save fails |
| `ConversationLaws.NoteLeaves` | internal/runtime/conversation.go:201-334 | a note that goes through adds its observation, leaves the answer of the review room, and extends the log by its own event, that of the review, and those of the proposal and the job if they are new, in this order |
| `ConversationLaws.SavedNoteLeaves` | internal/runtime/conversation.go:201-334 | after its save nothing waits, the tail is the end of that log and the rest is counted as archived |
| `ConversationLaws.GoesThroughIff` | internal/runtime/conversation.go:201-334 | the steps go through if and only if note, event and observation are sound, the room accepts, and the proposal and the job are known or can be added |
| `ConversationLaws.MadeFromNote` | internal/runtime/conversation.go:630-715 | a new proposal has status "proposed" and a new job "queued"; their ids come from the key, and the job refers to its proposal |
| `ConversationLaws.NotesName` | internal/runtime/conversation.go:630-715 | their notes are exactly the marks of origin, key, event and channel, and for a proposal the references |
| `ConversationLaws.RollBackIsExactIff` | internal/runtime/event.go:58-71 | the rollback is exact if and only if the event limit is positive or unchanged in the environment |
| `ConversationLaws.NotesTellKey` | internal/runtime/conversation.go:779-795 | the notes of a generated proposal or job carry the mark of its own key and of no other |
| `ConversationLaws.RunKeepsSingle` | internal/runtime/conversation.go:630-715 | over every run of notes, promotions, job updates and outside additions there is at most one proposal marked with a key, and no two jobs share an id |
| `ConversationLaws.RunKeepsOneJob` | internal/runtime/conversation.go:665-715 | over every such run in which updates and outside jobs bring no foreign mark, at most one job is marked with a key |
| `ConversationLaws.SecondMarkIff` | internal/runtime/agent_job.go:29-42 | an outside job makes a second one if and only if it brings the mark of a key that has its job |
| `ConversationLaws.RepeatAddsNone` | internal/runtime/conversation.go:630-715 | a note given again goes through and reuses the proposal and the job |
| `ConversationLaws.RefusedIff` | internal/runtime/agent_job.go:29-42 | an otherwise sound planning note is refused if and only if the job of its key exists without the key's mark |
| `ConversationLaws.NeverRefused` | internal/runtime/service_job_dispatch.go:43-45 | as long as updates keep a job's notes no sound note is ever refused |
| `ConversationLaws.ReplacedNotesRefuse` | internal/runtime/agent_job.go:55-78 | replacing the notes of a note's job makes the next such note fail |
| `Dispatch.DispatchWithPayload` | internal/runtime/adapter.go:188-243 | attempts end at the first final reply or when the retries are used up; sent if and only if the last reply is a success, and then alone without an error; last status, preview and notes as the replies give them; the code after the loop is dead |
| `Dispatch.AttemptsAre` | internal/runtime/adapter.go:188-243 | the number of attempts is determined: the smaller of retries + 1 and the first final reply |
| `Dispatch.MoreRetries` | internal/runtime/adapter.go:188-243 | more retries never turn a sent call into a failed one, and change nothing after a final reply |
| `Dispatch.NotesTell` | internal/runtime/adapter.go:196-240 | notes are only added, name the endpoint, every attempt and what it met, and say a retry was scheduled if and only if there was one |
| `Dispatch.RepliesDecide` | internal/runtime/adapter.go:289-294 | failed requests, 429 and codes from 500 on are tried again and no others; a success is a code from 200 to 299 |
| `Dispatch.RepliesRead` | internal/runtime/adapter.go:196-240 | the preview is the beginning of the trimmed body of at most 280, and the error the trimmed text of the failure or names the status |
| `Dispatch.LastStatusIs` | internal/runtime/adapter.go:216-219 | the status kept is that of the last attempt that was answered, or the one there was |
| `Dispatch.LastPreviewIs` | internal/runtime/adapter.go:220-226 | the preview kept is that of the last answer with a body, or the one there was |
| `Dispatch.ProgramIsValid` | internal/runtime/adapter.go:199-240 | the program's note texts have the law used: none of the others reads as the retry note |
| `Attention.SortRanks` | internal/api/source_intake_attention.go:9-26 | a stable permutation by falling rank |
| `Attention.SortOrders` | internal/api/source_intake_attention.go:9-26 | rank, then priority, then capture time, then id fall along the list |
| `Attention.LowRanks` | internal/api/source_intake_attention.go:28-47 | there are eight ranks; the two lowest are left when nothing else speaks for the item, and a decision that is not blank tells them apart |
| `Attention.InputOrderDoesNotShow` | internal/api/source_intake_attention.go:9-160 | with distinct ids neither the list nor the item picked depends on the input order |
| `Attention.PickedRankIff` | internal/api/source_intake_attention.go:28-160 | on a ranked list the item picked has the highest rank unless that is 720 and the sensor opened items none of which is to be prepared; then it has 680 |
| `Attention.PickIsFirst` | internal/api/source_intake_attention.go:49-160 | among the items of the rank picked one from a lane or draft that the sensor opened goes first, and else the first in the list |
| `Attention.ExceptionOccurs` | internal/api/source_intake_attention.go:28-160 | two items on which that happens |
| `Attention.ViewTells` | internal/api/source_intake_attention.go:49-160 | the view names the item picked, its mode is decided by the item's rank, and its reference and draft are those of the item's lane or first seed |

## Left out

- Concurrency: each operation runs under its lock, so runs are sequences of calls; how locks order the reading of the clock is not modelled.
- Persistence: a save is one step that succeeds or stops before, within or after the event files, and two tails have one signature only if they are equal; partial writes, renames that fail and crash points are not modelled.
- `EventStreamLaws.StreamResumes`: ids of one log are distinct and events marshal; HTTP framing, the poll timer and cancellation are left out.
- `EventArchive.ArchiveFile`: JSON itself; lines are characters, so a line longer than a buffer or invalid UTF-8 does not occur.
- `Throttle.WriteSecurityGuard`: saturation of Go durations, the signals that an escalation records, and the nil guard.
- `WriteAuth.WriteGate`: parsing of origins, hosts and addresses (a request says whether it is same-origin and which subject it has) and the rounding of Retry-After; the event an authentication change records.
- `ContinuityLaws.LookAbsorbs`: conditioned on texts that masking leaves alone, because masking is not idempotent on all texts; the masking expressions are abstract.
- `ContinuitySteps.StepLaw`: starts from a record normalised once (`ContinuitySteps.NormalisedIsSettled` says every such record qualifies).
- Continuity projections, suggestions and bootstrap views: functions of one record without a state.
- `Evidence.BuildTelegramObservation`: actor, summary, excerpt and confidence texts, which play no part in the dedupe references.
- `Evidence.TelegramAttrs` and `Evidence.ContentAttrs`: the attribute map is built as one value, not key by key.
- `ObservationLinks.LinkDeriver`: observations are taken as normalised (trimmed distinct references, a capture time); what counts as linkable, the semantic key, and the printed id and summary are parameters.
- `ObservationLinkLaws.Derive`: ids contain no "|", which the fingerprint uses as separator.
- `Paths.Parse`: path/filepath on Unix only, as lexical functions on strings.
- `PathChecks.SanitizeSnapshotPaths`: symbolic links, which the source does not resolve either.
- `Conversation.Service`: how a note's text, tags and key are derived, the contents of the review room (its answer is a parameter, by value), the remaining checks of the Validate methods, and the dispatch that may follow.
- `ConversationLaws.RunKeepsSingle`: a proposal added from elsewhere is taken not to carry the mark of a conversation key.
- `ContinuityLists.UpsertRefinesMap`: a list with ids not yet trimmed, which the store never holds; the source compares ids as they stand there.
- `Dispatch.DispatchWithPayload`: building the request, headers and payload, and the descriptors of the other adapters; previews are cut by characters, not bytes.
- `Attention.Summarize`: the Korean texts of the summary, detail and labels.
- Founder flows, releases, deploys, councils, audits, the command line, the cockpit, and the Telegram and feed loops: plumbing or members without a law over runs.
