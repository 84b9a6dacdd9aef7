# claude-module-communicator, modelled in Dafny

This project models the core of claude-module-communicator. The system lets software modules send each other JSON messages and report progress through a shared SQLite file. The model covers these parts:

- **`ModuleCommunicator`** (`communicator.dfy`). The `messages` and `progress` tables are the class `Database`, two sequences of rows in rowid order. Sending appends a row. `get_messages` filters by target, newest first, and decodes each row. `track_progress` appends a progress row, and the `INSERT OR REPLACE` never replaces one. `get_progress` reads the latest row and computes its percentage. Also here: schema sniffing, the version string and `SchemaNegotiator.negotiate`.
- **Session utilities** (`progress_utils.py`, in `progress_utils.dfy`). This covers a session's latest updates and the `watch_session_progress` polling loop. It also covers the active-session filter, the statistics over sessions, and the `track_module_communication` wrapper over a tracker holding the two session tables.
- **`GraphModuleCommunicator`** (`graph_communicator.dfy`). This covers:
  - the decision to query Perplexity, and the query text;
  - the no-backend guards;
  - the SQLite fallback of `get_conversation_with`;
  - `send_async_with_discovery`;
  - the statistics `get_module_stats` computes from the messages table.
- **`ArangoExpert`** (`arango_expert.dfy`). Index templates by module type, the module schema built from capabilities, and the suggestions of `optimize_query`.
- **The command-line tool** (`cli.dfy`): `list`, `show`, `progress`, `send`, and the dispatch of `main`.

Shared helpers:

- `ordering.dfy`: SQL `WHERE` as `Filter`, `ORDER BY` as a stable insertion sort, and `LIMIT` / slices as `TakeAtMost`.
- `strings.dfy`: ASCII case mapping, substring search, `str.join`, and decimal text of row ids.
- `json.dfy`: JSON values and the codec.
- `wrappers.dfy`: `Option` and `Result`.

What becomes a parameter:

- **Clocks.** Every `datetime.now()` reading is a parameter: a `Timestamp`: a count of whole seconds on one linear clock, whose order is the order of the ISO-8601 strings the source stores or a `real` for `timestamp()`.
- **The JSON codec.** `json.dumps` and `json.loads` are a `Codec` of two functions. Where a property needs `loads(dumps(v)) == v`, it is a precondition.
- **The ArangoDB backend** is a record of its answers.
- **A Perplexity completion** is a function from query text to reply.
- **A database file** is a `Database?`. `null` stands for a path with no file.

Where the documented behaviour and the code differ, the model follows the code. `negotiate_schema` tags a Python `bool` as `integer`, because `isinstance(True, int)` holds, rather than omitting it (`Communicator.TypeTagOf`).

## Model

| member | source | states |
|---|---|---|
| Communicator.LargestRowid | src/claude_module_communicator/__init__.py:130 | no rowid in the table exceeds it; it is 0 for an empty table and otherwise the rowid of some row |
| Communicator.Database.constructor | src/claude_module_communicator/__init__.py:21-44 | a database over the given tables, whose rowids are unique |
| Communicator.ModuleCommunicator.constructor | src/claude_module_communicator/__init__.py:15-19 | a communicator bound to the module name, the database and the codec |
| Communicator.NextRowid | src/claude_module_communicator/__init__.py:126-130 | the rowid SQLite gives a new row is positive and larger than every rowid in the table |
| Communicator.InsertOrReplaceNeverReplaces | src/claude_module_communicator/__init__.py:34-42 | the row `track_progress` inserts has an id no existing progress row has, so distinct ids stay distinct and no row is replaced |
| Communicator.Database.InsertMessage | src/claude_module_communicator/__init__.py:126-130 | appends exactly one message row with the next rowid and returns that id; the progress table and the uniqueness of ids are kept |
| Communicator.Database.InsertProgress | src/claude_module_communicator/__init__.py:80-83 | appends exactly one progress row with the next rowid; messages untouched, ids stay unique |
| Communicator.ModuleCommunicator.GetVersion | src/claude_module_communicator/__init__.py:46-48 | reports "0.1.0", a different string from the package version "0.4.0" |
| Communicator.TypeTagOf | src/claude_module_communicator/__init__.py:58-66 | a value gets no tag exactly when it is a float or null; strings are tagged string, integers and booleans integer, dicts object and lists array |
| Communicator.ModuleCommunicator.NegotiateSchema | src/claude_module_communicator/__init__.py:50-75 | schema type "object"; property keys are the sample keys whose value has a tag, each mapped to that tag; compatibility is always ("compatible", "1.0") |
| Communicator.ModuleCommunicator.TrackProgress | src/claude_module_communicator/__init__.py:77-85 | the progress table gains one row for this module and task with the given counters and time; earlier rows and messages unchanged |
| Communicator.LatestProgress | src/claude_module_communicator/__init__.py:90-96 | none exactly when no row is for the module and task; otherwise a row for them whose timestamp no other such row exceeds |
| Communicator.Percentage | src/claude_module_communicator/__init__.py:104 | with a positive total, percentage × total = completed × 100; otherwise 0 |
| Communicator.PercentageBounds | src/claude_module_communicator/__init__.py:104 | for 0 ≤ completed ≤ total, total > 0: the percentage lies in [0, 100] and is 100 exactly when completed = total |
| Communicator.ModuleCommunicator.GetProgress | src/claude_module_communicator/__init__.py:87-107 | zeros for a task never tracked; otherwise the counters of a latest row for the module and task and their percentage |
| Communicator.TrackedProgressIsReported | src/claude_module_communicator/__init__.py:77-107 | after tracking at a time later than every earlier row for that task, the latest row is the one just written |
| Communicator.ModuleCommunicator.SendAsync | src/claude_module_communicator/__init__.py:109-120 | appends one row from this module to the target carrying the encoded message; the acknowledgement is ("sent", clock reading), not the row id |
| Communicator.ModuleCommunicator.SendMessage | src/claude_module_communicator/__init__.py:122-133 | appends one row from source to target carrying the encoded data, earlier rows unchanged; the returned text parses back to the new rowid |
| Strings.NatToStringRoundTrip | src/claude_module_communicator/__init__.py:133 | the decimal text of a row id parses back to that id |
| Communicator.ModuleCommunicator.GetMessages | src/claude_module_communicator/__init__.py:135-154 | the loop returns exactly the decoded inbox of the target, failing at the first row that does not parse |
| Communicator.MessagesForExact | src/claude_module_communicator/__init__.py:138-142 | the query selects exactly the rows addressed to the target, as many as there are, newest first |
| Communicator.DecodedExact | src/claude_module_communicator/__init__.py:144-151 | decoding succeeds exactly when every row parses, and then gives one message per row carrying that row's id, source, time and decoded content |
| Communicator.DecodedPrefixFailure | src/claude_module_communicator/__init__.py:144-151 | a failure in decoding a prefix is the failure of the whole loop |
| Communicator.DecodedMembers | src/claude_module_communicator/__init__.py:144-151 | a successful decoding holds exactly the messages its rows decode to |
| Communicator.InboxExact | src/claude_module_communicator/__init__.py:135-154 | `get_messages(t)` succeeds exactly when every row to t parses; it then holds exactly the decoded rows to t, one per row, newest first |
| Communicator.InboxSucceeds | src/claude_module_communicator/__init__.py:144-151 | the inbox fails exactly when some row addressed to the target does not parse |
| Communicator.InboxMembers | src/claude_module_communicator/__init__.py:138-151 | a successful inbox has one message per row to the target, and a message is in it exactly when it decodes such a row |
| Communicator.InboxHas | src/claude_module_communicator/__init__.py:138-151 | a row to the target that decodes to a message puts that message in a successful inbox |
| Communicator.InboxOrder | src/claude_module_communicator/__init__.py:141 | a successful inbox is newest first |
| Communicator.NewerMessageFirst | src/claude_module_communicator/__init__.py:141 | of two inbox messages, the one with the later timestamp comes first |
| Communicator.SentDataComesBack | src/claude_module_communicator/__init__.py:122-154 | with a round-tripping codec, data sent to t comes back from `get_messages(t)` unchanged, under the new row's id |
| Communicator.SchemaNegotiator.Negotiate | src/claude_module_communicator/__init__.py:163-177 | type "object"; properties are the union of both inputs' properties, the target's entry winning on a shared key, a missing `properties` counting as empty |
| Ordering.SortDescTakeNewest | src/core/progress_utils.py:38-43 | what `ORDER BY ... DESC LIMIT n` leaves out is no newer than anything it keeps |
| ProgressUtils.FindSession | src/core/progress_utils.py:31-36 | none exactly when no session has the id; otherwise a session with that id |
| ProgressUtils.GetSessionProgress | src/core/progress_utils.py:29-53 | "not found" exactly when no session has the id. Otherwise: that session; at most 10 of its updates, newest first, and min(count, 10) of them; no left-out update newer than a kept one; complete exactly when COMPLETED or FAILED |
| ProgressUtils.LatestUpdatesMembers | src/core/progress_utils.py:38-44 | every update returned belongs to the session |
| ProgressUtils.LatestUpdatesOrder | src/core/progress_utils.py:38-44 | the returned updates are newest first and no update of the session left out is newer than one kept |
| ProgressUtils.WatchSessionProgress | src/core/progress_utils.py:55-71 | the loop yields exactly the specified yields of its polls; it stops just after the first complete snapshot, or when the polls run out if none is complete |
| ProgressUtils.WatchYieldsShape | src/core/progress_utils.py:61-71 | every yield was polled, only the last can be complete, every non-complete yield has more updates than the previous yield (counts strictly increase), and "not found" is never yielded |
| ProgressUtils.WatchYieldsPolled | src/core/progress_utils.py:61-70 | every yield was polled, and only the last yield can be complete |
| ProgressUtils.WatchYieldsCounts | src/core/progress_utils.py:61-70 | every yield that is not complete has more updates than the last count and than every earlier yield, and every yield found the session |
| ProgressUtils.WatchEndsWithFirstComplete | src/core/progress_utils.py:62-66 | when some poll is complete, the first complete snapshot is the last one yielded |
| ProgressUtils.GetActiveSessions | src/core/progress_utils.py:73-90 | exactly the sessions neither COMPLETED nor FAILED (involving the module when a non-empty name is given), latest start first, unstarted sessions last |
| ProgressUtils.StartedOrder | src/core/progress_utils.py:86 | ordering by the start key puts NULL starts after all others and the rest in descending start time |
| ProgressUtils.StatusPartition | src/core/progress_utils.py:110-112 | completed, failed and still-active sessions add up to all sessions |
| ProgressUtils.DurationsOf | src/core/progress_utils.py:114-119 | one duration per session having both timestamps |
| ProgressUtils.DurationsSnoc | src/core/progress_utils.py:115-119 | one more session adds its duration at the end exactly when it has both timestamps |
| ProgressUtils.SessionDurations | src/core/progress_utils.py:114-119 | the loop collects exactly the durations of the sessions having both timestamps, in order |
| ProgressUtils.MeanDuration | src/core/progress_utils.py:121 | 0 without durations; otherwise mean × count = sum |
| ProgressUtils.GetCommunicationStats | src/core/progress_utils.py:92-130 | counts over the sessions in the bounds: completed + failed + active = total; success rate is the completed percentage, 0 without sessions, within [0, 100]; average duration is the mean, 0 without timed sessions |
| ProgressUtils.Tracker.constructor | src/core/progress_utils.py:178-180 | a new, open tracker over the given rows |
| ProgressUtils.Tracker.CreateSession | src/core/progress_utils.py:186 | appends one session, started now and not yet ended; updates unchanged |
| ProgressUtils.Tracker.AddProgressUpdate | src/core/progress_utils.py:187-192 | appends one update without a progress value; sessions unchanged |
| ProgressUtils.Tracker.UpdateSessionStatus | src/core/progress_utils.py:195-200 | the sessions become `WithStatus` of the old ones; updates unchanged |
| ProgressUtils.Tracker.Close | src/core/progress_utils.py:203-204 | the tracker is closed; its rows unchanged |
| ProgressUtils.TrackModuleCommunication | src/core/progress_utils.py:160-204 | its session and its "communication_started" update are added before the communication function runs, and the function sees them. Afterwards the function's rows are kept, and every row with the session id is COMPLETED on return (result success) or FAILED with the exception text on raise (result failure). A tracker made here is fresh and closed; a given one keeps its open state |
| ProgressUtils.TrackedSessionEnds | src/core/progress_utils.py:193-201 | whatever rows the function leaves, each row of the tracked session ends in a terminal status, with the error only on failure; rows of other sessions are unchanged; when the function leaves the rows as given, the wrapper's own session is last with the final status |
| GraphCommunicator.AnyContained | src/claude_module_communicator/graph_communicator.py:112 | true exactly when some keyword is a substring |
| GraphCommunicator.ShouldQueryExternal | src/claude_module_communicator/graph_communicator.py:104-112 | true with fewer than 3 resources; otherwise true exactly when the lower-cased topic contains one of the six keywords |
| GraphCommunicator.ShouldQueryExternalIgnoresCase | src/claude_module_communicator/graph_communicator.py:111-112 | a topic containing any upper/lower-case spelling of a keyword calls for an external query |
| GraphCommunicator.ShouldQueryExternalOfLower | src/claude_module_communicator/graph_communicator.py:112 | lower-casing the topic first does not change the decision |
| GraphCommunicator.QueryParts | src/claude_module_communicator/graph_communicator.py:147-156 | first the topic sentence; the resources part exactly when there are resources, second; the modules part exactly when modules are listed, last |
| GraphCommunicator.PerplexityQueryShape | src/claude_module_communicator/graph_communicator.py:147-158 | the query is the topic sentence alone when there is nothing else, and otherwise begins with it followed by ". " |
| GraphCommunicator.QueryUsesThreeResources | src/claude_module_communicator/graph_communicator.py:151 | resources past the third do not change the query |
| GraphCommunicator.GraphModuleCommunicator.BuildPerplexityQuery | src/claude_module_communicator/graph_communicator.py:145-158 | the parts built step by step, joined with ". ", give the specified query |
| GraphCommunicator.GraphModuleCommunicator.constructor | src/claude_module_communicator/graph_communicator.py:20-41 | over the base communicator's store, with the backend when configured and no Perplexity key |
| GraphCommunicator.GraphModuleCommunicator.SetPerplexityKey | src/claude_module_communicator/graph_communicator.py:43-46 | the key is set |
| GraphCommunicator.GraphModuleCommunicator.FindModulesByCapability | src/claude_module_communicator/graph_communicator.py:61-66 | [] without a backend, the backend's answer with one |
| GraphCommunicator.GraphModuleCommunicator.FindCompatibleModules | src/claude_module_communicator/graph_communicator.py:68-73 | [] without a backend, otherwise the backend's answer for this module and direction |
| GraphCommunicator.GraphModuleCommunicator.CreateCollaborativeTask | src/claude_module_communicator/graph_communicator.py:160-165 | none exactly when there is no backend |
| GraphCommunicator.KeepFrom | src/claude_module_communicator/graph_communicator.py:80-85 | the loop keeps exactly the messages from the given source, in order |
| GraphCommunicator.GraphModuleCommunicator.GetConversationWith | src/claude_module_communicator/graph_communicator.py:75-88 | the backend's conversation with one; otherwise the specified no-backend conversation |
| GraphCommunicator.ConversationCases | src/claude_module_communicator/graph_communicator.py:79-86 | fails with the first inbox's failure, then the second's, else is the exchange of the two inboxes |
| GraphCommunicator.ExchangeMembers | src/claude_module_communicator/graph_communicator.py:79-86 | the exchange holds exactly my inbox's messages from the other module and the other's inbox messages from me, oldest first |
| GraphCommunicator.InboxCarried | src/claude_module_communicator/graph_communicator.py:80-85 | a message of t's inbox from s is exactly a message carried by a row from s to t |
| GraphCommunicator.ConversationExact | src/claude_module_communicator/graph_communicator.py:78-86 | the no-backend conversation succeeds exactly when every row to either module parses; then it holds exactly the messages carried between the two in either direction, ascending by timestamp |
| GraphCommunicator.BroadcastPrefix | src/claude_module_communicator/graph_communicator.py:190-196 | sending to each target keeps every earlier row and adds one row per target |
| GraphCommunicator.BroadcastRow | src/claude_module_communicator/graph_communicator.py:190-196 | the row added for target i is from this module, to that target, with the message, at the i-th clock reading |
| GraphCommunicator.GraphModuleCommunicator.SendAsyncWithDiscovery | src/claude_module_communicator/graph_communicator.py:167-198 | with no capable module: nothing is sent and one "no_modules_found" entry is returned, with Perplexity's suggestion exactly when a key is set. Otherwise: one row and one ("sent", clock) result per capable module, in order |
| GraphCommunicator.PeersExact | src/claude_module_communicator/graph_communicator.py:253-259 | a module is connected exactly when some row went from it to me or from me to it |
| GraphCommunicator.PeersBound | src/claude_module_communicator/graph_communicator.py:245-259 | there are no more connected modules than messages sent plus received |
| GraphCommunicator.StatsStep | src/claude_module_communicator/graph_communicator.py:244-259 | one more row adds to the sent count and connects its target when it is from me, and adds to the received count and connects its source when it is to me |
| GraphCommunicator.PeersSnoc | src/claude_module_communicator/graph_communicator.py:253-257 | one more row connects its source when it is to me and its target when it is from me |
| GraphCommunicator.SendCounts | src/claude_module_communicator/graph_communicator.py:244-259 | a row sent by me adds one to the sent count and connects its target, without disconnecting anyone |
| GraphCommunicator.TallyStats | src/claude_module_communicator/graph_communicator.py:244-259 | the counting loop gives the sent count, the received count and the connected modules of the table, with collaborations 0 |
| GraphCommunicator.GraphModuleCommunicator.GetModuleStats | src/claude_module_communicator/graph_communicator.py:200-262 | the intended statistics of this module's store, with at most as many connected modules as messages sent plus received |
| GraphCommunicator.ModuleStatsAsWritten | src/claude_module_communicator/graph_communicator.py:241 | as written, every call fails on the missing `_get_connection` |
| GraphCommunicator.ModuleStatsAsWrittenLosesSends | src/claude_module_communicator/graph_communicator.py:241-246 | a module that has sent a message still gets no statistics as written, though the intended count is at least 1 |
| ArangoExpert.CreateIndexesForModule | src/claude_module_communicator/arango_expert.py:428-448 | the fixed template for "communication", "knowledge" or "task", and [] exactly for any other type |
| ArangoExpert.IndexTemplatesWellFormed | src/claude_module_communicator/arango_expert.py:430-446 | within a template, index names are distinct and every index has a field |
| ArangoExpert.ContributionKeys | src/claude_module_communicator/arango_expert.py:473-512 | each known capability adds exactly its own collection and edge names |
| ArangoExpert.ContributionStep | src/claude_module_communicator/arango_expert.py:514-516 | one more capability changes only its own contribution |
| ArangoExpert.MergeLaws | src/claude_module_communicator/arango_expert.py:517-518 | merging a mapping again is merging it once, and mappings with disjoint keys commute |
| ArangoExpert.MergeTwice | src/claude_module_communicator/arango_expert.py:517-518 | merging after a merge of the same mapping or of nothing is one merge |
| ArangoExpert.PdfStep | src/claude_module_communicator/arango_expert.py:514-518 | one more "pdf_extraction" merges in its collections and edges |
| ArangoExpert.ThreatStep | src/claude_module_communicator/arango_expert.py:514-518 | one more "threat_detection" merges in its collections and edges |
| ArangoExpert.SchemaStep | src/claude_module_communicator/arango_expert.py:514-518 | a known capability merges its collections and edges in; an unknown one changes nothing |
| ArangoExpert.GenerateModuleSchema | src/claude_module_communicator/arango_expert.py:450-520 | the loop gives the named module, the collections and edges of its capabilities, and empty indexes and graphs |
| ArangoExpert.SchemaContents | src/claude_module_communicator/arango_expert.py:452-518 | `module_metadata` is always present and unchanged; the other collection and edge names are exactly those of the known capabilities listed |
| ArangoExpert.SchemaCollections | src/claude_module_communicator/arango_expert.py:452-516 | `module_metadata` present and unchanged; collection names exactly those of the known capabilities listed, plus `module_metadata` |
| ArangoExpert.SchemaEdges | src/claude_module_communicator/arango_expert.py:514-518 | edge names exactly those of the known capabilities listed |
| ArangoExpert.SchemaWithoutKnownCapabilities | src/claude_module_communicator/arango_expert.py:452-518 | without a known capability: only `module_metadata` and no edges |
| ArangoExpert.SchemaIgnoresOrder | src/claude_module_communicator/arango_expert.py:514-518 | reordering or repeating capabilities gives the same schema |
| ArangoExpert.OptimizeQuery | src/claude_module_communicator/arango_expert.py:117-135 | the suggestions that fire joined by newlines, or "Query appears optimized" when none does |
| ArangoExpert.SuggestionsExact | src/claude_module_communicator/arango_expert.py:123-133 | each suggestion appears exactly when its check fires; at most three |
| ArangoExpert.SuggestionsOrder | src/claude_module_communicator/arango_expert.py:121-133 | scan first, limit next, filter last |
| ArangoExpert.OptimizedExactlyWhenNothingFires | src/claude_module_communicator/arango_expert.py:135 | the advice is "Query appears optimized" exactly when no check fires |
| ArangoExpert.LimitCheckIgnoresCase | src/claude_module_communicator/arango_expert.py:128 | the LIMIT check gives the same answer on the upper-cased query |
| Cli.ShownFilter | src/claude_module_communicator/cli.py:37-40 | a filter is named in the output exactly when a non-empty one was given, and then it is that filter |
| Cli.Truncate | src/claude_module_communicator/cli.py:50 | content of at most 50 characters unchanged; longer content cut to its first 50 characters plus "..." |
| Cli.SummarizeContent | src/claude_module_communicator/cli.py:44-50 | parsed objects show `type` (default "unknown") and `purpose` (default "N/A"); other content shows "raw" and the truncated text |
| Cli.SelectMessagesExact | src/claude_module_communicator/cli.py:26-31 | with a target exactly its rows, otherwise every row; newest first either way |
| Cli.MessageEntries | src/claude_module_communicator/cli.py:42-57 | the loop builds exactly one entry per row, in order |
| Cli.ListMessages | src/claude_module_communicator/cli.py:16-57 | no database without a file; otherwise the specified listing of the selected rows |
| Cli.FindMessage | src/claude_module_communicator/cli.py:65-66 | none exactly when no row has the id; otherwise a row with that id |
| Cli.BodyOf | src/claude_module_communicator/cli.py:80-84 | the decoded value exactly when the content parses, otherwise the raw text |
| Cli.ShowMessage | src/claude_module_communicator/cli.py:60-84 | "no such table" exactly without a file; "not found" exactly when no row has the id; otherwise the row with that id and its body |
| Cli.ProgressEntryOf | src/claude_module_communicator/cli.py:114-115 | the row's module, task and counters with their percentage |
| Cli.SelectProgressExact | src/claude_module_communicator/cli.py:97-102 | with a module exactly its rows, as many as the filter keeps; otherwise every row, as a permutation of the table; newest first either way |
| Cli.ProgressEntryList | src/claude_module_communicator/cli.py:113-121 | the loop builds exactly one entry per row, in order |
| Cli.ListProgress | src/claude_module_communicator/cli.py:87-121 | no database without a file; otherwise the specified listing of the selected rows |
| Cli.CliPayload | src/claude_module_communicator/cli.py:129-133 | a JSON object with exactly the keys type, timestamp and message, holding the given values |
| Cli.CliSendMessage | src/claude_module_communicator/cli.py:124-136 | appends one row from source to target carrying the encoded payload, to a new empty file when none exists; the id printed parses back to the new rowid |
| Cli.RunCli | src/claude_module_communicator/cli.py:139-179 | help without a subcommand; each subcommand yields its own handler's output; only `send` changes the database, appending its one row (to a fresh database when the file is missing) and keeping the progress table |

## Left out

- SQLite connections, path expansion, `mkdir` and the `CREATE TABLE` statements. The tables are in-memory sequences, and a missing file is `null`.
- Every `datetime.now()` reading. Times are parameters, and timestamps are whole seconds on one linear clock.
- Sub-second precision. The strings `isoformat()` writes carry microseconds; the model's timestamps do not, so two readings within one second are equal.
- Mixed precisions and time zones in the stored strings. The model assumes their lexical order is their time order, which holds only for strings of one format.
- `datetime.fromisoformat` and its `ValueError` on a malformed stored timestamp. Every stored timestamp is taken to parse.
- ProgressUtils.SessionDurations: a duration is a whole-second difference (an `int`), not the `float` that `total_seconds()` returns.
- Ties in `ORDER BY ... DESC`. The model's stable sort fixes one order of equal timestamps; no property depends on it.
- `json.dumps` and `json.loads`. They are one abstract codec, whose round trip is a precondition where it is needed. `indent=2` pretty-printing in `show` is not modelled.
- All printing. Each CLI command returns a value describing what it prints; `%.1f` formatting and emoji are not modelled.
- argparse itself, including its error exits. A parsed command is the input of `Cli.RunCli`.
- `show` on a missing file: the model stops at the failing query and does not capture the empty file SQLite creates there.
- Floating point. Percentages, the success rate and average durations are exact `real`s, with no rounding.
- asyncio. The `await` points, `asyncio.sleep` and the infinite `while True` are left out. The watch loop runs over a finite sequence of polls.
- ArangoDB and all of graph_backend.py. The backend's answers are functions in `GraphCommunicator.Backend`, and registering the module in the constructor is not modelled.
- `GraphModuleCommunicator.send_message`'s store into the graph and the `_graph_id` it writes into the caller's dict are not modelled. What remains is the base class's `send_message`.
- `get_knowledge_graph` and `_query_perplexity`: the litellm call, its reply and its error dict. A Perplexity completion is the parameter `ask`.
- The AQL graph queries (`find_influencers`, `find_bridges` and the rest), `explain_query` and `get_module_instructions`. `optimize_query` takes the plan text as input.
- `cleanup_old_sessions`: a date-based `DELETE` over the tracker's database.
- progress_tracker.py is not part of this model.
  - `AsyncProgressTracker`'s own behaviour is modelled only as far as `track_module_communication` uses it.
  - The status a new session starts in is `Initiated`, a placeholder that is neither COMPLETED nor FAILED.
  - Whether `update_session_status` also sets `completed_at` is unknown, so `ProgressUtils.WithStatus` does not set it.
  - Whether `update_session_status` writes `error_message` when none is passed is unknown too. `ProgressUtils.WithStatus` writes the message it is given, so a COMPLETED session's message becomes `None`.
- ProgressUtils.TrackModuleCommunication: the communication function is a function from the rows it sees to the rows it leaves and its outcome. Its effects outside the session and update tables (the schema that `save_negotiated_schema` stores, a `schema_negotiated` column) and a call to `close` on the tracker are not modelled.
- Case mapping in `Strings.Lower`/`Upper` is ASCII only (no Unicode case folding).
- GraphCommunicator.GraphModuleCommunicator.GetModuleStats: `connected_modules` is a list in the source, in an order determined by SQLite's `UNION`, and the model states it only as a set.
- Communicator.NextRowid: SQLite's behaviour once the rowid reaches 2^63 - 1 is not modelled.
- ProgressUtils.GetCommunicationStats: the `started_at` bounds compare ISO strings, modelled as comparisons of timestamps.

## Findings

| source | as written | input that shows it | evidently intended | confidence | as-written member | corrected member |
|---|---|---|---|---|---|---|
| src/claude_module_communicator/graph_communicator.py:241 | `get_module_stats` calls `self._get_connection()`, which neither `GraphModuleCommunicator` nor `ModuleCommunicator` defines, so every call raises `AttributeError` | any call, for example after the module has sent one message | open the SQLite file at `db_path` and return the sent and received counts and the connected modules | not executed | GraphCommunicator.ModuleStatsAsWritten | GraphCommunicator.GraphModuleCommunicator.GetModuleStats |
