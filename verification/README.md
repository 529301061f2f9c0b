# Models of the LunarWing proxies, settings, sessions and text kernels

This project models, in Dafny, the parts of the repository that hold real logic: the streaming translator
between the Responses API and chat completions, the circuit breaker and repetition guard of the other proxy,
the layering and database form of the settings, the Unix-socket REPL on both ends, the per-tenant rate
registry and ownership checks, and the text kernels (the Rust lexer of the panic checker, the `.env` upserts,
shell and XML quoting, UTF-8-safe truncation). Code that changes state step by step is a class or a method
with loops, proved to compute a function of its inputs; the results are lemmas about those functions, over
every input, every interleaving or every reachable state.

Verify the whole project with `dafny verify dfyconfig.toml`.

| file | models |
|---|---|
| `SseFrames.dfy`, `CodexStream.dfy`, `CodexProtocol.dfy` | the streaming translator: framing, the loops, the event protocol |
| `CodexSync.dfy`, `CodexInput.dfy` | the synchronous translation, and the reverse translation of input items |
| `CircuitBreaker.dfy`, `Repetition.dfy` | the breaker with its retrying caller; the repetition guard and the forwarding loop |
| `SettingsMerge.dfy`, `SettingsDb.dfy` | overlays of settings trees; setting by path and the database round trip |
| `ReplServer.dfy`, `ReplSessions.dfy`, `ReplClient.dfy` | sessions on the server; the two tasks of the client |
| `TenantRate.dfy`, `TenantScope.dfy` | double-checked rate registry and permits; ownership checks and non-interference |
| `NoPanics.dfy`, `TestBlocks.dfy` | the panic checker: its lexer and brace tracker; which lines are test code |
| `BootstrapEnv.dfy`, `Quoting.dfy`, `Utf8.dfy` | text kernels |
| `Common.dfy`, `Text.dfy` | shared definitions |

## Findings

Some promises hold only under a condition. Each is stated as an equivalence and has a lemma with an input that
breaks it.

- An exception in the middle of a translated stream makes the request handler write an HTTP error into the
  open stream; what a client that stays has then is a prefix of no well-formed log
  (`ReceivedLogIsPrefixOfWellFormed`, `RaisingFrameIsSeen`).
- The streamed output equals the synchronous one exactly for a non-empty text without calls and for calls
  without text, in index order, under finish reason `tool_calls` (`StreamAgreesWithSync`,
  `TextWithCallDiffers`).
- A breaker whose threshold is not positive starts closed with a failure count at the threshold
  (`ClosedInvariant`), and a probe that ends in a non-retryable error leaves the breaker half-open, refusing
  everybody, until some other request records an outcome (`HalfOpenLastsUntilAnOutcome`,
  `SilentProbeBlocksForEver`).
- `RoundTrip` says exactly which settings survive the database. Settings in a map of structs never do
  (`NestedMapEntryIsLost`), nor do strings over a null default that are JSON text (`JsonTextOverNullIsLost`).
- Overlays associate over every base exactly under the condition of `OverlayAssociates`;
  `ScalarOverObjectBreaksLaw` and `MissingFieldBreaksLaw` are JSON trees outside it. `merge_from` never gets
  such trees: serialized settings have every object of the defaults, and on those the law holds
  (`OverlayAssociatesOnShape`).
- Creating a routine checks the owner in debug builds only. A tenant's answers are its own exactly if no other
  tenant creates a row in its name (`AnswersAgreeIffUnforged`, `ForgedRowIsVisible`).
- A `/reset`, a lost connection or a Disconnect while a response is awaited makes the client lose count of its
  requests, and nothing else does (`AwaitingIffOneOutstanding`); after a `/reset` the late response settles
  the next request (`ResetLosesTheCount`).
- A Disconnect frame drops the buffered text of all other session ids, and a ping that cannot be answered drops
  all buffered text, without telling the main task (`EndOfReaderLosesBuffers`, `FragmentIsLost`).
- The panic checker takes a lifetime for the start of a character literal. The source's comment says that this
  masks code on the same line; it masks the following lines too, up to the next bare apostrophe
  (`OddApostrophesReachNextLine`, `LifetimeHidesBrace`). An escape at the end of a line likewise reaches the
  first character of the next (`QuotedTextIsBlank`).
- A batch upsert of the `.env` file is idempotent exactly when no kept line ends in a carriage return, which
  each rewrite shortens by one (`UpsertIsIdempotent`, `CarriageReturnIsEaten`).

## Model

| member | source | states |
|---|---|---|
| `SseFrames.SplitIsTheLeftmostDecomposition` | tensorzero-proxy-configurations/tensorzero-proxy.py:571-572 | Cutting frames off the buffer loses no byte, and no frame or remainder holds a blank line. |
| `SseFrames.LeftmostDecompositionIsUnique` | tensorzero-proxy-configurations/tensorzero-proxy.py:571-572 | There is only one such decomposition of the bytes, and the loop finds it. |
| `SseFrames.SplitAppend` | tensorzero-proxy-configurations/tensorzero-proxy.py:564-572 | Splitting what has arrived and then the buffer with the next read finds the frames of the whole: a read only adds frames. |
| `SseFrames.ReceivedAnyCutting` | tensorzero-proxy-configurations/tensorzero-proxy.py:564-569 | Any cutting of the bytes into non-empty reads delivers the same bytes. |
| `SseFrames.StreamEnds` | tensorzero-proxy-configurations/tensorzero-proxy.py:564-567 | An empty read ends the stream and a read error breaks it, after exactly the bytes before. |
| `SseFrames.DataFrame` | tensorzero-proxy-configurations/tensorzero-proxy.py:573-580 | A frame `data: p`, with any blanks around it, is `p`, and `data: [DONE]` is the end marker. |
| `SseFrames.BareFrame` | tensorzero-proxy-configurations/tensorzero-proxy.py:573-580 | A frame without the prefix is its text between the blanks. |
| `SseFrames.BlankIffAllSpace` | tensorzero-proxy-configurations/tensorzero-proxy.py:573-575 | A frame is skipped exactly if all its bytes are blanks. |
| `SseFrames.FrameCases` | tensorzero-proxy-configurations/tensorzero-proxy.py:573-580 | Every frame is one of these three. |
| `CodexStream.Translator.SafeWrite` | tensorzero-proxy-configurations/tensorzero-proxy.py:134-141 | A write reaches the client or reports that it is gone, and then adds nothing. |
| `CodexStream.Translator.HandleText` | tensorzero-proxy-configurations/tensorzero-proxy.py:599-639 | A text delta opens the text item once and extends it; a client that leaves has a prefix of what was being written. |
| `CodexStream.Translator.HandleCall` | tensorzero-proxy-configurations/tensorzero-proxy.py:641-704 | A tool-call delta opens its call once, fills in a missing id or name and extends the arguments. |
| `CodexStream.Translator.HandleCalls` | tensorzero-proxy-configurations/tensorzero-proxy.py:642-704 | All deltas of a chunk, in order. |
| `CodexStream.Translator.HandleChunk` | tensorzero-proxy-configurations/tensorzero-proxy.py:586-704 | One decoded chunk: first model, last usage, text, then calls. |
| `CodexStream.Translator.HandleFrame` | tensorzero-proxy-configurations/tensorzero-proxy.py:573-704 | One frame: blank and undecodable ones are skipped, `[DONE]` stops, anything else is handled as a chunk. |
| `CodexStream.Translator.DrainBuffer` | tensorzero-proxy-configurations/tensorzero-proxy.py:571-704 | The inner loop handles exactly the frames of the buffer, in order, and leaves the remainder. |
| `CodexStream.Translator.CloseTextItem` | tensorzero-proxy-configurations/tensorzero-proxy.py:706-730 | The three closing events of the text item, or the part a leaving client gets. |
| `CodexStream.Translator.CloseToolCalls` | tensorzero-proxy-configurations/tensorzero-proxy.py:732-755 | The closing events of all calls in the order of their opening. |
| `CodexStream.Translator.CloseStream` | tensorzero-proxy-configurations/tensorzero-proxy.py:706-796 | The whole ending, cut where the client leaves. |
| `CodexStream.Translator.HandleRead` | tensorzero-proxy-configurations/tensorzero-proxy.py:565-572 | After each read the state is that of all frames received so far, whatever the reads were. |
| `CodexStream.Translator.ReadAll` | tensorzero-proxy-configurations/tensorzero-proxy.py:564-704 | The outer loop reaches the state of the whole stream, or the client's prefix of its log. |
| `CodexStream.Translator.Stream` | tensorzero-proxy-configurations/tensorzero-proxy.py:502-822 | What the client receives is the first `limit` writes of a log that depends only on the bytes received, not on how they were cut into reads. |
| `CodexStream.ConsumeKeepsLog` | tensorzero-proxy-configurations/tensorzero-proxy.py:571-704 | What has been written stays written: each frame extends the log. |
| `CodexStream.ConsumeAppend` | tensorzero-proxy-configurations/tensorzero-proxy.py:571-704 | Handling frames in two batches is handling them in one. |
| `CodexProtocol.AcceptStep` | tensorzero-proxy-configurations/tensorzero-proxy.py:509-525 | What one event of the documented protocol may do: open the next index, extend its own item, or finish an unfinished item with all of its deltas. |
| `CodexProtocol.AcceptedItem` | tensorzero-proxy-configurations/tensorzero-proxy.py:509-525 | In an accepted log every reached index was added once and no other, finished at most once, and finished with the concatenation of its deltas. |
| `CodexProtocol.CompleteLogItems` | tensorzero-proxy-configurations/tensorzero-proxy.py:757-796 | In a complete log the indices 0..n-1 are each added and finished once, with their deltas, and the completed response, next to last, lists all finished items, texts first and calls in opening order. |
| `CodexProtocol.CloseIsWellFormed` | tensorzero-proxy-configurations/tensorzero-proxy.py:706-796 | Closing any state the translator reaches completes its log to a well-formed one. |
| `CodexProtocol.WholeSim` | tensorzero-proxy-configurations/tensorzero-proxy.py:546-704 | On every stream the translator's text, calls and indices agree with what a monitor of its log has seen. |
| `CodexStream.RaisedIffStreamRaises` | tensorzero-proxy-configurations/tensorzero-proxy.py:573-704 | Handling raises exactly if the first frame that ends the run is not `[DONE]`, or no frame ends it and a read breaks. |
| `CodexProtocol.ReceivedLogIsPrefixOfWellFormed` | tensorzero-proxy-configurations/tensorzero-proxy.py:502-822 | For every stream and every disconnect point the received log is a prefix of a well-formed one, except exactly when the stream raises and the client takes every write; the whole log is well-formed exactly if the stream does not raise. |
| `CodexProtocol.RaisingFrameIsSeen` | tensorzero-proxy-configurations/tensorzero-proxy.py:580-584 | An input: one frame that is not UTF-8 gives a client that stays a log that no well-formed one extends. |
| `CodexSync.ChatCompletionToResponse` | tensorzero-proxy-configurations/tensorzero-proxy.py:310-355 | The synchronous conversion: calls under finish reason `tool_calls`, else one text item. |
| `CodexSync.WholeMatches` | tensorzero-proxy-configurations/tensorzero-proxy.py:586-704 | The streamed state is the assembled completion: all text, and per index the first non-empty id and name and all arguments, indices in order of first appearance. |
| `CodexSync.StreamAgreesWithSync` | tensorzero-proxy-configurations/tensorzero-proxy.py:310-355 | Model and usage always agree with the synchronous conversion of the assembled completion, which lists its calls by index; the output agrees, up to item ids, exactly for text alone, or for calls alone under `tool_calls` that appear in index order. |
| `CodexSync.InIndexOrderIff` | tensorzero-proxy-configurations/tensorzero-proxy.py:648-660 | Calls that first appear in increasing order of index are in index order, and only those are if no two calls are the same. |
| `CodexSync.IndicesFacts` | tensorzero-proxy-configurations/tensorzero-proxy.py:642-660 | The indices by value and by first appearance are the same ones, each once. |
| `CodexSync.TextWithCallDiffers` | tensorzero-proxy-configurations/tensorzero-proxy.py:757-773 | An input: a stream with a text and a call differs from the synchronous output under every finish reason. |
| `CodexSync.CallIdsInOrder` | tensorzero-proxy-configurations/tensorzero-proxy.py:321-331 | Streamed or not, the k-th call has the k-th fresh id, and a finished item is marked so. |
| `CodexInput.Flush` | tensorzero-proxy-configurations/tensorzero-proxy.py:217-224 | Pending calls become one message, none if there are none. |
| `CodexInput.ConvertItem` | tensorzero-proxy-configurations/tensorzero-proxy.py:226-282 | One item adds exactly its own turn after those already there, in messages or pending. |
| `CodexInput.ConvertItems` | tensorzero-proxy-configurations/tensorzero-proxy.py:214-285 | All items, in order, grouped maximally. |
| `CodexInput.ResponsesInputToMessages` | tensorzero-proxy-configurations/tensorzero-proxy.py:187-285 | Every call, result and message survives once and in order; no tool-call message is empty and no two are adjacent. |
| `CodexInput.JoinedPartsAreLines` | tensorzero-proxy-configurations/tensorzero-proxy.py:258-266 | The lines of a message in parts are the lines of its non-empty parts, in order. |
| `CodexInput.ConversationIsUnique` | tensorzero-proxy-configurations/tensorzero-proxy.py:214-224 | Only one list of messages has these turns in this grouping, so the contract determines the result. |
| `CodexInput.ResultFollowsCall` | tensorzero-proxy-configurations/tensorzero-proxy.py:244-254 | A result that came after a call is in a later message than the call. |
| `CodexInput.TextInput` | tensorzero-proxy-configurations/tensorzero-proxy.py:199-212 | Instructions come first as a system message, a text is one user message, any other input adds nothing. |
| `CodexInput.SingleItem` | tensorzero-proxy-configurations/tensorzero-proxy.py:226-285 | A result keeps its call id and output, a call its id, name and arguments, a message its content and its role, `user` if it has none. |
| `CodexInput.SyncOutputFedBack` | tensorzero-proxy-configurations/tensorzero-proxy.py:310-340 | A converted completion fed back as input gives its text, or one message with the same ids, names and arguments. |
| `CodexInput.StreamOutputFedBack` | tensorzero-proxy-configurations/tensorzero-proxy.py:757-773 | A streamed response fed back gives its text, then one message with its calls. |
| `CircuitBreaker.CircuitBreakerObject.constructor` | nanocode-config/tensorzero-proxy.py:232-239 | A new breaker is closed, with no failures. |
| `CircuitBreaker.CircuitBreakerObject.AllowRequest` | nanocode-config/tensorzero-proxy.py:241-251 | Admission and the change of state it brings. |
| `CircuitBreaker.CircuitBreakerObject.RecordSuccess` | nanocode-config/tensorzero-proxy.py:253-257 | The state after a success. |
| `CircuitBreaker.CircuitBreakerObject.RecordFailure` | nanocode-config/tensorzero-proxy.py:259-267 | The state after a failure. |
| `CircuitBreaker.CircuitBreakerObject.Interleave` | nanocode-config/tensorzero-proxy.py:241-267 | Any sequence of locked calls moves the object as the step function says. |
| `CircuitBreaker.ClosedInvariant` | nanocode-config/tensorzero-proxy.py:232-267 | In every run, closed means fewer failures than the threshold, exactly for positive thresholds. |
| `CircuitBreaker.ClosedWhileBelowThreshold` | nanocode-config/tensorzero-proxy.py:241-267 | While the failures since the last success stay below the threshold the breaker is closed, counts them and admits every question. |
| `CircuitBreaker.OpensAtThreshold` | nanocode-config/tensorzero-proxy.py:259-267 | The failure that brings them to the threshold opens it, at its time. |
| `CircuitBreaker.OpenUntilTimeout` | nanocode-config/tensorzero-proxy.py:241-267 | An open breaker refuses all questions that come too early, whatever outcomes arrive; a failure with the threshold reached starts the timeout again. |
| `CircuitBreaker.ProbeDecides` | nanocode-config/tensorzero-proxy.py:245-264 | The first question after the timeout is admitted; a success then leaves the breaker as new, a failure opens it again. |
| `CircuitBreaker.HalfOpenEpisodeAdmitsOne` | nanocode-config/tensorzero-proxy.py:241-251 | Each half-open episode of any run begins with an admission and holds no other. |
| `CircuitBreaker.HalfOpenLastsUntilAnOutcome` | nanocode-config/tensorzero-proxy.py:241-267 | Half-open lasts exactly as long as nothing is recorded; questions alone are all refused and change nothing. |
| `CircuitBreaker.SilentProbeBlocksForEver` | nanocode-config/tensorzero-proxy.py:306-308 | An input: after a probe that ends in a non-retryable error every later request is refused, at any time. |
| `CircuitBreaker.AdmissionsTakeTime` | nanocode-config/tensorzero-proxy.py:241-267 | n admissions since opening, without returning to closed, take at least n reset timeouts under every interleaving. |
| `CircuitBreaker.UrlopenWithRetry` | nanocode-config/tensorzero-proxy.py:278-323 | Among any calls of other threads it sends one request per admission, goes on exactly after retryable outcomes, records none for a non-retryable or unforeseen error, and returns the last outcome, or the refusal if nothing was sent or it was refused later. |
| `CircuitBreaker.AttemptCounts` | nanocode-config/tensorzero-proxy.py:289-320 | A response ends the row of failures, a retryable outcome extends it, other errors leave it. |
| `Repetition.Detector.Detect` | nanocode-config/tensorzero-proxy.py:190-210 | The window becomes the last 2048 bytes; the verdict is true exactly if it has at least 1024 and one byte value makes up more than 85 percent. |
| `Repetition.Tally` | nanocode-config/tensorzero-proxy.py:206-208 | The counting loop gives every byte of the window its number of occurrences. |
| `Repetition.Greatest` | nanocode-config/tensorzero-proxy.py:209-209 | The maximum is reached by some byte and exceeded by none. |
| `Repetition.WindowIsTheEnd` | nanocode-config/tensorzero-proxy.py:199-202 | The window is the end of everything fed, however it was chunked. |
| `Repetition.Forward` | nanocode-config/tensorzero-proxy.py:478-501 | Forwarded is a prefix of the reads; it is cut off at the first read after which the stream looks stuck, and with tools never. |
| `SettingsMerge.MergeNonDefault` | ic/src/settings.rs:1488-1514 | The in-place merge, in any order of the keys, computes the overlay. |
| `SettingsMerge.DefaultsAreNeutral` | ic/src/settings.rs:1260-1278 | Overlaying the defaults changes nothing. |
| `SettingsMerge.OverlayIsIdempotent` | ic/src/settings.rs:1488-1514 | Overlaying the same tree twice is overlaying it once. |
| `SettingsMerge.OverlayKeepsChanges` | ic/src/settings.rs:1488-1514 | An overlay never turns a changed tree back into the defaults. |
| `SettingsMerge.FullIffFixed` | ic/src/settings.rs:1488-1514 | A tree is what it becomes as an overlay on the defaults exactly if it has all their fields and no null besides. |
| `SettingsMerge.OverlayAssociates` | ic/src/settings.rs:1488-1514 | Two overlays may be merged first, over every base, exactly if the first is an object wherever the second and the defaults are objects and differ, and the second is full wherever the first is the default. |
| `SettingsMerge.OverlayAssociatesOnShape` | ic/src/settings.rs:1260-1278 | Overlays associate on trees that keep the defaults' object shape, as serialized settings do; the last one may be any tree. |
| `SettingsMerge.ScalarOverObjectBreaksLaw` | ic/src/settings.rs:1508-1512 | An input: a scalar in the place of an object breaks associativity. |
| `SettingsMerge.MissingFieldBreaksLaw` | ic/src/settings.rs:1499-1506 | An input: so does an overlay that lacks a default field, over a base that lacks the object. |
| `SettingsMerge.MergeAtSetting` | ic/src/settings.rs:1488-1514 | At every setting the overlay's value wins exactly if it is not the default. |
| `SettingsMerge.WizardOrder` | ic/src/settings.rs:2034-2068 | First step, stored settings, first step again: every setting is the first step's non-default value, else the stored one, else the default. |
| `SettingsDb.SplitJoin` | ic/src/settings.rs:1333-1333 | Splitting a dotted path gives back the keys it was joined from. |
| `SettingsDb.Settings.Set` | ic/src/settings.rs:1329-1400 | The new tree has the inferred value at the path and nothing else changed, or the error of the source and no change. |
| `SettingsDb.Settings.FromDbMap` | ic/src/settings.rs:1133-1172 | All entries are set in some order of the map; the owner, nulls and failing entries are skipped. |
| `SettingsDb.CollectSettingsJson` | ic/src/settings.rs:1427-1447 | For any tree every leaf's dotted key holds a leaf with that key and no other entry changes; without empty or dotted keys exactly the leaves are stored, each under its own path. |
| `SettingsDb.ToDbMap` | ic/src/settings.rs:1177-1187 | The map has exactly the dotted keys of the leaves but the owner's, each with a leaf of that key. |
| `SettingsDb.KeysOfFieldsApart` | ic/src/settings.rs:1434-1440 | Dotted paths of different fields never collide. |
| `SettingsDb.SetBeside` | ic/src/settings.rs:1329-1400 | Setting one leaf leaves every other leaf's slot and parent alone. |
| `SettingsDb.RoundTrip` | ic/src/settings.rs:1133-1187 | In any iteration order, for any codec and schema, a leaf other than the owner comes back exactly if its parent is in the defaults, its slot reads its text back and the schema accepts it, or it is the default and setting it is skipped or refused. |
| `SettingsDb.MatchingSlotReadsBack` | ic/src/settings.rs:1349-1391 | A slot of the value's type, or a null or missing one when the text is not JSON of something else, reads the text back, if the text of this value reads as this value. |
| `SettingsDb.RefusedTexts` | ic/src/settings.rs:1349-1391 | Which texts each type of slot takes and which it refuses. |
| `SettingsDb.SetFailsIff` | ic/src/settings.rs:1329-1400 | Setting fails exactly if the parent is missing or no object, or the slot or the schema refuses the text; else the value is there. |
| `SettingsDb.PlainCodecIsFaithful` | ic/src/settings.rs:1147-1153 | A codec whose texts read back at every boolean, string and natural number. |
| `SettingsDb.MatchingLeafComesBack` | ic/src/settings.rs:1133-1187 | So a leaf with a matching slot, its parent in the defaults and the schema's consent survives the round trip. |
| `SettingsDb.JsonTextOverNullIsLost` | ic/src/settings.rs:1377-1381 | A string over a null slot whose text is JSON of another type does not. |
| `SettingsDb.OwnerIsNotRestored` | ic/src/settings.rs:1142-1144 | The owner keeps its default. |
| `SettingsDb.NestedMapEntryIsLost` | ic/src/settings.rs:1339-1343 | Entries below a map that is empty by default never come back. |
| `ReplServer.Registry.RegisterSession` | ic/src/unix_socket_repl.rs:151-183 | Refuse when full, else welcome and insert; a failed welcome inserts nothing. |
| `ReplServer.Registry.RespondTo` | ic/src/unix_socket_repl.rs:303-329 | Write to the tagged session if it is in the map, else do nothing. |
| `ReplServer.Registry.RemoveSession` | ic/src/unix_socket_repl.rs:234-234 | The session leaves the map when its task ends. |
| `ReplServer.Registry.WriteMessage` | ic/src/unix_socket_repl.rs:101-112 | A successful write appends one frame to that connection only. |
| `ReplServer.StepKeepsInv` | ic/src/unix_socket_repl.rs:115-236 | Every step of every task keeps the invariant of the session map and of all connection logs. |
| `ReplServer.EveryRunKeepsInv` | ic/src/unix_socket_repl.rs:115-236 | Over all interleavings the map stays within its limit and holds a session exactly from welcome to removal; a connection hears a welcome or the busy notice first and then only pongs and its own responses. |
| `ReplServer.ResponseReachesOnlyItsOrigin` | ic/src/unix_socket_repl.rs:303-329 | A response reaches the connection whose message it answers, if it is still active, and no other. |
| `ReplSessions.SessionIsServed` | ic/src/unix_socket_repl.rs:186-217 | In its message loop a client's message reaches the agent with its content and session id, its ping is answered to it, and nothing else changes. |
| `ReplSessions.MessageIsAnswered` | ic/src/unix_socket_repl.rs:303-329 | The answer to a message comes back to the client that sent it. |
| `ReplSessions.ConnectComesFirst` | ic/src/unix_socket_repl.rs:137-149 | Only a client that began with Connect is ever registered. |
| `ReplSessions.ConnectionLivesAndLeaves` | ic/src/unix_socket_repl.rs:115-236 | With a free place a connection that begins with Connect is welcomed into the map, and is out of it again after it leaves; nothing else is touched. |
| `ReplServer.RefusedIffFull` | ic/src/unix_socket_repl.rs:152-182 | The busy notice is sent exactly when the map is full, the welcome otherwise. |
| `TenantRate.RateRegistry.GetOrCreate` | ic/src/tenant.rs:819-838 | With any steps of other tasks between the two locks, the caller gets the state that is registered for its user. |
| `TenantRate.StepKeepsInv` | ic/src/tenant.rs:803-839 | Every lookup, insert, acquire, release and clone keeps states shared and permits conserved. |
| `TenantRate.CallersShareState` | ic/src/tenant.rs:819-838 | In every run two callers have the same state exactly if they are for the same user. |
| `TenantRate.StateIsNeverReplaced` | ic/src/tenant.rs:827-838 | A registered state stays registered for ever. |
| `TenantRate.PermitsNeverExceedLimit` | ic/src/tenant.rs:928-935 | No interleaving lets a user hold more permits than the limit, over all contexts together. |
| `TenantRate.PermitIsGrantedIffFree` | ic/src/tenant.rs:928-935 | In every run a task gets a permit exactly if its user holds fewer than the limit. |
| `TenantRate.ReleaseFrees` | ic/src/tenant.rs:928-935 | A permit that is given back is free again. |
| `TenantRate.NewTaskGetsState` | ic/src/tenant.rs:819-838 | A new task gets the registered state of its user, or a new one with all permits free. |
| `TenantScope.StepKeepsInv` | ic/src/tenant.rs:76-110 | An operation that passed its check still belongs to the row's owner when it acts. |
| `TenantScope.StepSparesOthers` | ic/src/tenant.rs:150-201 | No step of a tenant changes a row that another owns, although check and action are separate steps. |
| `TenantScope.CreatedRowIsOwn` | ic/src/tenant.rs:157-163 | A tenant owns what it creates. |
| `TenantScope.OwnRowAnswers` | ic/src/tenant.rs:150-201 | On an own row a fetch and a read find its payload, an update replaces it and a deletion removes it. |
| `TenantScope.ForeignRowAnswers` | ic/src/tenant.rs:150-201 | On any other row every operation answers that there is none and does nothing else. |
| `TenantScope.OthersAreInvisible` | ic/src/tenant.rs:76-110 | Another tenant's step changes nothing a tenant can see. |
| `TenantScope.OwnStepIsAlike` | ic/src/tenant.rs:341-441 | A tenant's own step answers the same in databases that look alike to it. |
| `TenantScope.InvisibleIffNotForged` | ic/src/tenant.rs:150-201 | Another tenant's step changes what a tenant can see exactly if it creates a row in that tenant's name. |
| `TenantScope.NonInterference` | ic/src/tenant.rs:150-201 | If nobody else creates a row in its name, removing all other tenants' steps from a run changes none of a tenant's answers. |
| `TenantScope.AnswersAgreeIffUnforged` | ic/src/tenant.rs:76-110 | The exact condition: in all continuations by the tenant its answers are those it would get alone, if and only if no other tenant created a row in its name. |
| `TenantScope.ForgeryShows` | ic/src/tenant.rs:157-163 | After any run with a forged row the tenant has a continuation whose answers differ. |
| `TenantScope.ForgedRowIsVisible` | ic/src/tenant.rs:157-163 | An input: a row created in another's name is seen by that tenant, which the debug-only check does not prevent. |
| `ReplClient.Reader.ReadMessage` | git-lunarwing-unix-socket-client-repo/src/main.rs:222-296 | One frame: fragments are buffered per session id, a complete response is acknowledged and printed; a Disconnect ends the reader, and so does a ping whose answer cannot be written. |
| `ReplClient.Reader.CompleteResponse` | git-lunarwing-unix-socket-client-repo/src/main.rs:320-346 | The handshake and background updates leave the awaited request alone; any other response settles it. |
| `ReplClient.Reader.ReadLoop` | git-lunarwing-unix-socket-client-repo/src/main.rs:211-298 | The loop handles frames in order up to the first that ends the reader. |
| `ReplClient.RequestsAreAccountedFor` | git-lunarwing-unix-socket-client-repo/src/main.rs:90-160 | Over all interleavings of the two tasks every request begun was acknowledged, given up or is awaited. |
| `ReplClient.AwaitingIffOneOutstanding` | git-lunarwing-unix-socket-client-repo/src/main.rs:307-346 | The flag tells whether one request more was begun than acknowledged exactly if no reset, lost connection or Disconnect came while a response was awaited. |
| `ReplClient.ResetLosesTheCount` | git-lunarwing-unix-socket-client-repo/src/main.rs:131-136 | After a reset the late response settles the wrong request. |
| `ReplClient.HandshakeAcknowledgesNothing` | git-lunarwing-unix-socket-client-repo/src/main.rs:320-346 | In every run acknowledged requests are fewer than complete responses: the first, the handshake, acknowledges none. |
| `ReplClient.BackgroundUpdateSettlesNothing` | git-lunarwing-unix-socket-client-repo/src/main.rs:334-336 | A background job update is printed and changes nothing else; the request stays awaited. |
| `ReplClient.AcknowledgementsAreSettlements` | git-lunarwing-unix-socket-client-repo/src/main.rs:320-346 | In every run acknowledgements are exactly the complete responses after the handshake that are no background update and come while a response is awaited, and the active session id is the last that came with the handshake or such a response. |
| `ReplClient.PromptDecides` | git-lunarwing-unix-socket-client-repo/src/main.rs:90-158 | The prompt opens after the handshake unless the reader has closed; a line begins a request exactly if none is awaited. |
| `ReplClient.NoTextIsLost` | git-lunarwing-unix-socket-client-repo/src/main.rs:211-298 | For every run and session id the text received is the text printed, buffered and thrown away; while the reader runs nothing has been thrown away. |
| `ReplClient.TextSurvivesIff` | git-lunarwing-unix-socket-client-repo/src/main.rs:211-298 | Printed and buffered text is all text received exactly if nothing was thrown away; a connection lost on reading throws nothing away. |
| `ReplClient.EndOfReaderLosesBuffers` | git-lunarwing-unix-socket-client-repo/src/main.rs:253-276 | After a Disconnect or an unanswerable ping an id's text has all been printed exactly if the frame disconnects that id or nothing was buffered for it; after the ping the request stays awaited and the main task is not told. |
| `ReplClient.FragmentIsLost` | git-lunarwing-unix-socket-client-repo/src/main.rs:253-276 | Inputs: a fragment followed by another id's Disconnect, or by such a ping, is never printed. |
| `NoPanics.LexerState.CountHashes` | ic/scripts/check_no_panics.py:75-79 | The hash loop stops at the first other character. |
| `NoPanics.LexerState.ReadRound` | ic/scripts/check_no_panics.py:57-105 | One round of the lexer in a comment, raw string, string or character literal, or in code. |
| `NoPanics.LexerState.ReadCode` | ic/scripts/check_no_panics.py:107-133 | One round in code. |
| `NoPanics.LexerState.SanitizeLine` | ic/scripts/check_no_panics.py:52-135 | The pass over a line gives the masked line and the state for the next one. |
| `NoPanics.MaskKeepsPlaces` | ic/scripts/check_no_panics.py:52-135 | Masking keeps the length and puts the original character or a blank everywhere. |
| `NoPanics.QuotedLiteralIsBlank` | ic/scripts/check_no_panics.py:87-131 | A string or character literal is blanked to its first bare quote, or to the end of the line, and then the next line starts inside. |
| `NoPanics.QuotedTextIsBlank` | ic/scripts/check_no_panics.py:87-105 | So is the part of such a literal on a line that starts inside it. |
| `NoPanics.FirstBareIsFirst` | ic/scripts/check_no_panics.py:87-105 | That quote is the first that stands behind no unescaped backslash. |
| `NoPanics.RawStringIsBlank` | ic/scripts/check_no_panics.py:73-120 | A raw string is blanked to the first quote with exactly its number of hashes, or to the end of the line. |
| `NoPanics.RawTextIsBlank` | ic/scripts/check_no_panics.py:73-85 | So is the part of a raw string on a line that starts inside it. |
| `NoPanics.FirstFenceIsFirst` | ic/scripts/check_no_panics.py:74-83 | That quote is the first one with that number of hashes. |
| `NoPanics.LineCommentIsBlank` | ic/scripts/check_no_panics.py:107-108 | A line comment blanks the rest of the line. |
| `NoPanics.CommentIsBlank` | ic/scripts/check_no_panics.py:61-71 | A comment is blanked to the bracket that matches its own, or to the end of the line. |
| `NoPanics.CommentLineIsBlank` | ic/scripts/check_no_panics.py:61-71 | So is the part of a comment of any depth on a line that starts inside it. |
| `NoPanics.CommentBracketsNest` | ic/scripts/check_no_panics.py:61-71 | Comment brackets nest and are blank. |
| `NoPanics.LinesStartInOneMode` | ic/scripts/check_no_panics.py:52-135 | Every line of every file starts in code or inside one comment or literal. |
| `NoPanics.OpenTextIsBlank` | ic/scripts/check_no_panics.py:61-105 | Whatever a line starts inside of is blank up to where code goes on; if it does not, the line is blank and the next starts inside. |
| `NoPanics.TrackBraces` | ic/scripts/check_no_panics.py:172-180 | The brace loop of one line. |
| `NoPanics.TrackLine` | ic/scripts/check_no_panics.py:155-183 | One line: its mark, and the tracker after it. |
| `NoPanics.LineTestContexts` | ic/scripts/check_no_panics.py:148-185 | Every line gets the mark that the state at its start and its masked code determine. |
| `NoPanics.StackIsLayered` | ic/scripts/check_no_panics.py:172-180 | Before every line the stack has production blocks outside and test blocks inside. |
| `NoPanics.LinesInTestBlocksAreTests` | ic/scripts/check_no_panics.py:158-170 | A line is marked exactly if some test block is open at its start, at any depth, or a test item has been announced. |
| `TestBlocks.MarkedIffTestCode` | ic/scripts/check_no_panics.py:148-185 | A line is marked exactly if the brace of a test item is still open at its start by brace balance, or a test item has been announced, not called off, and its brace is still to come; a test item is a `tests` module, one that a test attribute reaches across blank and attribute lines, or any item announced inside a test block. |
| `TestBlocks.BracesMatch` | ic/scripts/check_no_panics.py:172-180 | A brace is on the stack exactly as long as the balance from it on stays positive. |
| `TestBlocks.RunAgrees` | ic/scripts/check_no_panics.py:172-180 | Each place of the stack tells whether a brace of a test item is open up to there. |
| `TestBlocks.TrackerRuns` | ic/scripts/check_no_panics.py:155-183 | The state at the start of a line is that of the announced items, code braces and semicolons before it. |
| `NoPanics.OnlyBracesMove` | ic/scripts/check_no_panics.py:172-180 | Code without braces leaves the stack alone. |
| `NoPanics.OpenTextMovesNothing` | ic/scripts/check_no_panics.py:156-180 | What a line starts inside of never moves the stack, closed on the line or not. |
| `NoPanics.LiteralMovesNothing` | ic/scripts/check_no_panics.py:156-180 | Nor does a comment or literal that starts at any place in code. |
| `NoPanics.PlainCharacterMoves` | ic/scripts/check_no_panics.py:172-180 | A plain character in code moves the stack by itself, so the stack follows exactly the braces in code. |
| `NoPanics.LineMovesStackByItsCode` | ic/scripts/check_no_panics.py:155-183 | Over the lines of a file: the stack after a line is that of the code on it, which begins where the open text ends. |
| `NoPanics.OpenLinesMoveNothing` | ic/scripts/check_no_panics.py:155-183 | Lines inside one literal or comment are blank and leave the stack alone. |
| `NoPanics.OddApostrophesReachNextLine` | ic/scripts/check_no_panics.py:125-130 | On a line of code without quotes, backslashes and slashes, the next line starts inside a character literal exactly if the apostrophes are odd in number. |
| `NoPanics.LifetimeHidesBrace` | ic/scripts/check_no_panics.py:125-130 | An input: a lifetime on one line hides the brace on the next. |
| `BootstrapEnv.TwoPassesAreOne` | ic/src/bootstrap.rs:232-232 | The two replacements are one pass over the characters. |
| `BootstrapEnv.QuotedValueReadsBack` | ic/src/bootstrap.rs:229-234 | An escape-aware reader gets every value back and stops where it ends. |
| `BootstrapEnv.LinesOfRendered` | ic/src/bootstrap.rs:267-279 | Reading written lines again gives the lines, but for a carriage return at the end of each. |
| `BootstrapEnv.FirstLine` | ic/src/bootstrap.rs:268-268 | A line up to its newline is read without a carriage return at its end. |
| `BootstrapEnv.LastLine` | ic/src/bootstrap.rs:268-268 | A last line without newline is read as it is. |
| `BootstrapEnv.UpsertVars` | ic/src/bootstrap.rs:250-290 | The batch upsert writes the lines of other keys in order, then one line per pair. |
| `BootstrapEnv.AppendVars` | ic/src/bootstrap.rs:224-238 | The writing loop, which is also the whole of the first save. |
| `BootstrapEnv.LinesOfUpserted` | ic/src/bootstrap.rs:267-285 | The lines of the result are the other keys' lines, in order, and the new ones. |
| `BootstrapEnv.UpsertIsIdempotent` | ic/src/bootstrap.rs:250-290 | Upserting the same pairs again changes nothing, exactly if no kept line ends in a carriage return. |
| `BootstrapEnv.CarriageReturnIsEaten` | ic/src/bootstrap.rs:267-279 | An input: the file `a` and a carriage return, upserted twice with nothing. |
| `BootstrapEnv.OneLinePerPair` | ic/src/bootstrap.rs:267-285 | Afterwards the lines of a given key are those of its pairs: one, for a key given once. |
| `BootstrapEnv.KeyOfLine` | ic/src/bootstrap.rs:270-273 | A line's key is the text before its first equals sign without the blanks around it. |
| `BootstrapEnv.OtherLinesStay` | ic/src/bootstrap.rs:267-279 | A batch upsert keeps every line that has none of its keys, in order: any property of such lines picks the same lines of the new file as of the old one. |
| `BootstrapEnv.OtherKeysStay` | ic/src/bootstrap.rs:267-279 | So the lines of all other keys together, those of each other key, and those without an equals sign stay. |
| `BootstrapEnv.PairReadsBack` | ic/src/bootstrap.rs:282-285 | A written line gives its key and value back. |
| `BootstrapEnv.UpsertVar` | ic/src/bootstrap.rs:303-342 | The single upsert puts the new line in the place of the first old one, or at the end. |
| `BootstrapEnv.ExactlyOneKeyLine` | ic/src/bootstrap.rs:318-337 | Afterwards exactly one line starts with the key, it is the new one, at the first old position, and the other lines are kept in order. |
| `BootstrapEnv.OtherLinesStayAtUpsert` | ic/src/bootstrap.rs:318-337 | A single upsert keeps every line that does not start with the key, in order. |
| `Quoting.QuotedAddsItself` | ic/src/service.rs:961-966 | Wherever it stands outside quotes, a quoted text adds exactly itself to the word a shell is reading. |
| `Quoting.QuotedIsOneWord` | ic/src/service.rs:961-966 | By the quoting rules of section 2.2 of the POSIX.1-2017 Shell Command Language a quoted text is one word, equal to the text. |
| `Quoting.HintReadsBack` | ic/src/service.rs:914-923 | A shell sees the six intended words of the command hint, whatever the two paths contain. |
| `Quoting.FiveReplacementsAreOne` | ic/src/service.rs:906-912 | The five chained replacements are one map over the characters. |
| `Quoting.XmlRoundTrip` | ic/src/service.rs:906-912 | Decoding the predefined entities of section 4.6 of XML 1.0 gives every text back. |
| `Utf8.BoundariesAreEnds` | ic/src/util.rs:26-26 | In valid UTF-8 the boundary test holds exactly at the ends of whole numbers of characters. |
| `Utf8.Utf8Floor` | ic/src/tracing_fmt.rs:112-120 | The greatest boundary at or before the position. |
| `Utf8.FloorCharBoundary` | ic/src/util.rs:21-30 | The same, or the length for a position past the end. |
| `Utf8.FloorIsUnique` | ic/src/tracing_fmt.rs:112-120 | Both searches cut at the same place, on any bytes. |
| `Utf8.FloorIsLongestPrefix` | ic/src/tracing_fmt.rs:107-120 | On valid UTF-8 the cut is the end of the longest whole-character prefix within the limit. |
| `Utf8.FitIsGreatest` | ic/src/tracing_fmt.rs:107-120 | One character more would be over the limit. |
| `Utf8.EventBuffer.Write` | ic/src/tracing_fmt.rs:97-100 | Writing appends all bytes. |
| `Utf8.EventBuffer.Drop` | ic/src/tracing_fmt.rs:122-165 | Dropping writes the buffer, or its cut less one newline and a note of the whole length. |
| `Text.DecimalReadsBack` | ic/src/tracing_fmt.rs:133-133 | The length in the note reads as the length of the whole buffer. |
| `Utf8.DropWritesWholeCharacters` | ic/src/tracing_fmt.rs:122-165 | For every valid text and limit the output is valid UTF-8: the longest whole-character prefix, less one newline, and the note. |

## Left out

- HTTP handlers, sockets, TLS, subprocess calls, file permissions and PID locking: I/O over code that is not
  here. Reads, writes and their failures are inputs of the models.
- An HTTP error of the upstream before the stream opens, which sends `response.failed`: two fixed writes.
- JSON decoding of a frame is a parameter (`parse`). An ill-typed element raises once the well-typed part
  before it has been handled. Null fields of a delta read as empty strings, and timestamps are not modelled.
- Distinctness of fresh item ids: ids are inputs and no result needs them to differ. Two output items are told
  apart by their output index.
- Completion contents other than the first choice's text, calls, finish reason and usage.
- Missing `call_id` fields of input function calls, which get an `id` or a made-up id: the id is an input.
- Conversion of non-string tool outputs to JSON text: the text is an input.
- Retry delays and jitter, log output everywhere.
- `UrlopenWithRetry`: the number of attempts is the length of its input, 3 in the source by default.
- `Repetition.Detector.Detect`: the two optional parameters have their defaults, the only values in use.
- Serialization of settings is the identity on trees; what the schema accepts is a predicate, and the
  number and JSON texts of the libraries are a parameter, about which nothing is assumed but, where a lemma
  says so, that the text of the value at hand reads back (`FaithfulAt`).
- The fields that `merge_from` copies after the merge because they are not serialized.
- `CollectSettingsJson`: of several leaves with the same dotted key, which empty or dotted keys can cause, it
  does not say which one is kept; the round trip is stated for trees without such keys.
- JSON floats are real numbers.
- Session ids of the REPL server are fresh by assumption, as random 128-bit ids are in practice.
- Job semaphores of the rate registry, which work like the LLM ones, and tenant operations that carry the user
  id into the query instead of checking it.
- `NonInterference`: row ids are never created twice, as random ids are not in practice.
- The regular expressions of the panic checker are a parameter, and reading git's diff is left out.
- Failures of standard output in the client, which end a task; failures of socket reads and writes are modelled.
- `AppendVars`: creation of directories and the write itself are left out, as for the other two.
- Values and keys with line breaks: the escape leaves a line break as it is, so the upserts, which work by
  lines, take its rest for lines of their own; the results about lines ask for values without.
- The characters that count as blanks when a key is trimmed are a parameter.
- `HintReadsBack`: the action must be a plain word, as all callers' actions are.
- Startup wiring, the onboarding tools, message routing by regular expressions, profiles, the boot screen and
  the self-heal watchdog: easy, text only, or not part of this model.
- Duplicate copies of the proxies and of the REPL server.
