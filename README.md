# local-quest: a verified model of the chat transport, world generation and selection logic

local-quest is a browser text-adventure front end that runs Chrome's
built-in language model. This project models the parts of it that carry
state and rules, and proves what they guarantee:

- **The client-side chat transport** (`chat_transport.dfy`, `chat_transport_properties.dfy`).
  - `streamResponse` turns the partial `{response, suggestions?}` objects of a structured generation into `text-start` / `text-delta` / `text-end` chunks.
  - An abort signal can end the text early.
  - Abort-flavoured errors are swallowed, and suggestions are published to the suggestions store only on success.
  - `sendMessages` adds a download-progress episode when the model first has to be downloaded.
  - The stream writer is an append-only log. The abort signal is an object with an `aborted` flag and a count of attached listeners.
- **World generation** (`generate_world.dfy`): the per-value completeness test, the completed-field set, the choice of the current field, and the throttled progress loop with its final report.
- **The opening scene** (`generate_initial_message.dfy`): the 50-character completeness test, the progress loop and the value returned.
- **Prompt transformation** (`transform_prompt.dfy`): the trimmed, case-insensitive fast path, the availability re-check, and the rejection of an empty answer.
- **The two stores** (`suggestions_store.dfy`, `world_store.dfy`): classes whose methods overwrite their fields.
- **The file list of the upload area** (`file_upload.dfy`): append on drop, and removal by index.
- **The world-selection screen** (`world_selection.dfy`): seed and custom-prompt selection, `canStartAdventure`, prompt resolution, the progress cells during `handleStartAdventure`, and the `isCurrent` rule.
- **Shared JavaScript semantics** (`common.dfy`, `js_text.dfy`): truthiness, `trim` with the full ECMAScript whitespace set, `toLowerCase`, `startsWith`, `includes` and `slice`.

The model runtime is never called. Whatever it contributes is an input of the model:

- availability;
- whether creating a session fails;
- the download ticks;
- the partial objects;
- how the stream ends;
- how the final object settles;
- when the abort signal fires.

Each generation has a `...Spec` function that says what one call produces as a function of those inputs. The imperative methods (`StreamResponse`, `SendMessages`, `GenerateWorldData`, `GenerateInitialMessage`, `HandleStartAdventure`, ...) are proved to produce exactly that. The properties are lemmas about the spec functions.

Behaviour of the code worth knowing:

- **No prefix check.** The delta loop slices the new response at the length of the previous one; it does not check that the new response extends the old one. `DivergingResponseIsNotDetected` shows text that then never reaches the deltas. `DeltasRebuildResponse` holds only under the prefix precondition.
- **Up to two `text-end` chunks.** A `text-end` is not written exactly once. Two are written when `result.object` rejects after the normal `text-end`, or when the abort fires while `result.object` is awaited. `StreamEventsShape` characterises exactly when.
- **Suggestions can be published around an abort.** This happens when the signal was already aborted before the call: the listener never fires, so only the loop stops. It also happens when the abort fires during `await result.object` and the object still resolves.
- **Two completion chunks after a download.** A completed download writes two "complete" chunks: one from the tick of 1, and one with an empty message after the session is ready (`DownloadScenario`).
- **Progress is not forced to be monotone.** Reported progress is non-decreasing only when the ticks are (`ProgressIsMonotone`).
- **Throttled partials are forgotten.** World partials arriving within 200 ms of the last report are not examined at all. A field that only such a partial showed complete, and that the final object leaves blank, never appears in any report (`FinalReport`, `ThrottledPartialIsForgotten`).

## Model

| member | source | states |
|---|---|---|
| ChatTransport.AbortListener | src/lib/client-side-chat-transport.ts:90-99 | The handler sets the aborted flag and writes one `text-end` exactly when a text id exists. |
| ChatTransport.ProcessPartial | src/lib/client-side-chat-transport.ts:118-135 | One pass of the loop body writes the chunks of `Step` and leaves its id and previous text. |
| ChatTransport.IsAbortError | src/lib/client-side-chat-transport.ts:166-170 | Definition: an `Error` named `AbortError` or whose message includes "aborted" or "abort". `AbortErrorClassification` shows the "aborted" test adds nothing. |
| ChatTransport.Percent | src/lib/client-side-chat-transport.ts:222 | The rounded percentage is within half a point of 100 times the tick, and between 0 and 100 for a tick between 0 and 1. |
| ChatTransport.ForAwaitPartials | src/lib/client-side-chat-transport.ts:88-136 | The `for await` loop with the abort listener attached writes the chunks of the delta fold over the partials it processes. It stops at the abort, writing a `text-end` from the handler when a text id exists, and reports the stream's error. The listener count is unchanged. |
| ChatTransport.StreamResponse | src/lib/client-side-chat-transport.ts:74-183 | The chunks written, the store's suggestions and the error re-thrown are those of `StreamSpec` on every path (normal, error, abort). The abort flag is set only when the listener fires. The listener is detached again on every path. |
| ChatTransport.FinishStream | src/lib/client-side-chat-transport.ts:139-176 | After the loop: the `text-end` chunks, the published suggestions and the re-thrown error are those of `AfterLoop`. The abort flag is set only by an abort during `await result.object`. |
| ChatTransport.WriteDownloadProgress | src/lib/client-side-chat-transport.ts:49-68 | Appends exactly one download-progress chunk with the given id, status, progress and message. |
| ChatTransport.CreateSessionWithProgress | src/lib/client-side-chat-transport.ts:217-260 | The progress callback, run on each tick, leaves the id and the chunks given by the tick fold `DownloadTicks`. |
| ChatTransport.ClearAndStream | src/lib/client-side-chat-transport.ts:262-285 | Once the session exists: the clearing chunk for an allocated id, then what `streamResponse` writes, then an error notification if it throws. The error is re-thrown and the suggestions published are those of `StreamSpec`. |
| ChatTransport.DownloadAndStream | src/lib/client-side-chat-transport.ts:214-285 | The whole download branch writes, throws and publishes what `DownloadBranch` says. A failing session is announced and re-thrown before any text. The abort flag is set only when the stream actually runs and the listener fires. |
| ChatTransport.SendMessages | src/lib/client-side-chat-transport.ts:185-288 | The chunks, suggestions, abort flag and error are those of `SendSpec`. An available model streams directly. Otherwise the call does four things in order: download progress, the clearing chunk when an id exists, the stream, and a notification before re-throwing any error. |
| ChatTransport.ReconnectToStream | src/lib/client-side-chat-transport.ts:290-293 | Always yields no stream. |
| ChatTransportProperties.ConsumeShape | src/lib/client-side-chat-transport.ts:118-135 | The loop writes nothing, or one `text-start` followed only by non-empty deltas, all under one id. An id is allocated exactly when something is written. `previousText` is the last response observed. |
| ChatTransportProperties.StepWritesOnlyNews | src/lib/client-side-chat-transport.ts:118-131 | A partial with a missing, empty or unchanged response writes nothing and changes nothing. No empty delta is written. |
| ChatTransportProperties.DeltasRebuildResponse | src/lib/client-side-chat-transport.ts:118-135 | If every observed response extends the previous one, the deltas concatenate to the last response. |
| ChatTransportProperties.DivergingResponseIsNotDetected | src/lib/client-side-chat-transport.ts:126-134 | Without that precondition the deltas can differ from the response: "Hello" then "Help!" writes only "Hello". |
| ChatTransportProperties.StreamEventsShape | src/lib/client-side-chat-transport.ts:88-163 | What a call writes is the loop's chunks followed only by `text-end` chunks. There are none when no text started and at most two otherwise. There are exactly two when the normal end is followed by a rejection or by an abort during the final await. |
| ChatTransportProperties.AfterLoopEnds | src/lib/client-side-chat-transport.ts:138-176 | After the loop at most two chunks are written, all `text-end` for the text id. There are none without an id or once the listener has fired, at least one otherwise, and exactly two when the loop neither aborted nor threw and either the final object rejects or the abort fires during the final await. |
| ChatTransportProperties.LoopThenEndsShape | src/lib/client-side-chat-transport.ts:88-176 | For any loop output and any outcome after it, the chunks are the loop's followed by zero, one or two `text-end` chunks for the id, as `StreamEventsShape` states. |
| ChatTransportProperties.BodyThenEndsIsWellFormed | src/lib/client-side-chat-transport.ts:88-176 | A text body (one start, non-empty deltas) followed by at least one `text-end` for the same id is a well-formed text stream. |
| ChatTransportProperties.StreamIsWellFormed | src/lib/client-side-chat-transport.ts:88-163 | On every path the text stream is well formed: one id, `text-start` first and only there, non-empty deltas, nothing but `text-end` after a `text-end`, and a `text-end` last. |
| ChatTransportProperties.AbortStopsConsumption | src/lib/client-side-chat-transport.ts:113-116 | Once the abort fires in the loop, nothing after it matters: not the later partials, not how the stream ends, not the final object. |
| ChatTransportProperties.PublishesOnlyOnSuccess | src/lib/client-side-chat-transport.ts:146-155 | Suggestions are published iff the loop neither aborted nor threw, the final object resolved, and its list is present and non-empty. The list is published verbatim. |
| ChatTransportProperties.RethrowsExactlyGenuineErrors | src/lib/client-side-chat-transport.ts:156-176 | An error is re-thrown iff the listener never fired and the error is not abort-classified. |
| ChatTransportProperties.AbortErrorClassification | src/lib/client-side-chat-transport.ts:168-172 | Abort-classified means an `AbortError`, or a message containing "abort"; the "aborted" test adds nothing. |
| ChatTransportProperties.HelloThereScenario | src/lib/client-side-chat-transport.ts:118-155 | Partials "Hel", "Hello", "Hello there" give deltas "Hel", "lo", " there" between one start and one end. The two suggestions are published. |
| ChatTransportProperties.DownloadIdAllocation | src/lib/client-side-chat-transport.ts:221-260 | An id is allocated iff some tick is below 1. Every chunk carries that one id, and the first chunk reports progress. |
| ChatTransportProperties.TicksFromAppend | src/lib/client-side-chat-transport.ts:221-260 | Running the callback over two runs of ticks is running it over the first and then continuing with the id it left. |
| ChatTransportProperties.EarlyCompleteTicksIgnored | src/lib/client-side-chat-transport.ts:224-237 | Ticks of 1 or more arriving before any smaller tick write nothing and leave no trace. |
| ChatTransportProperties.ProgressIsMonotone | src/lib/client-side-chat-transport.ts:222-259 | Non-decreasing ticks report non-decreasing progress, never above what the latest tick reports. |
| ChatTransportProperties.OnlyProgressMessages | src/lib/client-side-chat-transport.ts:224-259 | The callback writes only download chunks, with the downloading or the finished message. |
| ChatTransportProperties.StreamChunksAreText | src/lib/client-side-chat-transport.ts:74-183 | `streamResponse` writes no download chunk and no notification. |
| ChatTransportProperties.AvailableSkipsDownload | src/lib/client-side-chat-transport.ts:204-211 | With an available model no download chunk and no notification is written. |
| ChatTransportProperties.DownloadBranchOrder | src/lib/client-side-chat-transport.ts:214-285 | In the download branch every download chunk precedes every text chunk and the notification. |
| ChatTransportProperties.DownloadBranchChunksFirst | src/lib/client-side-chat-transport.ts:221-285 | For any stream output without download chunks, the download branch writes every download chunk before every other chunk. |
| ChatTransportProperties.DownloadClearedIffStarted | src/lib/client-side-chat-transport.ts:262-271 | Once the session exists, the clearing "complete" chunk (100, empty message) is written iff an id was allocated. |
| ChatTransportProperties.ClearedIffAllocated | src/lib/client-side-chat-transport.ts:262-285 | For any stream output without download chunks, the clearing chunk appears iff the download allocated an id. |
| ChatTransportProperties.DownloadBranchReportsFailure | src/lib/client-side-chat-transport.ts:275-285 | In the download branch a re-thrown error is announced by an error notification written last. Without an error, no notification is written. |
| ChatTransportProperties.DownloadScenario | src/lib/client-side-chat-transport.ts:221-274 | Ticks 0.3, 0.7, 1.0 report 30 and 70, then completion twice, then the text stream. |
| JsText.TrimShape | src/lib/transform-prompt.ts:24 | `trim` never lengthens a string and leaves no whitespace at either end. Its result is the input with whitespace removed from both ends and nowhere else (`IsTrimOf`). |
| JsText.TrimIsUnique | src/lib/transform-prompt.ts:24 | Only one string is a trim of a given string in the sense of `IsTrimOf`, so that predicate characterises `trim`. |
| JsText.TrimIdempotent | src/lib/transform-prompt.ts:24 | Trimming twice is trimming once. |
| JsText.TrimEmptyIffBlank | src/lib/generate-world.ts:116-118 | `trim` yields "" iff every character is whitespace. |
| JsText.ToLower | src/lib/transform-prompt.ts:28-29 | `toLowerCase` keeps the length and leaves no ASCII capital. Each capital becomes the lower-case letter at the same place in the alphabet, and every other character is kept. |
| JsText.ToLowerIdempotent | src/lib/transform-prompt.ts:28 | Lower-casing twice is lower-casing once. |
| JsText.IncludesPrefix | src/lib/client-side-chat-transport.ts:168-172 | A string including a piece includes every prefix of it. |
| JsText.SliceFrom | src/lib/client-side-chat-transport.ts:126 | `slice(n)` is the rest after the first `n` characters, or "" past the end. |
| Suggestions.SuggestionsStore.constructor | src/stores/suggestions-store.ts:10 | The suggestions start empty. |
| Suggestions.SuggestionsStore.SetSuggestions | src/stores/suggestions-store.ts:11 | Sets the list verbatim. |
| Suggestions.SuggestionsStore.ClearSuggestions | src/stores/suggestions-store.ts:12 | Empties the list. |
| Suggestions.SetAndClearInteract | src/stores/suggestions-store.ts:11-12 | Read off the store after each pair of calls: clear twice leaves it empty, set then clear leaves it empty, and clear then set leaves the list set. |
| Worlds.WorldStore.constructor | src/stores/world-store.ts:34-36 | World, seed prompt and opening message all start empty. |
| Worlds.WorldStore.SetWorldData | src/stores/world-store.ts:37 | Sets the world and nothing else. |
| Worlds.WorldStore.SetSeedPrompt | src/stores/world-store.ts:38 | Sets the seed prompt and nothing else. |
| Worlds.WorldStore.SetInitialMessage | src/stores/world-store.ts:39 | Sets the opening message and nothing else. |
| Worlds.WorldStore.ClearWorld | src/stores/world-store.ts:40-41 | Empties all three. |
| Worlds.RunCalls | src/stores/world-store.ts:37-41 | Any sequence of setter and clear calls leaves the store in the state `Replay` gives. |
| Worlds.ClearForgetsHistory | src/stores/world-store.ts:40-41 | After a clear, the state depends only on the calls that follow it, whatever came before. Clearing twice is clearing once, and both leave the store empty. |
| Worlds.LastSeedWins | src/stores/world-store.ts:37-41 | The seed prompt is the argument of the last `setSeedPrompt` with no `clearWorld` after it. The other setters never change it. |
| GenerateWorld.FieldListsCoverSchema | src/lib/generate-world.ts:139-150 | The ten fields of the list are distinct and cover the schema. The optional ones are characters, items and goals, exactly those outside the required list. |
| GenerateWorld.IsFieldComplete | src/lib/generate-world.ts:109-123 | Only an array, a string or an object can count as filled in; `undefined`, `null`, numbers and booleans never do. |
| GenerateWorld.StringFieldCompleteIffNotBlank | src/lib/generate-world.ts:109-123 | A string field is complete iff it has a non-whitespace character. |
| GenerateWorld.UpdateCompletedFields | src/lib/generate-world.ts:126-137 | The loop adds exactly the listed fields that are complete in the object, and removes nothing. |
| GenerateWorld.CompleteInBounds | src/lib/generate-world.ts:126-137 | A field is recorded iff it is listed, present, and complete by `isFieldComplete`. |
| GenerateWorld.FirstMissing | src/lib/generate-world.ts:172-178 | `find` returns the first field not completed, or nothing iff all are completed. |
| GenerateWorld.FirstMissingOf | src/lib/generate-world.ts:172-179 | The first entry of the required list followed by the optional list that is not completed: every entry before it is completed. It is absent iff all are completed, and an optional field is chosen only when every required field is completed. |
| GenerateWorld.CurrentField | src/lib/generate-world.ts:160-179 | The current field is the first uncompleted field in declaration order: every field listed before it is completed. It is an optional field only when every required field is completed, and it is absent iff every field is completed. |
| GenerateWorld.WorldRecord | src/lib/generate-world.ts:198 | The final world, viewed as a record, has every required field as a string and each optional list as a key iff it is present. |
| GenerateWorld.FinalRequiredFieldsComplete | src/lib/generate-world.ts:196-198 | In the final object a required field counts as completed iff its text is not blank. |
| GenerateWorld.FinalOptionalFieldsComplete | src/lib/generate-world.ts:196-198 | In the final object an optional list counts as completed iff it is present and non-empty. |
| GenerateWorld.GenerateWorldData | src/lib/generate-world.ts:72-208 | Whether a session is requested, the reports and the result are those of `WorldSpec`. |
| GenerateWorld.TrackReports | src/lib/generate-world.ts:152-191 | Every loop report names `CurrentField` of its own set. Each report's set is contained in the loop's, and the sets only grow. There is no report without a callback. |
| GenerateWorld.TrackTimes | src/lib/generate-world.ts:155-157 | There is one moment per report. Reports are more than 200 ms apart, the first is more than 200 ms after the start, and the throttle remembers the last report's moment. |
| GenerateWorld.ReportsGrow | src/lib/generate-world.ts:181-203 | Across all reports of a call, the final one included, each completed set contains the previous ones. Every report but the final one names `CurrentField` of its set. |
| GenerateWorld.FinalReport | src/lib/generate-world.ts:193-207 | When the world resolves, the call returns it. With a callback, the last report has no current field and holds exactly the fields recorded by the throttled progress reports plus every field complete in the final object. A field that only a throttled-away partial showed complete is not counted. Without a callback there is no report. |
| GenerateWorld.ThrottledPartialIsForgotten | src/lib/generate-world.ts:155-198 | A partial at 100 ms showing a title, followed by a final world with a blank title, gives one report, and that report does not count the title. |
| GenerateWorld.SessionOnlyWhenUnavailable | src/lib/generate-world.ts:79-85 | A session is requested iff the model is not available. Its failure rejects the call before any report. |
| InitialMessage.SceneText | src/lib/generate-initial-message.ts:88-91 | A non-string scene reads as "". A string scene reads as the string with whitespace removed from both ends and nowhere else, which `TrimIsUnique` shows is its `trim`. |
| InitialMessage.IsSceneComplete | src/lib/generate-initial-message.ts:88-93 | A complete scene is a string of at least 50 characters. |
| InitialMessage.CompleteSceneIsLongString | src/lib/generate-initial-message.ts:88-93 | A complete scene is a string of at least 50 characters that is not blank. |
| InitialMessage.CompletenessPersists | src/lib/generate-initial-message.ts:88-93 | A scene that extends a complete scene is complete. |
| InitialMessage.GenerateInitialMessage | src/lib/generate-initial-message.ts:24-115 | Whether a session is requested, the reports and the result are those of `SceneSpec`. |
| InitialMessage.ReportsMatchScenes | src/lib/generate-initial-message.ts:86-98 | There is one report per truthy scene, in order, and none iff no scene is truthy. Each report is the completeness of its scene, so every report is true when every scene is complete. |
| InitialMessage.ReportsFollowTruthyScenes | src/lib/generate-initial-message.ts:86-98 | The k-th report is the completeness of the k-th truthy scene, and there are as many reports as truthy scenes. |
| InitialMessage.TruthyScenesFromScenes | src/lib/generate-initial-message.ts:87 | The scenes reported on are scenes of the stream, all truthy, never more than the stream has. There are none iff no scene is truthy. |
| InitialMessage.TrueReportHasCompleteScene | src/lib/generate-initial-message.ts:86-98 | A report of completion comes from a complete scene of the stream. |
| InitialMessage.CompleteStaysComplete | src/lib/generate-initial-message.ts:88-93 | When each scene extends the earlier ones, every scene after a complete one is complete. |
| InitialMessage.ReportsSwitchOnce | src/lib/generate-initial-message.ts:86-98 | When each scene extends the earlier ones, the reports switch from incomplete to complete at most once and never back. |
| InitialMessage.ResultIsFinalScene | src/lib/generate-initial-message.ts:31-114 | Both branches return the final scene, with or without a callback, unless the session fails. A session is requested iff the model is not available. There is no report without a callback. |
| TransformPrompt.IsFullPrompt | src/lib/transform-prompt.ts:24-30 | An input that takes the fast path has a trim at least as long as the shorter prefix. |
| TransformPrompt.Transform | src/lib/transform-prompt.ts:23-107 | The model is called iff the fast path is not taken, and a prompt the call resolves with is never blank. |
| TransformPrompt.TrimOfLower | src/lib/transform-prompt.ts:28-29 | Trimming and lower-casing commute. |
| TransformPrompt.FastPathIgnoresCase | src/lib/transform-prompt.ts:27-30 | An input and its lower-cased form take the fast path alike. |
| TransformPrompt.FastPathIsFixedPoint | src/lib/transform-prompt.ts:24-32 | The fast path returns the trimmed input without calling the model. Transforming that result again returns it unchanged. |
| TransformPrompt.ModelResultIsNotBlank | src/lib/transform-prompt.ts:99-106 | A prompt from the model is returned untrimmed and is never blank. Once the model is ready, the answer is accepted iff its trim is non-empty. |
| TransformPrompt.AvailabilityRechecked | src/lib/transform-prompt.ts:37-50 | The second availability check matters only after a session was created. A model still not available rejects with an error naming its status. |
| TransformPrompt.BlankAnswerExample | src/lib/transform-prompt.ts:99-104 | A whitespace answer is rejected with "LLM returned empty prompt". |
| FileUpload.OnDrop | src/components/file-upload.tsx:32-47 | No accepted files means no change. Otherwise the new list is the existing files, an undefined list read as empty, followed by the accepted ones. |
| FileUpload.RemoveFile | src/components/file-upload.tsx:56-66 | An undefined list means no change. Otherwise the rebuilt list is the list without the element at the index. |
| FileUpload.WithoutShape | src/components/file-upload.tsx:56-64 | An index in range gives a list one shorter, in order, missing exactly that element (as a multiset). An index out of range gives the same list. |
| FileUpload.RemoveUndoesDrop | src/components/file-upload.tsx:32-64 | Removing the last file of a one-file drop restores the list. |
| WorldSelection.CanStart | src/routes/world-selection.tsx:277-278 | The button is enabled iff a seed is selected or the custom prompt has a non-whitespace character. |
| WorldSelection.ResolvePrompt | src/routes/world-selection.tsx:426 | A non-empty resolved prompt implies the button is enabled. |
| WorldSelection.IsCurrent | src/routes/world-selection.tsx:468-470 | Definition: a world field shows as in progress when it is the current cell and is not completed. `AtMostOneCurrent` proves that at most one field does. |
| WorldSelection.ResolvedPromptChoice | src/routes/world-selection.tsx:426-433 | The seed wins over the trimmed custom prompt. A non-empty resolved prompt implies `canStartAdventure`, and the converse holds unless the seed is "". |
| WorldSelection.AtMostOneCurrent | src/routes/world-selection.tsx:468-470 | At most one field is shown as current, and never a completed one. |
| WorldSelection.ReportedFieldIsShownCurrent | src/routes/world-selection.tsx:468-470 | For a report whose current field is `CurrentField` of its set, a field is shown in progress iff it is the report's current field. |
| WorldSelection.ApplyWorldReportsLast | src/routes/world-selection.tsx:210-213 | After the world reports, the cells hold the last report's set and field, and nothing else changed. |
| WorldSelection.ApplySceneReportsLast | src/routes/world-selection.tsx:226-228 | After the scene reports, only the completion flag changed, to the last report. |
| WorldSelection.FailureResetsProgress | src/routes/world-selection.tsx:244-255 | A failure of either generation closes the dialog and resets every progress cell. |
| WorldSelection.SuccessShowsEverythingDone | src/routes/world-selection.tsx:198-236 | On success no cell is current, the scene is done and not in progress, no field shows as in progress, and every field the final world fills in is marked. |
| WorldSelection.OpeningSceneShownWhileWriting | src/routes/world-selection.tsx:222-229 | While the opening scene is written, it is the current cell and no world field is shown in progress. The scene shows as in progress until a report says it is complete. |
| WorldSelection.SelectionScreen.constructor | src/routes/world-selection.tsx:164-173 | Empty prompt, no seed, and all progress cells cleared. |
| WorldSelection.SelectionScreen.HandleSeedSelect | src/routes/world-selection.tsx:258-261 | Selects the seed, empties the custom prompt and keeps the exclusivity invariant. |
| WorldSelection.SelectionScreen.HandleCustomPromptChange | src/routes/world-selection.tsx:272-275 | Takes the text, drops the seed and keeps the exclusivity invariant. |
| WorldSelection.SelectionScreen.ApplyWorldProgress | src/routes/world-selection.tsx:210-213 | The callback, run on each report, leaves the cells of `ApplyWorldReports`. |
| WorldSelection.SelectionScreen.ApplySceneProgress | src/routes/world-selection.tsx:226-228 | The callback, run on each report, leaves the cells of `ApplySceneReports`. |
| WorldSelection.SelectionScreen.FailGeneration | src/routes/world-selection.tsx:251-254 | Resets the four progress cells. |
| WorldSelection.SelectionScreen.HandleStartAdventure | src/routes/world-selection.tsx:198-256 | The progress cells end as `StartSpec` says. The store gets the prompt, the world if generated, and the opening message exactly when the screen navigates. |
| WorldSelection.SelectionScreen.RunScene | src/routes/world-selection.tsx:220-255 | Once the world is stored: the cells end as `ScenePhase` says, and the store gets the opening message exactly when the screen navigates, which happens iff the scene resolves. |
| WorldSelection.SelectionScreen.ClickStart | src/routes/world-selection.tsx:417-434 | Generation starts iff the button is enabled, nothing is being generated and the resolved prompt is non-empty. Once started, the prompt is stored, the cells end as `StartSpec` says, the world is stored when generated, and the screen navigates iff both generations resolve. Otherwise neither the cells nor the store change and there is no navigation. |
| WorldSelection.SelectionsStayExclusive | src/routes/world-selection.tsx:258-275 | Any sequence of selections and edits from the initial screen keeps a seed and a custom prompt from being chosen together. |

## Left out

- The model runtime is not modelled. `builtInAI`, `streamObject`, `generateObject`, `createSessionWithProgress` and `availability` are replaced by their observable contributions as inputs. A rejection of `availability()` itself is not modelled.
- Concurrency is not modelled.
  - The progress loops and `result.object` run concurrently under `Promise.all`. They are modelled as the whole partial list followed by the settled final value.
  - Reports that arrive after `Promise.all` has already rejected are not separated from earlier ones.
- The abort signal is modelled as an object, not as a concurrent event.
  - An abort point fixes when the signal fires.
  - An abort during the download is the same as a signal that was already aborted when `streamResponse` starts.
  - A signal that was already aborted never dispatches again.
- Partial and final world objects are keyed by the ten schema fields. Other properties are never read by `updateCompletedFields`, so they are left out.
- Ids (`text-${Date.now()}`, `download-${Date.now()}`) and the clock are inputs: a token per id, and a moment per partial.
- Percent: `Math.round(progress * 100)` is computed on reals as floor(100·p + 0.5). Floating-point rounding error is not modelled.
- IsSceneComplete and SliceFrom count characters as Unicode scalar values. JavaScript's `length` and `slice` count UTF-16 code units, so strings with characters outside the Basic Multilingual Plane are measured differently. For example, 30 emoji are 60 code units and a complete scene in JavaScript, but 30 characters and incomplete here. The delta's cut point in `slice(previousText.length)` differs in the same way.
- `toLowerCase`: only the ASCII letters are lower-cased. Other Unicode case mappings are not modelled.
- `trim` is modelled with the ECMAScript whitespace and line-terminator set.
- The prompts and system prompts sent to the model are not modelled. This includes the opening-scene prompt built from the world, which only reaches the model.
- Console logging and toasts are not modelled. Neither is the 500 ms delay before navigating, which has no effect on state.
- JSX rendering, dialogs, the drag overlay, MIME filtering by the dropzone library, `DataTransfer` itself, routing, the Fuse.js search and random seed selection are not modelled.
- The seed prompt data in src/lib/seed-prompts.ts is not part of this model. `ResolvedPromptChoice` therefore allows an empty seed.
