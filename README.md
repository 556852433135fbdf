# AggressiveJobHunter, modelled in Dafny

AggressiveJobHunter is a browser agent that applies for jobs for its user. For every job
site it runs three phases: it logs in, searches for jobs, then applies. In each phase the
agent asks a language model for a batch of instructions. It fills `$placeholders` in those
instructions from the applicant's data, then runs each one on the page through an
executor that retries a failing browser call. A companion Chrome extension records a
person doing the same steps by hand. It turns each page into a record of
deduplicated actions. For each value typed into the page that the applicant file
already holds, it records the placeholder of that value's key, found through a flat
`->>`-keyed view of the file and a reverse map from values to placeholders. It then
writes a nested applicant file back from that reverse map. Only the loaded file's string
values reach it; a typed value the map does not know gets an invented placeholder and no
entry in the file.

The project models:

- the instruction executor of `executor.py`. It is a `Browser` class with a call log and
  a fault script, plus the `InstructionExecutor` class, whose `Execute` method runs the
  three-attempt loop. Both are proved against the reference function `ExecuteOutcome`.
- the instruction post-processing of `llm_agent.py`: `extract_json_block`, `_flatten`,
  `_interpolate`, `format_dict`, and the phase dispatch, truncation and reply
  normalisation in `ask`. Pure parts are functions. `_interpolate` is a method that
  rewrites an array in place. `ask` is a method of the `LlmAgent` class, which resets its
  `messages`.
- the phase engine and orchestrator of `main.py`. Pure functions (`RunBatch`,
  `PhaseLoop`, `ApplyLoop`, `RunSite`, `RunSites`, `Run`) are the reference behaviour.
  The imperative methods over a `Session` object (`RunInstructions`, `RunPhase`,
  `RunApply`, `RunAllSites`) run the same `while True` and `for` loops and are proved to
  agree with them.
- the data helpers of `DataCaptureToolChromeExtension/content.js`:
  - `flattenObject`, as a method that fills a shared accumulator object;
  - `unflattenObject`;
  - `buildReverseMap`, and the inversion in `generatePhaseJsonFilesFromReverseMap`;
  - `sanitizeKey` and `inferKeyName`;
  - the module-level capture state, as the `CaptureSession` class, whose methods are
    `startCapture`, `logClick`, `logInput`, `pushCurrentPageCapture`, the pause and
    resume handlers, and `stopCapture`.

Files:

| file | module | contents |
|---|---|---|
| wrappers.dfy | Wrappers | `Option` |
| text.dfy | Text | decimal digits, `Join`, `StartsWith`, `Contains`, `Repeat` |
| json.dfy | Json | decoded JSON values; mappings as ordered association lists with `Get`, `Set`, `Update`; Python and JavaScript truthiness |
| executor.dfy | Executor | executor.py |
| agent.dfy | Agent | llm_agent.py |
| orchestrator.dfy | Orchestrator | main.py |
| flat.dfy | FlatKeys | `flattenObject`, `unflattenObject` |
| reverse.dfy | Reverse | the reverse map and its inversion |
| keys.dfy | KeyNames | `sanitizeKey`, `inferKeyName` |
| capture.dfy | Capture | the capture session and `pushCurrentPageCapture` |

Where the code and its own comments or documentation disagree, the model follows the
code:

- `execute` returns `True` for `done`, although its docstring says `done` gives `False`.
- `_interpolate` stores the looked-up value as it is. A number stays a number; nothing is
  coerced to a string.
- `_flatten` drops an empty nested mapping altogether: it contributes no key.
  `flattenObject` likewise leaves no entry for an empty object or array.
- The capture extension's invented placeholders never reach the exported applicant file.
  `logInput` stores one as a plain string in the reverse map. The inversion then visits
  that string character by character. No one-character string matches `^\$(.+)$`, so
  nothing is written (`Reverse.Visited`, `Reverse.MatchField`).
- `flattenObject` throws `TypeError` on a file in which some object has an own entry
  `hasOwnProperty`, since its guard calls that entry (`FlatKeys.FlattenThrowsBelow`).
  `buildReverseMap` catches it and leaves the map empty, so every typed value then gets an
  invented placeholder (`Capture.ShadowedFileExportsEmpty`).
- `unflattenObject` throws `TypeError` when a key's walk runs past a primitive with two or
  more segments left. `{"a": "x", "a->>b->>c": "y"}` is one such input
  (`FlatKeys.UnflattenRunsPastString`). It ends `stopCapture` after the instruction file
  but before the applicant file, so the model returns no applicant file then.

## Model

| member | source | states |
|---|---|---|
| Executor.PrimitiveFor | executor.py:36-50 | `click` and `submit` call `click` on the selector. `fill`, `select` and `upload` pass `text` as the second argument. Every other action, `done` included, has no primitive; the result is `Some` exactly for the five known actions. |
| Executor.AttemptsMade | executor.py:32-52 | The number of primitive calls the retry loop makes lies between 1 and 3 (`MaxAttempts`). |
| Executor.AttemptsMadeFacts | executor.py:32-56 | Every call before the last raised. The last call returned exactly when some call among the three attempts returns. |
| Executor.ExecuteOutcomeFacts | executor.py:23-56 | `done` gives `True` with no call, whatever the selector. An empty selector on any other action gives `False` with no call. An unknown action gives `False` with no call and no retry. Otherwise at most 3 calls of the same primitive are made. Every call but the last raised, and success means the last call returned. Failure means exactly 3 calls. Success happens iff one of the first 3 attempts succeeds. |
| Executor.RetryStops | executor.py:32-52 | The first call that does not raise ends the loop with `True`, after `k + 1` calls. |
| Executor.RetryExhausts | executor.py:32-56 | Three raising calls end the loop with `False`, after exactly 3 calls. |
| Executor.RetryUnknown | executor.py:48-50 | An action with no branch returns `False` with no call. |
| Executor.RetryDone | executor.py:46-52 | `done` returns `True` with no call. |
| Executor.Browser.Act | browser_controller.py:34-47 | An action primitive is logged, raises exactly when its fault-script entry says so, and uses up one entry. |
| Executor.InstructionExecutor.Attempt | executor.py:35-50 | One pass of the `if`/`elif` dispatch: a known primitive makes exactly one call and raises as scripted; `done` and unknown actions make none; `known` is false exactly for an action with no branch. |
| Executor.InstructionExecutor.Retry | executor.py:32-56 | The loop's result, its calls and the fault script it consumes are those of `RetryOutcome`. |
| Executor.InstructionExecutor.Execute | executor.py:11-56 | The result, the calls appended to the browser log, and the fault script consumed are exactly those of `ExecuteOutcome`. The page is unchanged. |
| Agent.LeadingSpaces | llm_agent.py:13 | Counts exactly the leading whitespace characters. |
| Agent.TrailingStart | llm_agent.py:13 | Marks exactly where the trailing whitespace begins. |
| Agent.Strip | llm_agent.py:13 | `str.strip()` gives the slice between the leading and the trailing whitespace, and that slice neither starts nor ends with whitespace. |
| Agent.StripIdempotent | llm_agent.py:13 | Stripping twice is stripping once. |
| Agent.StripTrimmed | llm_agent.py:13 | A string with no whitespace at either end is its own strip. |
| Agent.ExtractJsonBlock | llm_agent.py:10-13 | With no fenced block, the result is the stripped input. |
| Agent.FencedBlockUnchanged | llm_agent.py:12-13 | A matched group, which runs from `{` to `}`, comes back unchanged. |
| Agent.Flatten | llm_agent.py:171-182 | The flattened mapping has distinct keys. |
| Agent.FlattenKeys | llm_agent.py:171-182 | The keys of `_flatten` are exactly the leaf keys: one per entry that is not a mapping, plus those of nested mappings under the joined prefix. An empty nested mapping gives none. |
| Agent.FlattenIsFlat | llm_agent.py:171-182 | No value of the result is a mapping or a list. |
| Agent.FlattenOfFlat | llm_agent.py:171-182 | A mapping with no mapping or list values flattens to itself. |
| Agent.FlattenNested | llm_agent.py:175-177 | A nested mapping under `a` contributes its own flattening with prefix `parent_a`. |
| Agent.FlattenNestedExample | llm_agent.py:175-177 | `{"a": {"b": x}}` flattens to `{"a_b": x}`. |
| Agent.FlattenListStep | llm_agent.py:178-179 | Wherever it stands in the mapping, a list value under `k` is assigned under the joined key as the `", "`-join of its elements' `str` forms. |
| Agent.FlattenList | llm_agent.py:178-179 | A mapping holding only a list flattens to that one string entry. |
| Agent.OkPrefix | llm_agent.py:166-168 | The elements before the first failing one all go through, and the element at that index fails. |
| Agent.InterpolateAll | llm_agent.py:166-169 | The loop succeeds iff every element goes through. It then keeps the length and order, with each element rewritten by `InterpolateOne`. Otherwise it reports the first element's exception. |
| Agent.InterpolateOnlyText | llm_agent.py:161-168 | `text` is the only field that can change, and the keys stay the same. An instruction without `text`, or whose `text` is not a `$`-string, is unchanged. |
| Agent.InterpolateReplaces | llm_agent.py:162-163 | `"$name"` becomes the flattened value of `name` when there is one. Otherwise it stays literal. |
| Agent.NoApplicantDataNoReplacement | llm_agent.py:159-169 | With no `applicant_data` in the context, every instruction mapping comes back unchanged. |
| Agent.LoginAndSearchKeepPlaceholders | main.py:100-104 | The login and search contexts that main.py builds have no `applicant_data`. |
| Agent.Interpolate | llm_agent.py:157-169 | The in-place loop leaves the list that `InterpolateWith` gives. On an exception, the elements from the failing one on are untouched and those before it are rewritten. |
| Agent.FormatEntries | llm_agent.py:187-194 | There is one rendering per entry. |
| Agent.FormatDictHeader | llm_agent.py:186 | The rendering opens with the name at its indentation. |
| Agent.FormatEntriesIndented | llm_agent.py:186-195 | Every entry begins one level deeper than its header, with its key and a colon. |
| Agent.FormatEntryHead | llm_agent.py:188-194 | An entry's first line begins with its key and a colon, whatever its kind of value. |
| Agent.FormatEmpty | llm_agent.py:185-195 | An empty mapping renders as its header alone. |
| Agent.PhaseDispatch | llm_agent.py:198-213 | A context without `phase` raises `KeyError`. An unknown phase gives no context text. A known phase gives text or raises. |
| Agent.Truncated | llm_agent.py:217 | The page text in a prompt is a prefix of at most 5000 characters, and the whole page when it fits. |
| Agent.PromptIgnoresTail | llm_agent.py:217 | Characters past the first 5000 make no difference to the prompt. |
| Agent.PromptBound | llm_agent.py:215-218 | Bounds the prompt's length, and gives the prompt exactly for a page that fits. |
| Agent.Normalise | llm_agent.py:236-243 | A decoded object gives a one-element list, a decoded list is kept, and anything else or a decode error gives `None`. |
| Agent.AskShapes | llm_agent.py:233-248 | With a known phase and a supported provider: an object reply gives one instruction, a list reply as many as it has elements, and any other reply none. |
| Agent.AskUnknownPhase | llm_agent.py:211-213 | An unknown phase gives `None` whatever the provider and the reply. |
| Agent.LlmAgent.constructor | llm_agent.py:18-23 | The conversation starts as the system prompt alone. |
| Agent.LlmAgent.Ask | llm_agent.py:197-248 | The result is `AskOutcome`. `messages` is reset to the system prompt plus the current prompt exactly when the phase is known. |
| Orchestrator.EventOf | main.py:110-117 | The event for an instruction: an escalation with its `text` and the phase tag for `intervene`, and an execution of it otherwise. |
| Orchestrator.RunBatchGrows | main.py:110-122 | A batch leaves the reply scripts alone and adds at most one event per instruction. |
| Orchestrator.BatchEvents | main.py:110-122 | A batch adds no more events than it has instructions. |
| Orchestrator.BatchUnfold | main.py:110-122 | A batch's events are its first instruction's event, then, unless that step stopped the batch, the events of the rest. |
| Orchestrator.BatchCorrespondence | main.py:110-114 | The events of a batch belong to a prefix of its instructions, in order, one each. An `intervene` is escalated with its text and phase tag, and anything else is executed. |
| Orchestrator.BatchFailure | main.py:114-117 | Only the last event of a batch can be a failed execution. The batch is marked failed iff it ended on one. |
| Orchestrator.BatchDone | main.py:118-122 | The phase flag ends up set iff it was set already or the batch executed a `done` successfully. |
| Orchestrator.BatchDoneStops | main.py:157-162 | In search and apply, a successful `done` can only be the last event of its batch. |
| Orchestrator.BatchEarlyEnd | main.py:110-122 | A batch ends before its last instruction only on a failed execution, or, outside login, on a successful `done`. |
| Orchestrator.BatchStaysInPhase | main.py:110-112 | No `intervene` reaches the executor. A batch navigates nowhere, does not close the browser, and any ask it records is of its own phase. |
| Orchestrator.AskTurn | main.py:96-104 | One turn fetches the page, asks only that phase's source and takes its next reply. |
| Orchestrator.AskTurnWellFormed | main.py:96-104 | Taking a turn keeps the scripts well formed. |
| Orchestrator.PhaseLoop | main.py:96-124 | A login or search loop only extends the trace. Only its own phase's source is asked, nothing is navigated or closed, and no `intervene` is executed. |
| Orchestrator.PhaseLoopCompletion | main.py:106-124 | A login or search loop completes iff some batch executed a `done` successfully. |
| Orchestrator.ApplyLoop | main.py:173-216 | The application counter never decreases, never passes `APPLICATIONS_PER_SITE_LIMIT`, and grows by at most one per reply taken. Only the apply source is asked. |
| Orchestrator.ApplyLoopStopReason | main.py:189-216 | The apply loop's last event is an `ask` of the apply source exactly when the counter is below the limit, so it stopped on that reply. At the limit, its last event is a successful `done`. |
| Orchestrator.RunSite | main.py:89-216 | A site's processing extends the trace and never executes an `intervene`. |
| Orchestrator.SiteEvents | main.py:89-91 | A site's events start with its own navigation. No other navigation and no close follow. |
| Orchestrator.SiteWithoutCredentials | main.py:95-127 | A site absent from the credentials gets its navigation and nothing else. |
| Orchestrator.LoginFailureSkipsLaterPhases | main.py:129-131 | A login that does not complete leaves the search and apply sources untouched. |
| Orchestrator.SearchFailureSkipsApply | main.py:166-168 | A search that does not complete leaves the apply source untouched. |
| Orchestrator.RunSites | main.py:89-216 | Sites are navigated exactly in list order, with no close in between. |
| Orchestrator.Run | main.py:89-219 | The sites are navigated in list order. The browser is closed exactly once, as the last event. No `intervene` is ever executed. |
| Orchestrator.Session.Goto | main.py:90-91 | Navigation is recorded and nothing else changes. |
| Orchestrator.Session.RequestManualIntervention | main.py:43-50 | An escalation is recorded with its message and phase tag, and nothing else changes. |
| Orchestrator.Session.Close | main.py:219 | Closing is recorded and nothing else changes. |
| Orchestrator.Session.Ask | main.py:97-104 | Fetching the page and asking the agent is one `AskTurn`. |
| Orchestrator.Session.Execute | main.py:114 | `execute` returns the next scripted outcome and records the execution. |
| Orchestrator.RunInstruction | main.py:111-122 | One loop body advances the batch exactly as `RunBatch` does. |
| Orchestrator.RunInstructions | main.py:110-122 | The `for instr in instructions` loop ends in the state, with the failure flag and phase flag, that `RunBatch` gives. |
| Orchestrator.PhaseLoopTurn | main.py:96-124 | One turn of a login or search loop, unfolded: stop on an empty reply, leave once the flag is set, otherwise the loop goes on with a shorter script. |
| Orchestrator.RunPhase | main.py:94-124 | The login or search `while True` loop ends where `PhaseLoop` ends, with its completion flag. |
| Orchestrator.ApplyLoopTurn | main.py:173-216 | One turn of the apply loop, unfolded, with the counter step. |
| Orchestrator.RunApply | main.py:171-216 | The apply loop ends where `ApplyLoop` ends, with its count. |
| Orchestrator.RunAllSites | main.py:89-219 | The whole of `main()` after set-up leaves the trace `Run` gives. |
| FlatKeys.FlattenInto | DataCaptureToolChromeExtension/content.js:28-50 | `flattenObject` on the shared accumulator throws exactly when its walk reaches an object with an own `hasOwnProperty` entry (`Shadowed`). Otherwise it leaves exactly the entries of `FlattenObj`. |
| FlatKeys.FieldsInto | DataCaptureToolChromeExtension/content.js:29-47 | The loop over an object's fields throws at the first key when the object has an own `hasOwnProperty`, or when some field's walk throws. Otherwise it leaves the entries of `FlattenFields`. |
| FlatKeys.IndexedInto | DataCaptureToolChromeExtension/content.js:29-47 | The loop over an array's indices throws exactly when some element's walk throws. Otherwise it leaves the entries of `FlattenIndexed`. |
| FlatKeys.CharsInto | DataCaptureToolChromeExtension/content.js:29-47 | The loop over a string's characters, one entry per character (Unicode scalar value). |
| FlatKeys.EntryInto | DataCaptureToolChromeExtension/content.js:32-47 | The loop body for one entry, including the `forEach` over an array value, throws exactly when the value's walk throws. Otherwise it leaves the entries of `FlattenEntry`. |
| FlatKeys.EachInto | DataCaptureToolChromeExtension/content.js:37-44 | The `forEach` over an array value stores a scalar element under `key->>index` and walks any other one there. It throws exactly when some element's walk throws. Otherwise it leaves the entries of `FlattenEach`. |
| FlatKeys.FlattenObject | DataCaptureToolChromeExtension/content.js:28-50 | `flattenObject(obj)` with a fresh accumulator returns nothing exactly when it throws (`Shadowed(obj)`), and otherwise `Flatten(obj)`. |
| FlatKeys.FlattenThrowsBelow | DataCaptureToolChromeExtension/content.js:29-30 | `{"a": {"hasOwnProperty": 1}}` makes `flattenObject` throw. |
| FlatKeys.RestorableNotShadowed | DataCaptureToolChromeExtension/content.js:29-30 | `flattenObject` does not throw on a restorable value (`FlatKeys.Restorable`: among other conditions, no key anywhere is `hasOwnProperty`). |
| FlatKeys.FlattenStoresLeaves | DataCaptureToolChromeExtension/content.js:28-50 | The walk, for an object with non-empty keys, stores every leaf under its keys and indices joined with `->>`, in depth-first order, with the leaf value unchanged (null included). A later equal key overwrites an earlier one. `flattenObject` returns these entries when it does not throw. |
| FlatKeys.EntryLeaves | DataCaptureToolChromeExtension/content.js:32-47 | One entry contributes the leaves of its value under the entry's key. |
| FlatKeys.EachLeaves | DataCaptureToolChromeExtension/content.js:38-44 | An array value's elements contribute their leaves under `key->>index`. |
| FlatKeys.FlattenIsKeyedLeaves | DataCaptureToolChromeExtension/content.js:28-50 | For a restorable object, the flat record is exactly its leaves keyed by their joined paths, with distinct keys. |
| FlatKeys.FindSep | DataCaptureToolChromeExtension/content.js:199 | Finds the first occurrence of `->>` at or after `from`, or reports that there is none. |
| FlatKeys.Split | DataCaptureToolChromeExtension/content.js:199 | `split` gives at least one piece. |
| FlatKeys.SplitJoin | DataCaptureToolChromeExtension/content.js:199 | Splitting a `->>`-join of segments without `->>` gives back the segments. |
| FlatKeys.SetIndex | DataCaptureToolChromeExtension/content.js:211 | An array assignment stores at the index, keeps the other elements and fills holes with `null`. |
| FlatKeys.ReadAssign | DataCaptureToolChromeExtension/content.js:211 | After `current[realKey] = v`, reading `realKey` gives `v`. |
| FlatKeys.AssignTwice | DataCaptureToolChromeExtension/content.js:211 | A second assignment to the same key overwrites the first. |
| FlatKeys.SetPathLast | DataCaptureToolChromeExtension/content.js:210-211 | The last segment of a container receives the value, without throwing. |
| FlatKeys.SetPathFresh | DataCaptureToolChromeExtension/content.js:213-217 | A walk below a newly created container never throws. |
| FlatKeys.SetPathCreates | DataCaptureToolChromeExtension/content.js:213-216 | A missing or false intermediate entry becomes an array iff the next segment is all digits, and an object otherwise. The walk does not throw. |
| FlatKeys.SetPathReuses | DataCaptureToolChromeExtension/content.js:213-217 | An existing container is reused, and the rest of the path is stored inside it. The walk throws exactly when the walk inside it throws. |
| FlatKeys.SetPathElsewhere | DataCaptureToolChromeExtension/content.js:202-219 | When the walk does not throw, no other property of the object changes. |
| FlatKeys.SetPathScalarLast | DataCaptureToolChromeExtension/content.js:210-211 | At the last segment, an assignment to a property of a string, number or boolean is ignored. |
| FlatKeys.SetPathPastPrimitive | DataCaptureToolChromeExtension/content.js:212-217 | With two or more segments left, a walk below a number or boolean, or below a string at a segment that is not one of its indices (counted in Unicode scalar values), throws `TypeError`. |
| FlatKeys.SetPathThroughString | DataCaptureToolChromeExtension/content.js:202-219 | A key whose walk reaches a non-empty string with two non-index segments still to go throws. |
| FlatKeys.UnflattenRunsPastString | DataCaptureToolChromeExtension/content.js:195-223 | `{"a": "x", "a->>b->>c": "y"}` makes `unflattenObject` throw. |
| FlatKeys.UnflattenObject | DataCaptureToolChromeExtension/content.js:195-223 | The loop returns `Unflatten(flat)`: the rebuilt object, or nothing when a key's walk throws. |
| FlatKeys.UnflattenKeyed | DataCaptureToolChromeExtension/content.js:195-223 | Unflattening keyed leaves stores the leaves one after the other along their paths. |
| FlatKeys.Insert | DataCaptureToolChromeExtension/content.js:202-219 | Storing the leaves of a restorable value under a fresh key rebuilds that value there, without throwing. |
| FlatKeys.RoundTrip | DataCaptureToolChromeExtension/content.js:28-50 | `flattenObject(o)` does not throw, and `unflattenObject(flattenObject(o))` does not throw and equals `o`. This holds when `o` is an object with distinct keys in each object and no empty top-level key, no key anywhere contains `->>`, is all digits, or names a property inherited from `Object.prototype`, and no object or array below the top is empty. |
| Text.ParseNatToString | DataCaptureToolChromeExtension/content.js:207-208 | An array index survives the trip through a flattened key: `parseInt` of its decimal form gives it back. |
| Reverse.ReverseStep | DataCaptureToolChromeExtension/content.js:74-85 | One step of the loop keeps every bound value an array and the keys distinct. |
| Reverse.ReverseMapGet | DataCaptureToolChromeExtension/content.js:53-85 | Starting from the reset map, a string is bound iff some leaf has it as its value. It is bound to those leaves' `$key` placeholders, in first-seen order, each once. |
| Reverse.ReverseMapKeys | DataCaptureToolChromeExtension/content.js:74-85 | Only string leaves, and all of them, are recorded. |
| Reverse.DedupFacts | DataCaptureToolChromeExtension/content.js:81-83 | The `includes` guard leaves no duplicate and drops no placeholder. |
| Reverse.ReverseMapOfDistinct | DataCaptureToolChromeExtension/content.js:74-85 | For a flat record with distinct keys, each value's list is exactly its leaves' placeholders in order. |
| Reverse.MatchField | DataCaptureToolChromeExtension/content.js:165-168 | A placeholder that matches `^\$(.+)$` is `$` followed by the non-empty captured field. |
| Reverse.MatchPlaceholder | DataCaptureToolChromeExtension/content.js:165-168 | `$key` matches exactly when `key` is non-empty and has no line terminator, and then gives back `key`. |
| Reverse.InvertMap | DataCaptureToolChromeExtension/content.js:160-171 | The nested loops build `Invert(m)`. |
| Reverse.InvertGet | DataCaptureToolChromeExtension/content.js:160-171 | Each field named by a matching placeholder gets the value of the last such placeholder. Placeholders that do not match are skipped. |
| Reverse.InvertReverseMap | DataCaptureToolChromeExtension/content.js:74-85 | Inverting the map built from a flat record gives back every string leaf whose key the pattern recovers, and nothing that disagrees with the record. |
| KeyNames.SanitizeKey | DataCaptureToolChromeExtension/content.js:316-318 | The result holds only lowercase ASCII letters, digits and `_`. |
| KeyNames.SanitizeIdempotent | DataCaptureToolChromeExtension/content.js:316-318 | `sanitizeKey` leaves its own result unchanged. |
| KeyNames.LowerChar | DataCaptureToolChromeExtension/content.js:317 | Lowercasing leaves no ASCII capital, and key characters and white space unchanged. |
| KeyNames.InferKeyName | DataCaptureToolChromeExtension/content.js:303-314 | A label wins and is sanitized. Without one, a given `aria-label` is the name as it is, unsanitized. Without either, a given `placeholder` is sanitized. The result is key text except in the `aria-label` case. |
| KeyNames.InferKeyNamePrecedence | DataCaptureToolChromeExtension/content.js:303-313 | Only the first attribute that is given decides the name, in the order label, `aria-label`, `placeholder`. |
| KeyNames.InferKeyNameFallback | DataCaptureToolChromeExtension/content.js:313 | With none of the three, the name is `unknown_field`. |
| Capture.PhaseNames | DataCaptureToolChromeExtension/content.js:55-59 | A phase exports exactly when it loads a file, and under that file's name. |
| Capture.ExportAgreesWithFile | DataCaptureToolChromeExtension/content.js:52-193 | Without typed inputs, the inverted flat record (the input of `unflattenObject`) holds each recoverable string value of the loaded file's flattening under its key, and nothing that disagrees with it. |
| Capture.ShadowedFileExportsEmpty | DataCaptureToolChromeExtension/content.js:52-93 | A file on which `flattenObject` throws leaves the reverse map empty, and a capture without typed inputs then exports `{}` under the phase's file name. |
| Capture.PutSlot | DataCaptureToolChromeExtension/content.js:423 | `dedupedFills[id] = act` overwrites an existing id in place and appends a new one. |
| Capture.LastFillIsLast | DataCaptureToolChromeExtension/content.js:421-427 | `LastFill` is a fill of the element after which no other fill of it comes. |
| Capture.FirstFillIsFirst | DataCaptureToolChromeExtension/content.js:421-427 | `FirstFill` is the position of the element's first fill. |
| Capture.SlotsFacts | DataCaptureToolChromeExtension/content.js:418-429 | The deduplicated fills hold one entry per filled element, with its last fill, ordered by each element's first fill. |
| Capture.KeptOnlyOthers | DataCaptureToolChromeExtension/content.js:421-427 | `finalActions` keeps exactly the non-fill actions. |
| Capture.PageActionsEmpty | DataCaptureToolChromeExtension/content.js:429-435 | A page's action list is empty exactly when nothing was recorded. |
| Capture.PageActionsIdempotent | DataCaptureToolChromeExtension/content.js:418-429 | Deduplicating a page's actions a second time changes nothing. |
| Capture.CaptureSession.constructor | DataCaptureToolChromeExtension/content.js:1-26 | The capture state starts idle and unpaused, with no actions, pages, interactables, reverse map or phase. |
| Capture.CaptureSession.BuildReverseMap | DataCaptureToolChromeExtension/content.js:52-93 | The map is reset, then filled from the phase's file exactly as `ReverseMap` of its flattening. It stays empty for an unknown phase, a missing file, or a file on which `flattenObject` throws. Nothing else changes. |
| Capture.CaptureSession.StartCapture | DataCaptureToolChromeExtension/content.js:95-119 | Sets the phase and builds its map. Starts capturing, unpaused, with no actions and no pages. |
| Capture.CaptureSession.LogClick | DataCaptureToolChromeExtension/content.js:227-236 | A click is recorded iff capturing, not paused and the target has a uid. |
| Capture.CaptureSession.LogInput | DataCaptureToolChromeExtension/content.js:238-261 | Gated like a click. A known value records its placeholder list. An unknown value records an invented `$name` and stores it back as a plain string. |
| Capture.CaptureSession.PushCurrentPageCapture | DataCaptureToolChromeExtension/content.js:415-446 | With interactables and actions, one page record is appended, with the deduplicated actions, and both lists are emptied. Otherwise nothing changes. |
| Capture.CaptureSession.Pause | DataCaptureToolChromeExtension/content.js:623-635 | Pauses and records an `intervene` action. It then captures the page when there are interactables; otherwise the action stays pending. |
| Capture.CaptureSession.Resume | DataCaptureToolChromeExtension/content.js:637-642 | Unpauses and changes nothing else. |
| Capture.CaptureSession.StopCapture | DataCaptureToolChromeExtension/content.js:121-193 | Does nothing when not capturing. Otherwise it pushes the current page, which empties the actions and interactables when both were non-empty and leaves them alone otherwise. It returns all pages. It returns the phase's applicant file rebuilt from the inverted reverse map, or none when the phase is unknown or `unflattenObject` throws. |

## Left out

- `browser_controller.py` is not part of this model beyond its call shapes. The browser
  is an object that logs calls and raises from a fault script. `goto` and `get_dom` never
  raise, and `get_dom` returns a fixed snapshot.
- The model transport (`_ask_ollama`, `_ask_openai`, `_ask_anthropic`) and the
  system-prompt prose. The model's reply text is a parameter of `Ask`. A failed request,
  which the source turns into `""`, is simply that reply text.
- `json.loads` and the code-fence regular expression are parameters: a decoding function
  (`None` for a decode error) and the fence's captured group.
- Json.Json: numbers are integers only. A fractional or exponent number that `json.loads`
  or `JSON.parse` decodes (a GPA such as `3.8`, or `3.0`, which Python keeps as a float and
  prints as `3.0`) is not modelled. The element strings of `_flatten`'s list join and the
  lines of `format_dict` (Agent.PyRepr, Agent.PyStr) are therefore modelled for integers
  and the other kinds of value only.
- Agent.PyRepr: strings inside a list or mapping are always shown in single quotes.
  Python's `repr` switches to double quotes for a string that contains a single quote,
  and escapes special characters.
- Process I/O in main.py: `load_json`, logging, `focus_browser`, `notify_user` and the
  blocking `input()`. An escalation is an event that returns at once.
- Orchestrator.WellFormed: every instruction is assumed to have an `action` key, and an
  `intervene` a `text` key. main.py raises `KeyError` otherwise; that crash is not
  modelled.
- Orchestrator.Run: a call to `ask` that raises is not modelled, and neither is a reply
  element that is not a mapping. main.py calls `ask` without a `try`, so any such exception
  ends the run: an unsupported provider; a number or `null` element (`"text" in instr`
  fails in `_interpolate`); a missing context key; a string element, which passes
  `_interpolate` and then fails at `instr["action"]`. A reply here is either nothing or a
  list of mappings. Agent.AskOutcome keeps these cases as `Raised`, but nothing connects
  that to the phase loops.
- Orchestrator.PhaseLoop, Orchestrator.ApplyLoop: runs that never end are not modelled.
  Every reply script is finite, so each loop ends once its script is used up. main.py's
  `while True` loops ask again for as long as the model keeps answering without a
  successful `done`.
- `background.js` and `popup.js`: Chrome messaging and script injection only.
- The DOM, timers and downloads in content.js:
  - the live DOM: `getDomPath`, `isElementInteractable`, `isVisible`, `getLabelText`,
    `getOptions`, `getDataAttributes` and `extractVisibleInteractablesAndBuildUidMapping`.
    The uid an element maps to, and its label and attributes, are parameters, and so is
    the list of visible interactables.
  - `logScroll`, the scroll listeners, `debounce` and `throttle`.
  - the `MutationObserver`, whose callback never reports a navigation.
  - the toasts and the manual-control buttons.
  - the Blob downloads and the `Date.now()` file name. `stopCapture` returns the two files
    instead.
  - the `fetch` in `buildReverseMap`: the bundled files are a map from file name to
    decoded content, and a missing name is a failed load.
- JavaScript key order: objects are modelled as insertion-ordered, but JavaScript
  enumerates integer-like keys first, in numeric order.
- Capture.CaptureSession.BuildReverseMap, Reverse.ReverseMap, Capture.CaptureSession.LogInput:
  a string leaf or a typed value that names an inherited member of `Object.prototype`
  (such as `constructor` or `toString`) is treated as an ordinary missing key. In the code
  `reverseValueToPlaceholder[value]` then reads the inherited function: in
  `buildReverseMap` its `.includes` throws inside the `try`, which ends the loop, so every
  later leaf is missing from the map; in `logInput` the inherited function is recorded as
  the fill value.
- FlatKeys.FlattenObject, FlatKeys.FlattenInto, FlatKeys.FlattenStoresLeaves: an entry
  stored under the key `__proto__` is kept. In the code the assignment
  `result["__proto__"] = value` goes to the inherited `__proto__` setter instead: a string,
  number or boolean is dropped, and `null` replaces the accumulator's prototype, after
  which a later `__proto__` write would be kept. Only a top-level entry `__proto__`, or one
  below a top-level key `""`, is stored under that key; every deeper key contains `->>`.
- FlatKeys.FlattenInto, FlatKeys.FieldsInto, FlatKeys.IndexedInto, FlatKeys.EntryInto, FlatKeys.EachInto: when
  the walk throws, the entries written before the throw are not stated. The only caller,
  `buildReverseMap`, discards the accumulator then.
- FlatKeys.Read, FlatKeys.SetPath: only own properties are read. A segment that names an
  inherited member (`toString`, `constructor`, `__proto__` and the rest of
  `Object.prototype`, or `length` and the methods of arrays and strings) is treated as an
  ordinary missing property. In the code the walk steps into the inherited member and
  the value is lost, or `__proto__` replaces the prototype. The round trip excludes these
  names (`FlatKeys.InheritedName`); for other inputs the model does not capture it.
- FlatKeys.Assign: a named property on an array is dropped; it is not part of the array's
  JSON form. A later key walking through the same named property therefore starts again
  from a fresh container, where the code reuses the one it stored. An index past what
  `int` can address is not modelled beyond "unbounded".
- FlatKeys.ObjectKey, FlatKeys.Read, FlatKeys.Assign, Text.ParseDecimal: an all-digit
  segment's value is exact. The code's `parseInt(key, 10)` returns a double, so a segment
  past 2^53 is rounded before it becomes a property name or an index (`12345678901234567`
  is stored under `12345678901234568`), and from 1e21 on the property name is written in
  exponent form.
- FlatKeys.Read, FlatKeys.FlattenChars, FlatKeys.CharsInto, FlatKeys.SetPathPastPrimitive:
  a string is a sequence of Unicode scalar values, and its indices count those. JavaScript
  indexes and `for…in`-enumerates a string by UTF-16 code unit, so a character outside the
  Basic Multilingual Plane is one index here and two in the code. `flattenObject` stores
  such a string's two surrogate halves as separate entries where the model stores one
  character; and a walk below `"😀"` at segment `"1"` reads `"\uDE00"` in the code and goes
  on, where the model reads nothing and throws.
- KeyNames.LowerChar: lowercasing is modelled only as far as its result can survive
  `sanitizeKey` (ASCII capitals, U+0130 and the Kelvin sign). Every other character is
  kept as it is, which `sanitizeKey` then removes just the same.
- Reverse.Visited: non-string elements of a reverse-map array are skipped, and a
  reverse-map entry that is neither an array nor a string visits nothing. `buildReverseMap`
  and `logInput` never store any such value.
- FlatKeys.UnflattenObject: the walk through the `current` reference is modelled on values.
  Aliasing between containers is not modelled; the code never creates any.
