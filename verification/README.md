# Batch LLM fill for a Lark Base table — Dafny model

This project models the processing core of a Lark Base (Feishu Bitable) plugin. The user picks a
table, one or more input ("user prompt") fields, one or more result fields, a system prompt and an
OpenRouter model. On submit, the plugin walks the table's records one by one:

1. It extracts the plain text of every input cell. A cell can hold a plain string, a JSON-encoded
   rich-text span list, an already decoded span list, some other object, or a scalar.
2. It concatenates the non-blank texts, in field order, into the user prompt.
3. It picks the result fields that are still empty or whitespace-only.
4. It asks the chat-completion API once per such field. A failed call becomes an `Error: …` text.
5. It writes all of that record's answers with a single `setRecord`.
6. It updates a percentage progress indicator after every record.

The model consists of pure functions over immutable datatypes, one module per component:

| file | module | what it holds |
|---|---|---|
| wrappers.dfy | `Wrappers` | `Option`, `Result` (a `Failure` is a thrown exception) |
| text.dfy | `Text` | JavaScript `trim` whitespace, `Trim`, `join('')` |
| cells.dfy | `Cells` | cell values, span lists, the text extractor |
| rows.dfy | `Rows` | form values, the submit guard, prompt assembly, result-field selection |
| provider.dfy | `Provider` | request construction, reply interpretation, error placeholder |
| progress.dfy | `Progress` | `Math.round(done / total * 100)` on integers |
| pipeline.dfy | `Pipeline` | per-record processing, the record loop, the run report, lemmas |

The outside world enters as parameters, bundled in `Pipeline.Env`:
- `JSON.parse` is a function `string -> Option<seq<Span>>`.
- The network is a function from each provider call to its HTTP outcome. A call is identified by
  record, field and request, so different fields of one record may get different answers.
- The host's write is a function saying whether it accepts or rejects an update.
- `window.location.href` is a string.

The records are an input, given as either the table's records or the error that reading them threw.
A run produces a `Report`, which holds:
- how the run ended (rejected by the guard, completed, or failed);
- each visited record's outcome, provider calls and writes;
- every value the progress indicator was set to.

Facts about the code that shape the model:
- The loop is strictly sequential. Records are processed one at a time (src/App.tsx:151), and the
  fields of a record are awaited one by one (src/App.tsx:226-241).
- The user prompt is built only from the configured input fields, concatenated in order.
- The only provider is OpenRouter: the chat request always goes to its URL (src/App.tsx:286), and the provider list has only that entry (src/App.tsx:10).
- A temperature or top-p of `0` is left out of the request, as the comment at src/App.tsx:278 says.

## Model

| member | source | states |
|---|---|---|
| Text.Trim | src/App.tsx:192-194 | `trim()` returns the slice of the text between a whitespace-only prefix and a whitespace-only suffix; the slice starts and ends with a non-whitespace character, and it is empty exactly when the text is all JavaScript whitespace |
| Text.JoinAppend | src/App.tsx:205 | `join('')` concatenates in order with no separator: joining `a + b` is joining `a` followed by joining `b` |
| Text.JoinNotBlank | src/App.tsx:197-205 | joining a non-empty list of non-blank texts never gives a blank prompt, so skipping on an empty prompt list is the same as skipping on a blank concatenation |
| Cells.JoinItems | src/App.tsx:169 | mapping each span to its text (or '' when missing) and joining succeeds exactly when no element is `null`, and then yields the in-order concatenation of the texts (missing text counts as empty); a `null` element raises a TypeError |
| Cells.ExtractText | src/App.tsx:159-190 | a string cell never raises; a string not both starting with `[` and ending with `]` is returned unchanged; an array-looking string yields its spans' concatenated text only if it parses to a non-empty array whose first element has a truthy `text` and no element is null, and otherwise the raw string; a decoded array yields its concatenated text and raises only on a null element; an object yields `text`, else `content`, else its JSON dump; any other value yields its string form |
| Cells.EncodedMatchesDecoded | src/App.tsx:164-184 | a rich-text span list extracts to the same text whether the cell holds it JSON-encoded as a string or already decoded |
| Rows.Contribution | src/App.tsx:156-194 | a falsy cell contributes nothing; otherwise the cell contributes its untrimmed extracted text exactly when that text is not blank, and raises exactly when extraction raises |
| Rows.PromptTexts | src/App.tsx:153-195 | the prompt list fails exactly when some configured input cell's extraction raises; otherwise it holds at most one text per input field and none of its texts is blank |
| Rows.PromptTextsAppend | src/App.tsx:155-195 | the prompt list of fields `a + b` is that of `a` followed by that of `b`, so texts keep the configured field order, and a raise in an earlier field wins |
| Rows.PromptTextsSingle | src/App.tsx:155-195 | the prompt list of a single field is that field's contribution; with the append lemma this fixes the list for any field order |
| Rows.FieldsToUpdate | src/App.tsx:208-215 | a field is selected exactly when it is a configured result field whose cell is falsy or a whitespace-only string; a string result cell is selected exactly when it is blank; an array, object or other truthy value is never selected, even when its text is blank |
| Rows.FieldsToUpdateAppend | src/App.tsx:208-215 | selection over `a + b` is selection over `a` followed by selection over `b`, so the configured order is kept |
| Rows.NothingToFill | src/App.tsx:217-222 | the list of fields to update is empty exactly when no configured result field needs filling |
| Provider.SamplingParam | src/App.tsx:278-284 | a sampling parameter is sent exactly when it is defined and non-zero, and then unchanged |
| Provider.BuildRequest | src/App.tsx:270-295 | the request goes to the OpenRouter chat-completions URL with a bearer token; its body carries the model and exactly the messages `[system: systemPrompt, user: userPrompt]`; `temperature` and `top_p` are present exactly when defined and non-zero |
| Provider.Interpret | src/App.tsx:297-302 | a call succeeds exactly when the response is ok and its body decodes; a non-ok status fails with `Error: API call failed: <statusText>`; a missing or empty first-choice content yields `No response`, so a successful answer is never empty |
| Provider.Render | src/App.tsx:236-239 | a successful call stores its answer; a failed one stores `Error: ` followed by the error's string form, which is never blank |
| Provider.RenderedBlankOnlyFromBlankContent | src/App.tsx:297-302 | the text stored for a field is blank only when the provider answered ok with whitespace-only content |
| Progress.Percent | src/App.tsx:247-248 | the progress value is `100 * done / total` rounded to the nearest integer with halves rounded up, and at most 100 while `done <= total` |
| Progress.PercentMonotone | src/App.tsx:247-248 | processing more records never lowers the progress value |
| Progress.PercentEnds | src/App.tsx:142-149 | no record processed is 0 %, every record processed is exactly 100 % |
| Pipeline.Fill | src/App.tsx:224-241 | after the awaited field loop every field to update has an entry, whether its call succeeded or failed, holding that field's own call's answer or error placeholder |
| Pipeline.Classify | src/App.tsx:153-222 | a record raises exactly when its prompt assembly raises; it is skipped for lack of prompt exactly when the prompt list is empty, and as already filled exactly when it has prompt text but no empty result field; otherwise its work is the joined prompt, which is never blank, and the non-empty list of fields to update |
| Pipeline.Dispatch | src/App.tsx:224-245 | a record with work gets one call per field to update, in order, and exactly one write whose keys are those fields, each holding its own call's answer or placeholder; it aborts only when the host rejects that write |
| Pipeline.ProcessRecord | src/App.tsx:151-249 | a record is skipped with no call and no write exactly when its prompt list is empty, or when it has prompt text but no empty result field; it gets at most one write, and one exactly when calls were made; the write's keys are exactly the fields to update; every written field holds its own call's answer or placeholder; a record aborts only when an extraction raises or the host rejects the write, never because of a provider failure |
| Pipeline.FailedCallWritesPlaceholder | src/App.tsx:226-244 | a failed call for one field stores `Error: ` plus the error in that field, and every other field of the record is still asked and written |
| Pipeline.Sweep | src/App.tsx:148-249 | the loop visits a prefix of the records in order; it runs to the end exactly when no record aborts, an abort ends it at that record, and every finished record (skipped or written) sets the progress to the rounded share processed so far |
| Pipeline.FirstPage | src/App.tsx:146 | only the first page of at most 5000 records is read, as a prefix of the table |
| Pipeline.Run | src/App.tsx:135-259 | a submission is rejected with no effect exactly when the table, input fields, API key or system prompt is missing; otherwise the progress is set to 0 first and reset to 0 last; a failure to read the records fails the run with no record visited |
| Pipeline.RunVisitsInOrder | src/App.tsx:144-252 | a run visits the first page's records in order, each with the result it has on its own, and completes exactly when none aborts; a failed run's last visited record aborted with the run's cause |
| Pipeline.RunProgressValues | src/App.tsx:148-249 | between its two resets a run sets the progress once per finished record, to `round(k * 100 / total)` after the k-th, and once per record of the page when it completes |
| Pipeline.TrackedProgress | src/App.tsx:148-248 | progress values that follow the processed count never decrease, stay within 100, and end at 100 once every record is counted |
| Pipeline.RunProgress | src/App.tsx:141-258 | progress starts at 0, never decreases and stays within 100 while records are processed, is 100 after the last record of a completed non-empty run, and is reset to 0 at the end of every run, successful or failed |
| Pipeline.RunNeverOverwrites | src/App.tsx:207-245 | every write targets its own record, at most once, and only configured result fields that were empty when read; a result cell with non-blank text is never written |
| Pipeline.RunFailureCause | src/App.tsx:224-254 | a run fails only when reading the records fails, an input cell's extraction raises, or the host rejects a write; a provider failure never stops the run |
| Pipeline.Apply | src/App.tsx:244 | after a write lands, every written field holds the written text and every other cell is unchanged |
| Pipeline.RefillIsNoop | src/App.tsx:207-245 | once a record's write has landed with non-blank answers, processing the record again makes no call and no write |
| Pipeline.RerunIsNoop | src/App.tsx:135-259 | submitting again after a completed run on a table of at most one page makes no provider call and no write, and completes, provided no blank answer was written |

## Left out

- src/components/LoadApp/index.tsx only renders its children and has no logic.
- React rendering, hooks, state setters, the form widgets and their validation rules, the `setTimeout` settle delay, the `isProcessing` flag and the Toast notices are user-interface plumbing. Only the progress values are modelled.
- Table and field listing, model-catalog loading and price formatting are left out. They are network reads, and the price formatting is floating-point work.
- `localStorage` persistence of the provider and the API key is external key-value plumbing.
- The HTTP transport itself is not modelled. `fetch` and `response.json()` are summarised by an `HttpReply` chosen by the environment.
- `JSON.parse` and `JSON.stringify` are not modelled as algorithms. Parsing is a function parameter, and an object cell carries its serialised form.
- Progress.Percent: uses exact integer rounding. The source divides and multiplies in floating point, which can round an exact half down. For example, 29 of 200 records shows 14 in the source instead of 15.
- Cells.ExtractText: treats an object's `text` and `content` properties as strings. In the source, a truthy non-string `text` or `content` would be returned as is, and the following `trim()` call would throw.
- Cells.ExtractText: a span whose `text` is a truthy non-string with an empty string form, such as `[]`, is encoded as having empty text. The source accepts such a first span at src/App.tsx:167 and returns the joined text, while the model returns the raw string.
- Pipeline.Apply: assumes a written text is read back as a plain string cell. The host may return text cells as rich-text span arrays, which src/App.tsx:168 and 182-184 expect. With that read-back, any non-null written cell is truthy and is never refilled. `RefillIsNoop` and `RerunIsNoop` need their "no blank answer" proviso only because of the string read-back.
- Every `fetch`, `response.json()` and `setRecord` is assumed to settle. The source sets no timeout, so a call that never settles would stall the run with the progress frozen. The model has no such outcome.
- Pipeline.Fill: assumes an answer depends only on its record, field and request. If a result field were configured twice, the model gives both calls the same answer. In the source the second answer overwrites the first.
- Pipeline.FirstPage: assumes `getRecords({ pageSize: 5000 })` returns the first 5000 records in table order. The page token the host returns for the rest is never used by the source.
- Error texts of runtime exceptions are written with V8's wording, for example `TypeError: Cannot read properties of null (reading 'text')`. Other engines word them differently.
