# Splunk Azure Monitor logs forwarder: delivery core in Dafny

The forwarder is an Azure Function that receives EventHub messages carrying Azure Monitor
logs, maps every log record to a Splunk event, and sends the events to a Splunk HTTP Event
Collector (HEC). It exists in two versions: TypeScript
(`azure_monitor_logs_processor_func/index.ts`) and Python
(`azure_monitor_logs_processor_func/__init__.py`). This project models the delivery core
of both versions:

- the greedy batcher, which packs serialized events into payloads of bounded size without
  splitting or reordering events;
- the retry policy of the TypeScript HEC client: which failures are retried, the delay
  before a retry, and at most three requests per payload;
- the per-request timeout, derived from the function's time budget;
- the invocation driver. It pushes the payloads one after another and collects those that
  failed. Then it backs up either the message array the function was given, after an
  error before the first push, or exactly the failed payloads, newline-joined;
- the settings the core reads: HEC URL and token, the batch-size setting with its default,
  and the `azure:<region>:<namespace>:<eventhub>` source string.

Modules:

- `Sequences`: concatenation, join and split of sequences, and the split-after-join round trip.
- `Batching`: the greedy batcher, with a grouping specification that the loop is proved against.
- `Retry`: retry classification and delay, and the attempt loop, proved against a counting function.
- `Timeout`: the timeout expression, over exact reals.
- `Environment`: the settings record, EventHub messages, and the source string.
- `Reconcile`: selecting the failed payloads in order, and the send-failure blob.
- `HecFunction`: the TypeScript driver. Its output bindings are a class whose fields are
  assigned in place.
- `PyFunction`: the Python driver. Its output blobs are a class with `Set`.

Inputs that the core reads from its surroundings are parameters of the model:

- the settings record `Config`, which stands for the environment variables;
- the result of mapping and serializing the events (absent when that throws);
- whether creating the HTTP client succeeded;
- the measured build time;
- the collector's answer to every request, one per request.

## Model

| member | source | states |
|---|---|---|
| `Batching.BatchSerializedEvents` | azure_monitor_logs_processor_func/index.ts:254-273 | The loop returns the payloads of the greedy grouping. Read in order, they are exactly the events in order. There are none exactly when there are no events, and never more payloads than events. |
| `Batching.Batches` | azure_monitor_logs_processor_func/index.ts:254-273 | No events give no payloads; otherwise there is one payload per group of the greedy grouping. |
| `Batching.AddEventAppends` | azure_monitor_logs_processor_func/index.ts:262-268 | One loop step adds the event after everything already grouped, whichever branch it takes. |
| `Batching.GroupsPartition` | azure_monitor_logs_processor_func/index.ts:260-269 | Read group by group, the grouping gives back the input events: none lost, duplicated or reordered. |
| `Batching.GroupsShape` | azure_monitor_logs_processor_func/index.ts:256-269 | Every group after the first is non-empty. With at least one event, the first group is non-empty too and there are at most as many groups as events. |
| `Batching.GroupsGreedy` | azure_monitor_logs_processor_func/index.ts:262-268 | A new group is started only when its first event would have pushed the previous payload over the limit. |
| `Batching.AddEventGreedy` | azure_monitor_logs_processor_func/index.ts:262-268 | One loop step keeps every closed payload closed for the reason that its successor's first event did not fit. |
| `Batching.GroupsHoldEvents` | azure_monitor_logs_processor_func/index.ts:261-268 | Every event placed in a group is one of the input events. |
| `Batching.GroupsBounded` | azure_monitor_logs_processor_func/index.ts:262-268 | With non-empty events, every group is within the limit or holds a single event. |
| `Batching.GroupsWithinLimit` | azure_monitor_logs_processor_func/index.ts:260-268 | From the initial empty payload on, every group is within the limit or holds at most one event. |
| `Batching.AddEventBounded` | azure_monitor_logs_processor_func/index.ts:262-268 | One loop step keeps every group within the limit or at most one event long. |
| `Batching.PayloadsFlatten` | azure_monitor_logs_processor_func/index.ts:265 | Concatenating the payload strings equals concatenating every grouped event. |
| `Batching.BatchesPreserveContent` | azure_monitor_logs_processor_func/index.ts:254-273 | Concatenating the payloads gives the concatenation of the events. |
| `Batching.BatchCount` | azure_monitor_logs_processor_func/index.ts:256-260 | No events give no payloads. Otherwise there are between one payload and one payload per event. |
| `Batching.BatchesWithinLimit` | azure_monitor_logs_processor_func/index.ts:262-268 | With non-empty events, a payload is within the limit unless it is a single event, which is kept whole. |
| `Batching.BatchesGreedy` | azure_monitor_logs_processor_func/index.ts:262-268 | Each payload after the first starts with an event that did not fit into the payload before it. No two neighbouring payloads fit together within the limit. |
| `Batching.OversizedSingleton` | tests/azureFunctionBatching.test.ts:30-34 | A single event becomes one payload, whatever its size. |
| `Batching.FirstEvent` | azure_monitor_logs_processor_func/index.ts:260-265 | The first event always goes into the initially empty payload. |
| `Batching.GroupsSnoc` | azure_monitor_logs_processor_func/index.ts:261-269 | Adding one more event is one more step of the loop. |
| `Batching.PayloadsAddEvent` | azure_monitor_logs_processor_func/index.ts:262-268 | One loop step either extends the last payload string or appends a new one, exactly as the groups change. |
| `Batching.TwoSmallEvents` | tests/azureFunctionBatching.test.ts:36-40 | Two one-character events with limit 3 share one payload. |
| `Batching.ThreeSmallEvents` | tests/azureFunctionBatching.test.ts:42-46 | Three one-character events fit exactly into one payload of size 3. |
| `Batching.OverflowExample` | tests/azureFunctionBatching.test.ts:48-58 | Four one-character events with limit 3 give the payloads "aaa" and "a". |
| `Batching.NineSmallEvents` | tests/azureFunctionBatching.test.ts:60-64 | Nine one-character events with limit 3 give the payloads "aaa", "aaa" and "aaa". |
| `Batching.UniformSmallEvents` | tests/test_batch_events.py:52-58 | `3q + r` one-character events with limit 3 (r from 1 to 3) fill q payloads of three events and leave r events in the last payload. |
| `Batching.UniformGrow` | tests/azureFunctionBatching.test.ts:60-64 | While the last payload holds fewer than three one-character events, the next event joins it. |
| `Batching.UniformClose` | tests/azureFunctionBatching.test.ts:60-64 | A full payload of three one-character events is closed, and the next event starts a new payload. |
| `Batching.UniformStep` | tests/azureFunctionBatching.test.ts:60-64 | One loop step over one-character events: a payload of fewer than three takes the event, a full one is closed. |
| `Batching.RepeatSnoc` | tests/azureFunctionBatching.test.ts:60-64 | One more one-character event is one more step of the loop. |
| `Batching.FlattenRepeatLength` | tests/azureFunctionBatching.test.ts:60-64 | n copies of an event make a payload n times as long. |
| `Batching.BigThenSmall` | tests/azureFunctionBatching.test.ts:66-71 | An oversized first event is closed off before the next event. |
| `Batching.BigThenTwoSmall` | tests/azureFunctionBatching.test.ts:66-71 | Small events after an oversized one share the second payload. |
| `Batching.OversizedFirstExample` | tests/azureFunctionBatching.test.ts:66-71 | A 4-character event followed by three 1-character events, with limit 3, gives "aaaa" and "aaa". |
| `Sequences.FlattenAppend` | azure_monitor_logs_processor_func/index.ts:265 | Concatenation distributes over appending lists of parts. |
| `Sequences.FlattenStartsWithFirst` | azure_monitor_logs_processor_func/index.ts:265-267 | A payload begins with its first event. |
| `Sequences.FlattenAvoids` | azure_monitor_logs_processor_func/index.ts:265 | A character in no part is not in the concatenation. |
| `Sequences.Join` | azure_monitor_logs_processor_func/index.ts:329 | Joining no parts gives the empty text. Otherwise the result starts with the first part, and it is as long as all parts together plus one separator between each pair of neighbours. |
| `Sequences.JoinCons` | azure_monitor_logs_processor_func/__init__.py:178 | Joining a part in front of at least one more part adds the part and one separator before the rest. |
| `Sequences.FlattenCons` | azure_monitor_logs_processor_func/index.ts:265 | A concatenation is its first part followed by the concatenation of the rest. |
| `Sequences.FlattenSnoc` | azure_monitor_logs_processor_func/index.ts:265 | Appending one more part to a concatenation appends its text. |
| `Sequences.Split` | azure_monitor_logs_processor_func/index.ts:329 | Cutting at a separator always yields at least one piece. |
| `Sequences.SplitWithoutSeparator` | azure_monitor_logs_processor_func/index.ts:329 | A text without the separator splits into itself alone. |
| `Sequences.SplitAtFirstSeparator` | azure_monitor_logs_processor_func/index.ts:329 | Splitting `a + sep + b`, with no separator in `a`, gives `a` followed by the pieces of `b`. |
| `Sequences.SplitJoin` | azure_monitor_logs_processor_func/index.ts:329 | Splitting a join of a non-empty list of separator-free parts gives back the parts. |
| `Retry.IsSuccess` | azure_monitor_logs_processor_func/index.ts:299 | An answer is a success exactly when it is a response whose status is 2xx. |
| `Retry.IsRetryableError` | azure_monitor_logs_processor_func/index.ts:105-119 | A retryable answer is never a success. Network errors, ENOTFOUND, and the statuses 408, 429 and 500 to 599 are the retryable answers. |
| `Retry.ClassificationExamples` | tests/azureFunctionHecRetry.test.ts:35-139 | 500, 599, 408, 429, ENOTFOUND and network errors are retryable. 200, 400, 499 and 600 are not. |
| `Retry.GetRetryDelay` | azure_monitor_logs_processor_func/index.ts:121-124 | The delay is zero unless the answer was 429. For 429 it is the library's exponential delay for that retry count. |
| `Retry.Conclude` | azure_monitor_logs_processor_func/index.ts:146-150 | The push is delivered exactly when the last answer is a success. A failure carries the last answer. It counts as exhausted only after all three requests, on a retryable answer. |
| `Retry.Push` | azure_monitor_logs_processor_func/index.ts:146-150 | A failed push ends on one of the first three answers, and that answer is not a success. A delivered push had a successful answer among the first three. |
| `Retry.Tries` | azure_monitor_logs_processor_func/index.ts:29 | Between 1 and retries + 1 requests are sent. Every answer but the last was retryable. The last one is not, unless all retries were used. |
| `Retry.TriesUnique` | azure_monitor_logs_processor_func/index.ts:146-150 | Any request count that stops where the policy stops is the one the policy gives. |
| `Retry.PushToHec` | azure_monitor_logs_processor_func/index.ts:146-150 | The attempt loop sends the requests the policy prescribes and waits the prescribed delay before each retry. Its outcome is Delivered, failed on a terminal answer, or failed after all retries. |
| `Retry.AtMostThreeRequests` | azure_monitor_logs_processor_func/index.ts:29 | Each payload gets at most three requests. |
| `Retry.AllRetryableMeansThreeRequests` | tests/azureFunctionHecRetry.test.ts:35-100 | When every answer is retryable, exactly three requests are sent and the push fails with the last answer. |
| `Retry.TerminalFirstAnswerMeansOneRequest` | tests/azureFunctionHecRetry.test.ts:102-139 | A non-retryable first answer means exactly one request: delivered if 2xx, failed otherwise. |
| `Retry.StopsAtFirstSuccess` | tests/azureFunctionHecRetry.test.ts:141-158 | Retrying stops at the first 2xx answer, and the payload is delivered. |
| `Retry.PushFailsIffFinalNotSuccess` | azure_monitor_logs_processor_func/index.ts:299-301 | A push fails exactly when the final answer is not 2xx. |
| `Timeout.Max` | azure_monitor_logs_processor_func/index.ts:55 | `Math.max` returns one of its arguments and is at least both. |
| `Timeout.SendBudget` | azure_monitor_logs_processor_func/index.ts:25-28 | The time left for sending is 600000 − 120000 − 30000 − 30000 = 420000 ms minus the build time. |
| `Timeout.AttemptsPerPayload` | azure_monitor_logs_processor_func/index.ts:29 | Each payload may need MAX_RETRIES + 1 = 3 requests. |
| `Timeout.DivideByMore` | azure_monitor_logs_processor_func/index.ts:55 | Dividing a non-negative share by a larger payload count gives no more. |
| `Timeout.RequestTimeout` | azure_monitor_logs_processor_func/index.ts:50-55 | The timeout is always positive, for any build time and any payload count including none. It is never more than the per-attempt share of the budget, floored at 1 ms. |
| `Timeout.BudgetShared` | azure_monitor_logs_processor_func/index.ts:25-29 | While the budget lasts, three full-length requests for each payload use exactly the time left. |
| `Timeout.FloorWhenExhausted` | azure_monitor_logs_processor_func/index.ts:50-55 | Once the budget is used up, the timeout is 1 ms divided by the payload count. |
| `Timeout.MorePayloadsShorterTimeout` | azure_monitor_logs_processor_func/index.ts:55 | More payloads never lengthen the timeout. |
| `Timeout.LongerBuildShorterTimeout` | azure_monitor_logs_processor_func/index.ts:45-55 | A longer build never lengthens the timeout. |
| `Timeout.TimeoutCanFallBelowOneMs` | azure_monitor_logs_processor_func/index.ts:50-55 | With the budget used up and two payloads, the timeout is 0.5 ms. The 1 ms floor applies before dividing by the payload count. |
| `Timeout.SinglePayloadExample` | azure_monitor_logs_processor_func/index.ts:25-29 | An instant build and one payload give 140000 ms per request. |
| `Environment.FormatSource` | azure_monitor_logs_processor_func/index.ts:231 | The source is "azure", region, namespace and event hub, joined by colons. |
| `Environment.JoinOfFour` | azure_monitor_logs_processor_func/__init__.py:156 | Joining four parts with ':' is the template `a:b:c:d`. |
| `Environment.SourceFields` | azure_monitor_logs_processor_func/index.ts:223-232 | With colon-free parts, splitting the source at ':' gives back "azure" and the three parts. |
| `HecFunction.BatchSize` | azure_monitor_logs_processor_func/index.ts:164-167 | The limit is never 0. An unset, unparsable or zero setting gives 1000000. Any other number is used as it is. |
| `HecFunction.GetHecParams` | azure_monitor_logs_processor_func/index.ts:80-93 | The result is a success exactly when both URL and token are set, and it carries them. A missing URL is reported first, then a missing token. |
| `HecFunction.GetSource` | azure_monitor_logs_processor_func/index.ts:223-232 | The source is always produced. Each missing part is replaced by its `unknown-…` placeholder. |
| `HecFunction.ReachesDelivery` | azure_monitor_logs_processor_func/index.ts:43-57 | The push loop is reached exactly when mapping succeeded, both HEC URL and token are set, and the client was created. |
| `HecFunction.HecPayloads` | azure_monitor_logs_processor_func/index.ts:161-171 | The payloads concatenate to the serialized events. There are none exactly when there are no events. |
| `HecFunction.Outcome` | azure_monitor_logs_processor_func/index.ts:38-78 | A send-failure blob is written only after the delivery phase was reached, never together with the parse-failure blob, and only when some payload's push failed. |
| `HecFunction.Bindings.constructor` | azure_monitor_logs_processor_func/index.ts:38-40 | Both output blobs start unset. |
| `HecFunction.Bindings.HandleGlobalError` | azure_monitor_logs_processor_func/index.ts:311-316 | The parse-failure blob is set to the message array the function was given. The send-failure blob is untouched. |
| `HecFunction.Bindings.HandlePushErrors` | azure_monitor_logs_processor_func/index.ts:324-331 | Without failures nothing is written. Otherwise the send-failure blob holds the failures joined by newlines. The parse-failure blob is untouched. |
| `HecFunction.AnswersFor` | azure_monitor_logs_processor_func/index.ts:63 | Each payload has an answer for each of its three possible requests. |
| `HecFunction.Failures` | azure_monitor_logs_processor_func/index.ts:61-69 | Payload i is flagged exactly when its push, with retries, is not delivered. |
| `HecFunction.PushPayloads` | azure_monitor_logs_processor_func/index.ts:60-69 | The payload loop returns exactly the payloads whose push failed, in their original order. |
| `HecFunction.Invoke` | azure_monitor_logs_processor_func/index.ts:38-78 | After an error before the first push, only the message array the function was given is stored and there is no timeout. Otherwise the timeout is the budget expression for the payload count. In that case the send blob holds exactly the failed payloads, or is untouched when none failed. From unset bindings, the result is the invocation's specified outcome. |
| `HecFunction.BackupsExclusive` | azure_monitor_logs_processor_func/index.ts:43-75 | The two backups are never both written. The parse-failure backup is written exactly on a pre-push error, and it holds the message array the function was given. |
| `HecFunction.MissingUrlBacksUpInput` | tests/azureFunctionFailure.test.ts:92-110 | A missing HEC URL stores the message array the function was given, and nothing else. |
| `HecFunction.SendFailuresAreTheFailedPayloads` | azure_monitor_logs_processor_func/index.ts:60-72 | After delivery, the send blob is written exactly when some payload failed. For newline-free events it reads back, line by line, as the failed payloads in order. |
| `HecFunction.NoNewlineInPayloads` | azure_monitor_logs_processor_func/index.ts:254-273 | Payloads built from newline-free events contain no newline. |
| `HecFunction.SecondOfTwoFails` | tests/azureFunctionFailure.test.ts:165-196 | Of two payloads, when only the second fails, the blob holds the second payload alone. |
| `PyFunction.BatchEvents` | azure_monitor_logs_processor_func/__init__.py:109-125 | The payloads are the greedy batches at the 1000000 limit, and they concatenate to the events. There are none exactly when there are no events. |
| `PyFunction.PyPushFails` | azure_monitor_logs_processor_func/__init__.py:136-137 | A request fails on a transport error or a 4xx or 5xx status. It never fails on a success, and it always fails on an answer the TypeScript client would retry. |
| `PyFunction.PushVerdicts` | azure_monitor_logs_processor_func/__init__.py:128-137 | Python and TypeScript agree on transport errors and 2xx, 4xx and 5xx answers. Python accepts a 302, which TypeScript refuses. |
| `PyFunction.PyGetSource` | azure_monitor_logs_processor_func/__init__.py:148-156 | A source exists exactly when region, namespace and event hub are all known. It is those parts after "azure", joined by colons. |
| `PyFunction.SourcesAgree` | azure_monitor_logs_processor_func/__init__.py:148-156 | Given the same region, namespace and event hub in one settings record, both versions format the same source. When a part is missing, Python has no source while TypeScript still produces one from placeholders. |
| `PyFunction.ReachesDelivery` | azure_monitor_logs_processor_func/__init__.py:40-52 | The push loop is reached exactly when both HEC settings are set and the payloads were built. |
| `PyFunction.PyOutcome` | azure_monitor_logs_processor_func/__init__.py:40-63 | A send-failure blob is written only after the push loop was reached, never together with the parse-failure blob, and only when some payload's request failed. |
| `PyFunction.OutputBlob.constructor` | azure_monitor_logs_processor_func/__init__.py:31-33 | An output blob starts unset. |
| `PyFunction.OutputBlob.Set` | azure_monitor_logs_processor_func/__init__.py:170 | `set` replaces the blob's value. |
| `PyFunction.Bodies` | azure_monitor_logs_processor_func/__init__.py:164-167 | One body per event, in order. |
| `PyFunction.HandlePrepushException` | azure_monitor_logs_processor_func/__init__.py:159-171 | The loop collects every body in order. The blob holds them joined by a newline byte, and it is written even for no events. |
| `PyFunction.PrepushBackupRoundTrip` | azure_monitor_logs_processor_func/__init__.py:164-170 | With at least one event and newline-free bodies, the raw backup reads back, line by line, as the bodies. |
| `PyFunction.HandlePushExceptions` | azure_monitor_logs_processor_func/__init__.py:174-180 | Without failures nothing is written. Otherwise the blob holds the failures joined by newlines. |
| `PyFunction.PyFailures` | azure_monitor_logs_processor_func/__init__.py:56-61 | Payload i is flagged exactly when its single request fails. |
| `PyFunction.PushPayloads` | azure_monitor_logs_processor_func/__init__.py:55-61 | The payload loop returns exactly the payloads whose request failed, in order. |
| `PyFunction.HandleEvents` | azure_monitor_logs_processor_func/__init__.py:40-63 | A missing URL or token, or a failed build, backs up the raw bodies and leaves the send blob untouched. Otherwise the send blob holds exactly the failed payloads, or is untouched when none failed. From unset blobs, the result is the specified outcome. |
| `PyFunction.PyBackupsExclusive` | azure_monitor_logs_processor_func/__init__.py:40-63 | The two backups are never both written. The raw backup is written exactly on a pre-push error. |
| `PyFunction.PySendFailuresAreTheFailedPayloads` | azure_monitor_logs_processor_func/__init__.py:55-63 | The send blob is written exactly when some payload failed. For newline-free events it reads back as the failed payloads in order. |
| `PyFunction.SamePayloadsByDefault` | azure_monitor_logs_processor_func/__init__.py:28 | Without a batch-size setting, both versions build the same payloads from the same events. |
| `Reconcile.Select` | azure_monitor_logs_processor_func/index.ts:60-65 | The selection is never longer than the input. |
| `Reconcile.Positions` | azure_monitor_logs_processor_func/index.ts:61-65 | Every listed position is a valid index. |
| `Reconcile.SelectAtPositions` | azure_monitor_logs_processor_func/index.ts:61-65 | The j-th failed payload is the payload at the j-th flagged position. |
| `Reconcile.PositionsIncrease` | azure_monitor_logs_processor_func/index.ts:61-65 | Flagged positions are listed in increasing order, so the failures keep the input order. |
| `Reconcile.PositionsAreFlagged` | azure_monitor_logs_processor_func/index.ts:61-65 | A position is listed exactly when it is flagged. |
| `Reconcile.SelectEmptyIff` | azure_monitor_logs_processor_func/index.ts:324-327 | Nothing is selected exactly when no payload failed. |
| `Reconcile.SendBlob` | azure_monitor_logs_processor_func/index.ts:324-331 | There is no blob exactly when nothing failed. Otherwise the blob is the newline join of the failures. |
| `Reconcile.SendBlobRoundTrip` | azure_monitor_logs_processor_func/__init__.py:174-179 | With newline-free payloads, the blob splits back into exactly the failed payloads. |

## Left out

- HTTP transport, gzip compression and the request headers are not modelled. The collector's answers are an input sequence, one answer per request.
- The internals of the `axios-retry` library are not modelled. Its attempt loop is written out as `Retry.PushToHec`. `axiosRetry.exponentialDelay` is an uninterpreted function parameter.
- The retry count passed to `getRetryDelay` is taken to be 1-based, as `axios-retry` numbers it.
- Retry statuses follow the behaviour the retry tests fix. The production client in index.ts:139-144 also sets `validateStatus: () => true`, under which the retrying layer would see only requests without a response. That interaction with the library is not modelled.
- Python's `response.ok` is taken as the `requests` library defines it: false exactly for statuses 400 to 599.
- The mapping of records to Splunk events (`toSplunkEvents`, `to_splunk_events`), JSON parsing and serialization, EventHub metadata, and timestamp extraction with `moment` are left out. Their result is the input `serialized`, which is absent when they throw. A Python `get_source` failure raised during mapping is folded into that input too.
- The regular expression that extracts the namespace is left out. The namespace is an optional setting.
- PyFunction.SourcesAgree: both versions are assumed to extract the same namespace from `EventHubConnection`. They need not: index.ts:224 builds its pattern from a plain string, so each `\.` there becomes `.` and matches any character, while __init__.py:151 uses a raw string and requires literal dots. For `Endpoint=sb://ns-servicebus-windows-net` TypeScript reads the namespace `ns` and Python raises. The lemma only states that equal parts give equal sources.
- Logging, `Date.now()` and environment reads are left out. Times and settings are inputs. In the Python version `init_root_logger` raises for an invalid `LogLevel` (__init__.py:41, 76-77). That is one more pre-push error, and it is not modelled.
- Async execution is left out: the payloads are pushed one after another, as the source awaits them.
- Floating point is not modelled: the timeout is computed over exact reals.
- The timeout constants are those of index.ts:25-28: 600000 − 120000 − 30000 − 30000 = 420000 ms are left for sending.
- `PyFunction.HandleEvents` does not model which of HecUrl, HecToken or the build fails first. All three end in the same backup.
- `HecFunction.Invoke` folds any exception thrown while creating the client into the `clientCreated` input.
- HecFunction.Invoke: with `EnableEventhubMetadata` set to "true", the mapping adds `__eventhub_metadata` to every record it visits, in place (index.ts:187-190). `handleGlobalError` then stores that same array (index.ts:312). So after a missing HEC setting or a failed client creation, the stored messages carry the metadata, and after a mapping error some of them may. The model stores the messages as they came in, and `HecFunction.Bindings.HandleGlobalError` and `HecFunction.Outcome` state it that way.
- BackupsExclusive (`HecFunction.BackupsExclusive`): "holds the message array the function was given" has the same gap as `HecFunction.Invoke`. The records may carry the added metadata.
- Batching.BatchSerializedEvents: lengths count characters, that is, Unicode scalar values. In TypeScript, `.length` at index.ts:263 counts UTF-16 code units, so a character outside the Basic Multilingual Plane counts 2 there, and `JSON.stringify` leaves such characters unescaped. The TypeScript batcher can therefore close a payload earlier than the model does on such input. The Python version is unaffected: `json.dumps` escapes every non-ASCII character, so its serialized events are ASCII.
- Batching.AddEvent carries no contract of its own, and Batching.Groups promises only at least one group. Their properties are the lemmas about them (`Batching.AddEventAppends`, `Batching.PayloadsAddEvent`, `Batching.GroupsShape`, `Batching.GroupsPartition` and the others above).
