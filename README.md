# llm-webhook alert path, modelled in Dafny

`webhook/app.py` is a small Flask service. It receives a Grafana alert on `POST /webhook`, asks a
language-model backend (Ollama) to analyse it, posts the analysis to Grafana as an annotation and
to a Microsoft Teams channel, and answers `{"status": "processed", "analysis": ...}`. This project
models that path and proves what it does.

Each part of the path has a module:

- `Json`: the decoded body as a JSON value, and Python truthiness as `Truthy`. It keeps the two
  kinds of default Python uses apart: `GetOr` for `d.get(k, x)` and `Or` for `a or b`.
- `Alert`: the normalization block (lines 77-87).
  - It is a total function that returns `Ok(Alert)`, or the `Fault` for the Python exception a
    body of the wrong shape raises.
  - Shapes that raise are a body that is not a dictionary, a truthy `alerts` that is not a
    list, an alert that is not a dictionary, annotations that are not one, or `labels` that are
    not a dictionary behind a falsy `summary` annotation.
- `Timestamp`: `iso_to_ms`.
  - It rewrites every `Z` to `+00:00`, then parses the layout of RFC 3339 (section 5.6)
    `date-time` as `datetime.fromisoformat` reads it, with the ranges `datetime` enforces.
  - Unlike RFC 3339, that layout may have no offset (the host's zone is used), takes any one
    character between the date and the time, and any number of fraction digits. A lowercase `z`,
    which RFC 3339 allows, is not rewritten and gives 0.
  - It counts days with the proleptic Gregorian ordinal that `datetime` uses.
  - It converts to milliseconds exactly, truncating toward zero as `int()` does.
  - Every failure gives 0.
  - Its proofs cover the calendar arithmetic, and the round trip between writing a stamp and
    parsing it back, for any separator and any number of fraction digits. They also show
    that `Z` and `+00:00` agree, and give worked examples: month 13, February 29 of 2025,
    second 60, the epoch itself, Grafana's unset end `0001-01-01T00:00:00Z`, nine and three
    fraction digits, and a space as the separator.
- `Analysis`: `analyze_with_ollama`.
  - It builds the generation request.
  - It probes the reply: a truthy `response`, else a truthy `text`, else the serialized reply.
  - Any exception becomes `"Error analyzing alert: ..."`.
- `Annotation`: `create_grafana_annotation`.
  - The method `CreateAnnotation` builds the record as the source does: three keys, then
    `timeEnd` added in place.
  - It is proved equal to the function `AnnotationBody`.
- `Teams`: `send_to_teams`.
- `Webhook`: the handler, as the method `HandleWebhook`.
  - It returns the response, the sequence of outbound `Post`s it attempts, and the messages
    its `except` branches log.
  - Each post's outcome comes from the `World`. When a post raises, its `except` branch logs
    the message and the handler goes on.
  - It is proved equal to the specification functions `Reply`, `Calls` and `Log`.
  - The lemmas about those functions state:
    - the 400 and 500 cases, and that neither makes an outbound call;
    - the 200 answer;
    - the order of the calls;
    - that an annotation is attempted exactly when the start time is truthy, and what the
      annotation and Teams message contain;
    - that the outcomes of the Grafana and Teams posts change neither the answer nor the
      calls, and that Teams is still posted to after the annotation post raises;
    - which failures are logged.

The network is a parameter, `World`: the backend's reply, and for each post either the value it
returns or the message of the exception it raises. The
Python runtime's text conversions are another parameter, `Runtime.Host`: `json.dumps`,
`json.dumps(indent=2)` and `str()` of lists and dictionaries. `Host` also carries the host's
UTC offset.

### Behaviour of the code worth knowing (the model follows the code)

- **`iso_to_ms` gives 0 on failure, not "no value".**
  - A real `1970-01-01T00:00:00Z` start is not annotated (`Webhook.EpochStartNotAnnotated`).
  - So is any instant less than a millisecond before the epoch (`Timestamp.JustBeforeEpoch`).
- **Times before 1970 are negative, not non-negative.**
  - Grafana's unset `endsAt`, `0001-01-01T00:00:00Z`, is truthy.
  - It reaches the annotation as `timeEnd` -62135596800000, before the start
    (`Webhook.GrafanaFiringAnnotation`).
- **`replace` rewrites every `Z`, not only a trailing one.**
- **Bodies of the wrong shape end in an uncaught exception (500), not only 400.**
  - The wrong shapes are a body that is not a dictionary, an alert that is not one, and
    annotations that are not one.
  - So is a truthy `alerts` that is not a list (`Alert.NonListAlerts`): a dictionary fails with
    `KeyError: 0`, a number or `true` with `TypeError`, and a string because its first
    character has no `.get`.
  - The `labels` value matters only when the summary annotation is falsy
    (`Alert.LabelsReadLazily`).
- **`status`, `summary` and the analysis are JSON values, not necessarily strings.**
  - A truthy non-string `response` is passed on as it is (`Analysis.TextWhenFieldsAreText`
    says when the analysis is a string).
  - They enter texts through `str()`.
- **The answer is always `"processed"`.**

## Model

| member | source | states |
|---|---|---|
| `Timestamp.DaysBeforeYearCounts` | webhook/app.py:66 | the closed-form count of days before a year equals the sum of the year lengths under the 4/100/400 leap rule |
| `Timestamp.NextDateIsNextOrdinal` | webhook/app.py:66 | the calendar's next valid date always has the next day ordinal, across month and year ends and February 29 |
| `Timestamp.EpochOrdinal` | webhook/app.py:66 | 1970-01-01 is day 719163 of the proleptic Gregorian count |
| `Timestamp.TruncMillis` | webhook/app.py:66 | `int()` of microseconds / 1000 truncates toward zero: the remainder is below 1000 in magnitude and has the sign of the count |
| `Timestamp.EpochMillis` | webhook/app.py:66 | `int(dt.timestamp() * 1000)` of a parsed stamp: 0 exactly for an instant less than a millisecond from the epoch, positive exactly from a millisecond after it |
| `Timestamp.OffsetShiftsInstant` | webhook/app.py:63-66 | the same wall-clock fields written with an offset of `o` minutes name the instant `o` minutes before the one they name in UTC |
| `Timestamp.Parse` | webhook/app.py:63-65 | every stamp that parses has in-range fields: year 1-9999, a day that exists in its month, hour < 24, minute and second < 60, offset under 24 hours |
| `Timestamp.Micros` | webhook/app.py:63-65 | fraction digits as microseconds: the first six digits, padded on the right with zeros when there are fewer (`5` is 500000, `123456789` is 123456) |
| `Timestamp.FractionRoundTrip` | webhook/app.py:63-65 | `.` followed by any digits, then an offset or nothing, reads as `Micros` of the digits and leaves the offset |
| `Timestamp.ParseClockText` | webhook/app.py:63-65 | any fields written as `YYYY-MM-DD?HH:MM:SS[.digits][±HH:MM]`, with any separator `?` and any number of fraction digits, parse back to exactly those fields, the first six fraction digits padded as the microseconds, when they are in range, and fail when one is not |
| `Timestamp.ParseFormat` | webhook/app.py:63-65 | parsing the canonical text of any valid stamp gives the stamp back |
| `Timestamp.ReplaceZFacts` | webhook/app.py:63 | after the rewrite no `Z` is left; a text without `Z` is unchanged |
| `Timestamp.ReplaceZAppend` | webhook/app.py:63 | the rewrite of every `Z` distributes over concatenation |
| `Timestamp.ReplaceZ` | webhook/app.py:63 | `ts.replace("Z", "+00:00")`: every `Z` of the text, not only the last, becomes `+00:00`; its properties are `ReplaceZFacts` and `ReplaceZAppend` |
| `Timestamp.IsoToMs` | webhook/app.py:58-68 | `iso_to_ms`: a text ending in `Z` is rewritten, then parsed; the parsed stamp gives `EpochMillis` of it, and a text that does not parse, or a value that is not a string, gives 0. `ZSuffixMeansUtc`, `OffsetClockText`, `UtcText` and the examples state what it gives |
| `Timestamp.ZSuffixMeansUtc` | webhook/app.py:62-65 | for any text with no `Z`, ending it in `Z` reads the same as ending it in `+00:00` |
| `Timestamp.OffsetTextIsExact` | webhook/app.py:61-66 | the canonical text of a valid stamp with an offset gives its exact truncated epoch milliseconds, whatever the host zone |
| `Timestamp.OffsetClockText` | webhook/app.py:58-68 | a text `YYYY-MM-DD?HH:MM:SS[.digits]±HH:MM`, with any separator and any number of fraction digits, gives the exact instant when its fields are in range and 0 when one is not |
| `Timestamp.UtcText` | webhook/app.py:58-68 | a text `YYYY-MM-DD?HH:MM:SS[.digits]Z`, with any separator but `Z` and any number of fraction digits, gives the exact truncated epoch milliseconds when in range, 0 otherwise |
| `Timestamp.NotTextGivesZero` | webhook/app.py:61-62 | a value that is not a string gives 0: `ts.endswith` raises inside the `try` |
| `Timestamp.NotADate` | webhook/app.py:61-68 | `not-a-date` gives 0 |
| `Timestamp.GrafanaExample` | webhook/app.py:59-66 | `2025-08-09T07:00:00Z` and `2025-08-09T07:00:00+00:00` both give 1754722800000 |
| `Timestamp.Month13` | webhook/app.py:61-68 | month 13 gives 0 |
| `Timestamp.Feb29` | webhook/app.py:61-68 | 2025-02-29 gives 0 |
| `Timestamp.Second60` | webhook/app.py:61-68 | second 60 gives 0 |
| `Timestamp.EpochExample` | webhook/app.py:61-68 | `1970-01-01T00:00:00Z` gives 0, the failure value |
| `Timestamp.YearOneExample` | webhook/app.py:61-66 | `0001-01-01T00:00:00Z` gives -62135596800000 |
| `Timestamp.JustBeforeEpoch` | webhook/app.py:66 | `1969-12-31T23:59:59.ffffffZ` with any fraction above 0.999 gives 0, an instant less than a millisecond before the epoch |
| `Timestamp.MicrosExamples` | webhook/app.py:63-65 | nine fraction digits keep the first six; three are padded to 123000 |
| `Timestamp.NineDigitFraction` | webhook/app.py:58-66 | `2025-08-09T07:00:00.123456789Z` gives 1754722800123 |
| `Timestamp.MillisecondFraction` | webhook/app.py:58-66 | `2025-08-09T07:00:00.123Z` gives 1754722800123 |
| `Timestamp.SpaceSeparator` | webhook/app.py:58-66 | `2025-08-09 07:00:00Z` gives 1754722800000, as with a `T` |
| `Alert.First` | webhook/app.py:77 | `v[0]` succeeds exactly on a non-empty list or string, and gives a list's first element |
| `Alert.Source` | webhook/app.py:77 | `(payload.get("alerts") or [None])[0] or payload`: when it is a dictionary it is the payload itself or the first element of a list `alerts`; otherwise the `Fault` Python raises |
| `Alert.FirstAlertIsSource` | webhook/app.py:77-78 | a truthy first element of `alerts` is the source; one that is not a dictionary fails on `.get` |
| `Alert.LaterAlertsIgnored` | webhook/app.py:77 | behind a truthy first alert, the later alerts do not affect the source |
| `Alert.PayloadIsSource` | webhook/app.py:77 | with `alerts` absent, null, empty or with a falsy first element, the whole payload is the source |
| `Alert.NonListAlerts` | webhook/app.py:77-78 | a truthy `alerts` that is not a list fails: a string on `.get`, a dictionary on key 0, a number or `true` on indexing |
| `Alert.NeverIndexError` | webhook/app.py:77 | `or [None]` always leaves an element to index |
| `Alert.Fallbacks` | webhook/app.py:80-82 | `status` comes from the source when present (even null), else from the top level, else `"firing"`; `startsAt` likewise with null last; `endsAt` only from the source |
| `Alert.DefaultFiring` | webhook/app.py:80 | with no `status` anywhere the status is `"firing"` |
| `Alert.NullStatusKept` | webhook/app.py:80 | a present null `status` is kept, not replaced by a default |
| `Alert.TimeOf` | webhook/app.py:84-85 | a millisecond value exists exactly for a truthy field |
| `Alert.TimesOnlyForTruthy` | webhook/app.py:84-85 | `start_ms`/`end_ms` exist exactly when `startsAt`/`endsAt` are truthy, and are then `iso_to_ms` of them |
| `Alert.EpochStartTime` | webhook/app.py:84 | a `1970-01-01T00:00:00Z` start is present with the value 0 |
| `Alert.GrafanaTimes` | webhook/app.py:81-85 | Grafana's firing alert has start 1754722800000 and a present end of -62135596800000 |
| `Alert.Summary` | webhook/app.py:87 | whenever the summary can be read it is truthy, hence never empty |
| `Alert.SummaryPrecedence` | webhook/app.py:87 | the summary is the truthy `summary` annotation, else the truthy `alertname` label, else `"Grafana Alert"` |
| `Alert.CpuExample` | webhook/app.py:77-87 | `{"annotations":{"summary":"CPU high"},"labels":{"alertname":"cpu"}}` gives summary `"CPU high"`, status `"firing"`, no times |
| `Alert.FailsExactly` | webhook/app.py:77-87 | normalization fails exactly for a non-dictionary payload, a failing source, non-dictionary annotations, or a falsy summary with non-dictionary labels |
| `Alert.LabelsReadLazily` | webhook/app.py:87 | with a truthy summary annotation any `labels` value is accepted |
| `Alert.Normalize` | webhook/app.py:77-87 | the whole normalization block; when it succeeds the payload and the annotations are dictionaries, the summary is truthy, and each time is present exactly when its field is truthy |
| `Analysis.GenerateRequest` | webhook/app.py:24-28 | the request has exactly the keys `model`, `prompt`, `stream`, carrying the model `gemma-3b`, the prompt and `stream` false |
| `Analysis.GeneratePost` | webhook/app.py:29 | the request goes to `OLLAMA_URL` with a 30-second timeout |
| `Analysis.Analyze` | webhook/app.py:33-36 | the analysis text: a string whenever the `try` raised; otherwise a result that is not a string is the truthy `response` or `text` field of the dictionary reply |
| `Analysis.ProbeOrder` | webhook/app.py:33 | a truthy `response` wins, else a truthy `text`, else the serialized reply |
| `Analysis.ErrorsBecomeText` | webhook/app.py:34-36 | a failed call or a reply that is not a dictionary becomes a string beginning `"Error analyzing alert: "` |
| `Analysis.TextWhenFieldsAreText` | webhook/app.py:33 | the analysis is a string whenever the truthy probed fields are strings |
| `Annotation.CreateAnnotation` | webhook/app.py:40-46 | the record built in place equals `AnnotationBody` |
| `Annotation.AnnotationBody` | webhook/app.py:40-46 | the record as a value: `text`, `time` and `tags` (default `["alert-analysis"]` for falsy tags), plus `timeEnd` for a truthy end time; `AnnotationFields` states its keys |
| `Annotation.AnnotationFields` | webhook/app.py:40-46 | the record holds the text, the start time and the tags (default `["alert-analysis"]` when falsy), and `timeEnd` exactly for a truthy end time, with no other key |
| `Annotation.AnnotationPost` | webhook/app.py:39-48 | the record itself goes to `GRAFANA_URL/api/annotations` with exactly the headers `Authorization` (the API key) and `Content-Type: application/json`, and a 10-second timeout |
| `Teams.TeamsPost` | webhook/app.py:52-54 | Teams receives exactly `{"text": text}` at `TEAMS_WEBHOOK_URL` with a 10-second timeout |
| `Webhook.HandleWebhook` | webhook/app.py:70-111 | the step-by-step handler, taking each post's outcome from the `World` and catching what it raises, gives the answer `Reply`, attempts the calls `Calls` and logs `Log` |
| `Webhook.Reply` | webhook/app.py:72-111 | the answer: 400 `Invalid payload` for a `None` or falsy body, the uncaught exception of the normalization, else 200 `processed` with the analysis; `Answers` and `ProcessedReply` state it |
| `Webhook.Calls` | webhook/app.py:72-107 | the outbound calls in order: none for a rejected or crashing body, else the backend, Grafana when the start time is truthy, then Teams; `CallOrder` states it |
| `Webhook.Log` | webhook/app.py:34-109 | the messages the `except` branches log, in order; `LoggedFailures` states it |
| `Webhook.Prompt` | webhook/app.py:88 | `body_text`: the status, the labels and annotations as `json.dumps`, and the indented payload |
| `Webhook.AnnotationText` | webhook/app.py:98 | `ann_text`: `"Alert: <summary>\n\nAnalysis:\n<analysis>"` |
| `Webhook.MessageText` | webhook/app.py:106 | `teams_text`: `"**<summary>**\n\nStatus: <status>\n\nAnalysis:\n<analysis>"` |
| `Runtime.Text` | webhook/app.py:88 | `str(v)` as an f-string applies it: a string is itself, `None`, `True` and `False` their names, an integer its decimal writing, a list or dictionary the host's `repr` |
| `Webhook.FalsyBodyRejected` | webhook/app.py:72-74 | a body `get_json()` gives as `None`, or a falsy one, is answered 400 `{"error": "Invalid payload"}` with no outbound call |
| `Webhook.MalformedBodyCrashes` | webhook/app.py:77-87 | a body the normalization rejects ends in 500 with no outbound call |
| `Webhook.Answers` | webhook/app.py:72-111 | the answer is 200, 400 or 500, and 200 exactly when the body is accepted and normalized |
| `Webhook.ProcessedReply` | webhook/app.py:111 | a normalized alert is answered 200 `{"status": "processed", "analysis": ...}` with the backend's analysis |
| `Webhook.SinkOutcomesIgnored` | webhook/app.py:96-109 | what the Grafana and Teams posts return or raise changes neither the answer nor the calls attempted |
| `Webhook.TeamsAfterFailedAnnotation` | webhook/app.py:96-111 | when the annotation post raises, Teams is still the last call, the answer is still 200, and the failure is logged |
| `Webhook.LoggedFailures` | webhook/app.py:34-109 | each failure message is logged exactly when its step raised: the backend step, the attempted annotation post, the Teams post |
| `Webhook.CallOrder` | webhook/app.py:91-107 | the backend is called first and Teams last, with the annotation between them exactly when the start time is truthy |
| `Webhook.AnnotationContents` | webhook/app.py:98-100 | the annotation carries the start time, tags `["alert-analysis", status]`, text `"Alert: <summary>\n\nAnalysis:\n<analysis>"`, and `timeEnd` exactly for a truthy end time |
| `Webhook.MessageContents` | webhook/app.py:105-107 | the Teams text is `"**<summary>**\n\nStatus: <status>\n\nAnalysis:\n<analysis>"` |
| `Webhook.EpochStartNotAnnotated` | webhook/app.py:84-100 | an alert starting at `1970-01-01T00:00:00Z` is not annotated |
| `Webhook.GrafanaFiringAnnotation` | webhook/app.py:81-100 | Grafana's firing alert is annotated from 1754722800000 with `timeEnd` -62135596800000 |

## Left out

- **Flask plumbing**: the route, `request.get_json`, `jsonify` and `app.run` (lines 4-6, 70, 72, 111,
  113-114).
  - The body is an `Option<JSON>`. `None` is the case where `get_json()` returns `None`.
  - A body that does not decode as JSON is rejected by Flask itself (400 Bad Request) before
    the handler runs, and is not modelled.
  - The answer is a `Response`.
  - An exception that escapes the handler is `Crash`, which Flask answers with 500.
- **Configuration and the start-up check for missing secrets** (lines 9-16): they are the `Config`
  parameter.
- **The HTTP calls themselves**: `requests.post`, `raise_for_status`, `.json()` and the timeouts
  taking effect.
  - Each call is recorded as the `Post` value it would send.
  - Its outcome is a `World` parameter.
  - The values `create_grafana_annotation` and `send_to_teams` return are part of the `World`,
    and the caller discards them.
- **Serialization**: `json.dumps`, `json.dumps(indent=2)` and `str()` of a list or a dictionary are
  opaque functions of `Runtime.Host`.
- **Exception messages**: the message of a failed backend call is an opaque string. Only the
  `AttributeError` message for a non-dictionary reply is written out.
- **Logging**: the messages `app.logger.exception` logs (lines 35, 102, 109) are modelled as
  `Webhook.Log`. The traceback it adds and the log levels are not.
- **The outer `try` around the analysis** (lines 91-94) is not modelled, since
  `analyze_with_ollama` catches every exception itself.
- **`datetime.fromisoformat` beyond the layout above**: the model reads these as 0, though
  Python 3.11 accepts them. For example:
  - week dates, the basic format without `-` and `:`, and a date alone;
  - reduced times (`07:00`, `07`);
  - `,` as the decimal mark;
  - `+HH` and `+HHMM` offsets, offset minutes of 60 or more (`+05:75`), and offsets with
    seconds.
- **Offset-free timestamps**: they use `Host.utcOffset`, a fixed offset. Daylight saving and
  historical zone changes are not modelled.
- **Floating point**: `dt.timestamp() * 1000` is a float product. The model computes the exact
  milliseconds, so a one-millisecond rounding difference at large magnitudes is not captured.
- **JSON numbers with a fraction** are not part of the `JSON` type.
- **The `app/` variant of the service** (`app/main.py` and its clients) is not part of this
  model.
- `Timestamp.Parse` (through `Timestamp.Fraction`): fractional seconds follow `datetime.fromisoformat` as in Python 3.11
  and later: any number of digits, the first six kept. The source needs only Python 3.10 (the
  `int | None` annotation, line 38), whose `fromisoformat` accepts exactly 3 or 6 digits. On 3.10
  a stamp such as `2025-08-09T07:00:00.1Z` or one with nine fraction digits gives 0, where the
  model gives its instant.
