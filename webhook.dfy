/** The `/webhook` handler: reject a falsy body, normalize the alert, ask the
    backend for an analysis, post an annotation to Grafana when the alert
    has a start time, post the message to Teams, and answer 200.

    The outbound calls are recorded, in order, as the `Post` values they
    send, and the messages the `except` branches log are recorded too. What
    the network answers is a parameter: the backend's reply, and what each
    of the two posts returns or raises. Each post sits in its own
    `try`/`except`: an exception it raises is caught, logged, and the handler
    goes on. */
module Webhook {
  import opened Wrappers
  import opened Json
  import opened Runtime
  import opened Outbound
  import opened Alert
  import opened Analysis
  import opened Annotation
  import opened Teams
  import Timestamp

  /** What the network answers to the three calls: the backend's reply, what
      `create_grafana_annotation` returns (`r.json()`) or the message of the
      exception it raises, and likewise for `send_to_teams` (`r.text`). */
  datatype World = World(
    reply: BackendReply,
    annotation: Result<JSON, string>,
    teams: Result<string, string>)

  /** What the two `except` branches of the handler log. */
  const AnnotationFailedLog: string := "Failed to post Grafana annotation"
  const TeamsFailedLog: string := "Failed to send to Teams"

  /** The handler's answer: a JSON body with a status code, or an exception
      that escaped the handler, which Flask answers with 500. */
  datatype Response =
    | Respond(code: int, body: JSON)
    | Crash(fault: Fault)

  function Code(r: Response): int {
    match r
    case Respond(c, _) => c
    case Crash(_) => 500
  }

  const InvalidPayload: Response := Respond(400, Obj(map["error" := Str("Invalid payload")]))

  function Processed(analysis: JSON): Response {
    Respond(200, Obj(map["status" := Str("processed"), "analysis" := analysis]))
  }

  /** `if not payload` lets the body through: `get_json()` gave a value and
      it is truthy. */
  predicate Accepted(body: Option<JSON>) {
    body.Some? && Truthy(body.value)
  }

  /** The prompt sent for analysis, `body_text`. */
  function Prompt(host: Host, payload: JSON, a: Alert): string {
    "Status: " + Text(host, a.status)
    + "\nLabels: " + host.dumps(a.labels)
    + "\nAnnotations: " + host.dumps(a.annotations)
    + "\nFull payload:\n" + host.dumpsIndented(payload)
  }

  /** `ann_text`. */
  function AnnotationText(host: Host, a: Alert, analysis: JSON): string {
    "Alert: " + Text(host, a.summary) + "\n\nAnalysis:\n" + Text(host, analysis)
  }

  /** `teams_text`. */
  function MessageText(host: Host, a: Alert, analysis: JSON): string {
    "**" + Text(host, a.summary) + "**\n\nStatus: " + Text(host, a.status)
    + "\n\nAnalysis:\n" + Text(host, analysis)
  }

  /** `if start_ms:`: a start time that is present and not 0. */
  predicate Annotates(a: Alert) {
    a.startMs.Some? && a.startMs.value != 0
  }

  /** `create_grafana_annotation(start_ms, end_ms, ann_text,
      tags=["alert-analysis", status])`. */
  function AnnotationCall(cfg: Config, host: Host, a: Alert, analysis: JSON): Post
    requires Annotates(a)
  {
    AnnotationPost(cfg, AnnotationBody(a.startMs.value, a.endMs, AnnotationText(host, a, analysis),
                                       Arr([Str("alert-analysis"), a.status])))
  }

  /** The answer the handler gives. */
  function Reply(host: Host, body: Option<JSON>, world: World): Response {
    if !Accepted(body) then InvalidPayload
    else
      match Normalize(body.value, host.utcOffset)
      case Err(f) => Crash(f)
      case Ok(_) => Processed(Analyze(host, world.reply))
  }

  /** The calls attempted for a normalized alert: the backend, Grafana when
      the start time is truthy, then Teams. */
  function AlertCalls(cfg: Config, host: Host, payload: JSON, a: Alert, analysis: JSON): seq<Post> {
    [GeneratePost(cfg, Prompt(host, payload, a))]
    + (if Annotates(a) then [AnnotationCall(cfg, host, a, analysis)] else [])
    + [TeamsPost(cfg, MessageText(host, a, analysis))]
  }

  /** The outbound calls the handler attempts, in order. */
  function Calls(cfg: Config, host: Host, body: Option<JSON>, world: World): seq<Post> {
    if !Accepted(body) then []
    else
      match Normalize(body.value, host.utcOffset)
      case Err(_) => []
      case Ok(a) => AlertCalls(cfg, host, body.value, a, Analyze(host, world.reply))
  }

  /** The messages logged for a normalized alert: the analysis failure
      caught inside `analyze_with_ollama`, then the annotation post when it
      was attempted and raised, then the Teams post when it raised. */
  function AlertLog(a: Alert, world: World): seq<string> {
    (if Caught(world.reply) then [AnalysisFailedLog] else [])
    + (if Annotates(a) && world.annotation.Err? then [AnnotationFailedLog] else [])
    + (if world.teams.Err? then [TeamsFailedLog] else [])
  }

  /** The messages the handler logs. */
  function Log(host: Host, body: Option<JSON>, world: World): seq<string> {
    if !Accepted(body) then []
    else
      match Normalize(body.value, host.utcOffset)
      case Err(_) => []
      case Ok(a) => AlertLog(a, world)
  }

  /** The handler, step by step as the source runs it. Each post's outcome
      is taken from `world`; an exception it raises goes to that post's
      `except` branch, which logs it and carries on with the next step. */
  method HandleWebhook(cfg: Config, host: Host, body: Option<JSON>, world: World)
    returns (resp: Response, calls: seq<Post>, log: seq<string>)
    ensures resp == Reply(host, body, world)
    ensures calls == Calls(cfg, host, body, world)
    ensures log == Log(host, body, world)
  {
    if body.None? || !Truthy(body.value) {
      return InvalidPayload, [], [];
    }
    var payload := body.value;
    var normalized := Normalize(payload, host.utcOffset);
    if normalized.Err? {
      return Crash(normalized.error), [], [];
    }
    var a := normalized.value;

    calls := [GeneratePost(cfg, Prompt(host, payload, a))];
    var analysis := Analyze(host, world.reply);
    log := if Caught(world.reply) then [AnalysisFailedLog] else [];

    // try: the annotation
    var annText := AnnotationText(host, a, analysis);
    if a.startMs.Some? && a.startMs.value != 0 {
      var record := CreateAnnotation(a.startMs.value, a.endMs, annText,
                                     Arr([Str("alert-analysis"), a.status]));
      calls := calls + [AnnotationPost(cfg, Obj(record))];
      var posted := world.annotation;
      if posted.Err? {
        // except Exception: logged, and the handler goes on
        log := log + [AnnotationFailedLog];
      }
    }
    assert calls == [GeneratePost(cfg, Prompt(host, payload, a))]
                    + (if Annotates(a) then [AnnotationCall(cfg, host, a, analysis)] else []);
    assert log == (if Caught(world.reply) then [AnalysisFailedLog] else [])
                  + (if Annotates(a) && world.annotation.Err? then [AnnotationFailedLog] else []);

    // try: the Teams message
    var teamsText := MessageText(host, a, analysis);
    calls := calls + [TeamsPost(cfg, teamsText)];
    var sent := world.teams;
    if sent.Err? {
      // except Exception: logged, and the handler goes on
      log := log + [TeamsFailedLog];
    }

    resp := Processed(analysis);
    assert calls == AlertCalls(cfg, host, payload, a, analysis);
    assert log == AlertLog(a, world);
  }

  // ---------------------------------------------------------------------
  // Properties of the handler

  /** A body for which `get_json()` gives `None`, or a falsy one, is
      answered 400 `{"error": "Invalid payload"}` and nothing is sent
      anywhere. */
  lemma FalsyBodyRejected(cfg: Config, host: Host, body: Option<JSON>, world: World)
    requires !Accepted(body)
    ensures Reply(host, body, world) == Respond(400, Obj(map["error" := Str("Invalid payload")]))
    ensures Calls(cfg, host, body, world) == []
  {
  }

  /** A body the normalization cannot handle (not a dictionary, an alert or
      an annotations value that is not one, ...) ends in a 500 before any
      outbound call. */
  lemma MalformedBodyCrashes(cfg: Config, host: Host, body: Option<JSON>, world: World)
    requires Accepted(body) && Normalize(body.value, host.utcOffset).Err?
    ensures Code(Reply(host, body, world)) == 500
    ensures Calls(cfg, host, body, world) == []
  {
  }

  /** The only answers are 200, 400 and 500, and 200 comes exactly with a
      normalized alert. */
  lemma Answers(host: Host, body: Option<JSON>, world: World)
    ensures Code(Reply(host, body, world)) in {200, 400, 500}
    ensures Code(Reply(host, body, world)) == 200 <==>
            Accepted(body) && Normalize(body.value, host.utcOffset).Ok?
  {
  }

  /** Every other body is answered 200 `{"status": "processed", "analysis":
      ...}` with the backend's analysis. */
  lemma ProcessedReply(host: Host, body: Option<JSON>, world: World)
    requires Accepted(body) && Normalize(body.value, host.utcOffset).Ok?
    ensures Reply(host, body, world)
            == Respond(200, Obj(map["status" := Str("processed"),
                                    "analysis" := Analyze(host, world.reply)]))
  {
  }

  /** Failure isolation: what the Grafana and Teams posts return or raise
      changes neither the answer nor the calls attempted; it shows only in
      the log. */
  lemma SinkOutcomesIgnored(cfg: Config, host: Host, body: Option<JSON>, w1: World, w2: World)
    requires w1.reply == w2.reply
    ensures Reply(host, body, w1) == Reply(host, body, w2)
    ensures Calls(cfg, host, body, w1) == Calls(cfg, host, body, w2)
  {
  }

  /** An annotation post that raises is caught and logged; Teams is still
      posted to, and the answer is still 200. */
  lemma TeamsAfterFailedAnnotation(cfg: Config, host: Host, body: Option<JSON>, world: World)
    requires Accepted(body) && Normalize(body.value, host.utcOffset).Ok?
    requires Annotates(Normalize(body.value, host.utcOffset).value) && world.annotation.Err?
    ensures var a := Normalize(body.value, host.utcOffset).value;
      var calls := Calls(cfg, host, body, world);
      && calls[|calls| - 1] == TeamsPost(cfg, MessageText(host, a, Analyze(host, world.reply)))
      && Code(Reply(host, body, world)) == 200
      && AnnotationFailedLog in Log(host, body, world)
  {
    CallOrder(cfg, host, body, world);
  }

  /** What is logged for a processed alert: the annotation failure exactly
      when the annotation was attempted and raised, the Teams failure
      exactly when the Teams post raised, the analysis failure exactly when
      the backend step caught an exception. A rejected or crashing body logs
      nothing. */
  lemma LoggedFailures(host: Host, body: Option<JSON>, world: World)
    requires Accepted(body) && Normalize(body.value, host.utcOffset).Ok?
    ensures var a := Normalize(body.value, host.utcOffset).value;
      var log := Log(host, body, world);
      && (AnnotationFailedLog in log <==> Annotates(a) && world.annotation.Err?)
      && (TeamsFailedLog in log <==> world.teams.Err?)
      && (AnalysisFailedLog in log <==> Caught(world.reply))
  {
    var a := Normalize(body.value, host.utcOffset).value;
    assert AnnotationFailedLog != TeamsFailedLog && AnnotationFailedLog != AnalysisFailedLog;
    assert TeamsFailedLog != AnalysisFailedLog;
    assert Log(host, body, world) == AlertLog(a, world);
  }

  /** The calls of a processed alert: the backend first, Teams last, and a
      Grafana annotation between them exactly when the start time is
      truthy. */
  lemma CallOrder(cfg: Config, host: Host, body: Option<JSON>, world: World)
    requires Accepted(body) && Normalize(body.value, host.utcOffset).Ok?
    ensures var a := Normalize(body.value, host.utcOffset).value;
      var analysis := Analyze(host, world.reply);
      var calls := Calls(cfg, host, body, world);
      && |calls| == (if Annotates(a) then 3 else 2)
      && calls[0] == GeneratePost(cfg, Prompt(host, body.value, a))
      && calls[|calls| - 1] == TeamsPost(cfg, MessageText(host, a, analysis))
      && (Annotates(a) ==> calls[1] == AnnotationCall(cfg, host, a, analysis))
  {
  }

  /** The annotation attempted for a processed alert: posted to the
      annotations API, with the start time, the tags `["alert-analysis",
      status]`, the text `"Alert: <summary>\n\nAnalysis:\n<analysis>"`, and
      `timeEnd` exactly when the end time is truthy. */
  lemma AnnotationContents(cfg: Config, host: Host, body: Option<JSON>, world: World)
    requires Accepted(body) && Normalize(body.value, host.utcOffset).Ok?
    requires Annotates(Normalize(body.value, host.utcOffset).value)
    ensures var a := Normalize(body.value, host.utcOffset).value;
      var analysis := Analyze(host, world.reply);
      var p := Calls(cfg, host, body, world)[1];
      && p.url == cfg.grafanaUrl + "/api/annotations"
      && p.body.Obj?
      && var m := p.body.fields;
      && m.Keys >= {"text", "time", "tags"}
      && m["time"] == Int(a.startMs.value)
      && m["tags"] == Arr([Str("alert-analysis"), a.status])
      && m["text"] == Str("Alert: " + Text(host, a.summary) + "\n\nAnalysis:\n" + Text(host, analysis))
      && ("timeEnd" in m <==> a.endMs.Some? && a.endMs.value != 0)
  {
    var a := Normalize(body.value, host.utcOffset).value;
    var analysis := Analyze(host, world.reply);
    CallOrder(cfg, host, body, world);
    AnnotationFields(a.startMs.value, a.endMs, AnnotationText(host, a, analysis),
                     Arr([Str("alert-analysis"), a.status]));
  }

  /** The Teams message of a processed alert is
      `{"text": "**<summary>**\n\nStatus: <status>\n\nAnalysis:\n<analysis>"}`. */
  lemma MessageContents(cfg: Config, host: Host, body: Option<JSON>, world: World)
    requires Accepted(body) && Normalize(body.value, host.utcOffset).Ok?
    ensures var a := Normalize(body.value, host.utcOffset).value;
      var analysis := Analyze(host, world.reply);
      var calls := Calls(cfg, host, body, world);
      var p := calls[|calls| - 1];
      && p.url == cfg.teamsWebhookUrl
      && p.body == Obj(map["text" := Str("**" + Text(host, a.summary) + "**\n\nStatus: "
                                         + Text(host, a.status) + "\n\nAnalysis:\n"
                                         + Text(host, analysis))])
  {
    CallOrder(cfg, host, body, world);
  }

  /** An alert that starts at `1970-01-01T00:00:00Z` is not annotated: its
      start time reads as 0, the value of a failure. */
  lemma EpochStartNotAnnotated(cfg: Config, host: Host, body: Option<JSON>, world: World)
    requires Accepted(body) && Normalize(body.value, host.utcOffset).Ok?
    requires Normalize(body.value, host.utcOffset).value.startsAt == Str("1970-01-01T00:00:00Z")
    ensures |Calls(cfg, host, body, world)| == 2
  {
    EpochStartTime(body.value, host.utcOffset);
    CallOrder(cfg, host, body, world);
  }

  /** A firing alert as Grafana sends it, starting `2025-08-09T07:00:00Z`
      with the unset end `0001-01-01T00:00:00Z`, is annotated from
      1754722800000 with a `timeEnd` of -62135596800000: the unset end is
      truthy and lies before the start. */
  lemma GrafanaFiringAnnotation(cfg: Config, host: Host, body: Option<JSON>, world: World)
    requires Accepted(body) && Normalize(body.value, host.utcOffset).Ok?
    requires Normalize(body.value, host.utcOffset).value.startsAt == Str("2025-08-09T07:00:00Z")
    requires Normalize(body.value, host.utcOffset).value.endsAt == Str("0001-01-01T00:00:00Z")
    ensures var calls := Calls(cfg, host, body, world);
      && |calls| == 3
      && calls[1].body.Obj?
      && calls[1].body.fields.Keys == {"text", "time", "tags", "timeEnd"}
      && calls[1].body.fields["time"] == Int(1754722800000)
      && calls[1].body.fields["timeEnd"] == Int(-62135596800000)
  {
    var a := Normalize(body.value, host.utcOffset).value;
    GrafanaTimes(body.value, host.utcOffset);
    CallOrder(cfg, host, body, world);
    AnnotationFields(a.startMs.value, a.endMs, AnnotationText(host, a, Analyze(host, world.reply)),
                     Arr([Str("alert-analysis"), a.status]));
  }
}
