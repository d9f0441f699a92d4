/** `create_grafana_annotation`: the annotation record posted to Grafana's
    annotations API. */
module Annotation {
  import opened Wrappers
  import opened Json
  import opened Outbound

  const DefaultTags: JSON := Arr([Str("alert-analysis")])

  /** Python truthiness of the `end_time_ms: int | None` argument. */
  predicate EndGiven(end: Option<int>) {
    end.Some? && end.value != 0
  }

  /** The three keys every record has. */
  function Base(start: int, text: string, tags: JSON): map<string, JSON> {
    map["text" := Str(text), "time" := Int(start), "tags" := Or(tags, DefaultTags)]
  }

  /** `timeEnd`, present only for a truthy end time. */
  function TimeEnd(end: Option<int>): map<string, JSON> {
    if EndGiven(end) then map["timeEnd" := Int(end.value)] else map[]
  }

  /** The record: the fixed keys together with the optional end time. */
  function AnnotationBody(start: int, end: Option<int>, text: string, tags: JSON): JSON {
    Obj(Base(start, text, tags) + TimeEnd(end))
  }

  /** Builds the record the way the source does: the three fixed keys, then
      `timeEnd` added in place when the end time is truthy. */
  method CreateAnnotation(start: int, end: Option<int>, text: string, tags: JSON)
    returns (payload: map<string, JSON>)
    ensures Obj(payload) == AnnotationBody(start, end, text, tags)
  {
    payload := map["text" := Str(text), "time" := Int(start), "tags" := Or(tags, DefaultTags)];
    if end.Some? && end.value != 0 {
      payload := payload["timeEnd" := Int(end.value)];
    }
  }

  /** The record holds the text, the start time and the tags (the default
      tag list when the given tags are falsy), and `timeEnd` exactly when
      the end time is truthy, holding that end time. */
  lemma AnnotationFields(start: int, end: Option<int>, text: string, tags: JSON)
    ensures var m := AnnotationBody(start, end, text, tags).fields;
      && m.Keys >= {"text", "time", "tags"}
      && m["text"] == Str(text) && m["time"] == Int(start)
      && m["tags"] == (if Truthy(tags) then tags else Arr([Str("alert-analysis")]))
      && ("timeEnd" in m <==> end.Some? && end.value != 0)
      && ("timeEnd" in m ==> m["timeEnd"] == Int(end.value))
      && m.Keys <= {"text", "time", "tags", "timeEnd"}
  {
  }

  /** The call to Grafana: `POST {GRAFANA_URL}/api/annotations` with the API
      key as the `Authorization` header and a 10-second timeout. */
  function AnnotationPost(cfg: Config, body: JSON): (p: Post)
    ensures p.url == cfg.grafanaUrl + "/api/annotations" && p.timeout == 10
    ensures p.headers == map["Authorization" := cfg.grafanaApiKey, "Content-Type" := "application/json"]
    ensures p.body == body
  {
    Post(cfg.grafanaUrl + "/api/annotations",
         map["Authorization" := cfg.grafanaApiKey, "Content-Type" := "application/json"],
         body, 10)
  }
}
