/** `analyze_with_ollama`: the request sent to the language-model backend and
    the analysis text taken from its reply. Every failure is caught and
    turned into an error text, so this step never raises. */
module Analysis {
  import opened Json
  import opened Runtime
  import opened Outbound

  /** What the backend call came back with: the decoded JSON body of a
      successful reply, or the message of the exception raised on the way
      (connection error, HTTP error status, timeout, a body that is not
      JSON). */
  datatype BackendReply =
    | Replied(data: JSON)
    | Failed(message: string)

  const Model: string := "gemma-3b"
  const ErrorPrefix: string := "Error analyzing alert: "

  /** What the `except` branch logs with `app.logger.exception`. */
  const AnalysisFailedLog: string := "Ollama analysis failed"

  /** The reply makes the `try` block raise: the call failed, or the reply
      is not a dictionary and has no `.get`. */
  predicate Caught(reply: BackendReply) {
    reply.Failed? || !reply.data.Obj?
  }

  /** The JSON body posted to the backend. */
  function GenerateRequest(prompt: string): (r: JSON)
    ensures r.Obj? && r.fields.Keys == {"model", "prompt", "stream"}
    ensures r.fields["model"] == Str(Model)
    ensures r.fields["prompt"] == Str(prompt) && r.fields["stream"] == Bool(false)
  {
    Obj(map["model" := Str(Model), "prompt" := Str(prompt), "stream" := Bool(false)])
  }

  /** The call to the backend: the request body posted to `OLLAMA_URL` with
      a 30-second timeout and no headers of its own. */
  function GeneratePost(cfg: Config, prompt: string): (p: Post)
    ensures p.url == cfg.ollamaUrl && p.headers == map[] && p.timeout == 30
    ensures p.body == GenerateRequest(prompt)
  {
    Post(cfg.ollamaUrl, map[], GenerateRequest(prompt), 30)
  }

  /** `data.get("response") or data.get("text") or json.dumps(data)`, with the
      `except` that turns an exception into `"Error analyzing alert: <e>"`.
      A `.get` on a reply that is not a dictionary raises the
      `AttributeError` whose message names its type. */
  function Analyze(host: Host, reply: BackendReply): (r: JSON)
    ensures Caught(reply) ==> r.Str?
    ensures !r.Str? ==> reply.Replied? && reply.data.Obj? && Truthy(r)
                        && (r == Get(reply.data.fields, "response") || r == Get(reply.data.fields, "text"))
  {
    match reply
    case Failed(e) => Str(ErrorPrefix + e)
    case Replied(data) =>
      if !data.Obj? then Str(ErrorPrefix + "'" + TypeName(data) + "' object has no attribute 'get'")
      else Or(Get(data.fields, "response"), Or(Get(data.fields, "text"), Str(host.dumps(data))))
  }

  lemma PrefixOf(a: string, b: string)
    ensures |a + b| >= |a| && (a + b)[..|a|] == a
  {
  }

  /** The probe order for a dictionary reply: a truthy `response`, else a
      truthy `text`, else the serialized reply. */
  lemma ProbeOrder(host: Host, data: map<string, JSON>)
    ensures var r := Analyze(host, Replied(Obj(data)));
      && (Truthy(Get(data, "response")) ==> r == data["response"])
      && (!Truthy(Get(data, "response")) && Truthy(Get(data, "text")) ==> r == data["text"])
      && (!Truthy(Get(data, "response")) && !Truthy(Get(data, "text"))
          ==> r == Str(host.dumps(Obj(data))))
  {
  }

  /** A failed call and a reply that is not a dictionary both give a text
      that begins with `"Error analyzing alert: "`; nothing escapes. */
  lemma ErrorsBecomeText(host: Host, reply: BackendReply)
    requires Caught(reply)
    ensures var r := Analyze(host, reply);
      r.Str? && |r.s| >= |ErrorPrefix| && r.s[..|ErrorPrefix|] == ErrorPrefix
  {
    match reply
    case Failed(e) =>
      PrefixOf(ErrorPrefix, e);
    case Replied(data) =>
      PrefixOf(ErrorPrefix, "'" + TypeName(data) + "' object has no attribute 'get'");
  }

  /** The result is a string whenever the probed fields are: a truthy
      `response` or `text` of another type is passed on as it is. */
  lemma TextWhenFieldsAreText(host: Host, reply: BackendReply)
    requires reply.Replied? && reply.data.Obj?
    requires Truthy(Get(reply.data.fields, "response")) ==> reply.data.fields["response"].Str?
    requires Truthy(Get(reply.data.fields, "text")) ==> reply.data.fields["text"].Str?
    ensures Analyze(host, reply).Str?
  {
  }
}
