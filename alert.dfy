/** The normalization block of the webhook handler: from the decoded request
    body to the fields the rest of the handler uses. Python's two defaults
    are kept apart: `d.get(k, x)` falls back only on an ABSENT key, `a or b`
    on a FALSY `a`. */
module Alert {
  import opened Wrappers
  import opened Json
  import Timestamp

  /** The exceptions the normalization can raise. None of them is caught, so
      each ends the request with Flask's 500 response before any outbound
      call. */
  datatype Fault =
    | NoAttributeGet(typeName: string)  // AttributeError: '<type>' object has no attribute 'get'
    | NotSubscriptable(typeName: string) // TypeError: '<type>' object is not subscriptable
    | KeyZero                            // KeyError: 0 (a dictionary indexed by 0)
    | IndexOutOfRange                    // IndexError: an empty list or string indexed by 0

  /** The normalized alert. `annotations` is a dictionary whenever the
      normalization succeeds; `labels` need not be, since it is only read
      when the summary annotation is falsy. */
  datatype Alert = Alert(
    labels: JSON,
    annotations: JSON,
    status: JSON,
    startsAt: JSON,
    endsAt: JSON,
    startMs: Option<int>,
    endMs: Option<int>,
    summary: JSON)

  /** `v[0]` on a decoded value. */
  function First(v: JSON): (r: Result<JSON, Fault>)
    ensures r.Ok? <==> (v.Arr? || v.Str?) && Truthy(v)
    ensures v.Arr? && r.Ok? ==> r.value == v.items[0]
  {
    match v
    case Arr(xs) => if xs == [] then Err(IndexOutOfRange) else Ok(xs[0])
    case Str(s) => if s == [] then Err(IndexOutOfRange) else Ok(Str([s[0]]))
    case Obj(_) => Err(KeyZero)
    case _ => Err(NotSubscriptable(TypeName(v)))
  }

  /** The alert the request is about, `(payload.get("alerts") or [None])[0]
      or payload`, which must be a dictionary for the `.get` calls after it. */
  function Source(top: map<string, JSON>): (r: Result<map<string, JSON>, Fault>)
    ensures r.Ok? ==> r.value == top || (Get(top, "alerts").Arr? && Get(top, "alerts").items != []
                                         && Get(top, "alerts").items[0] == Obj(r.value))
  {
    var first :- First(Or(Get(top, "alerts"), Arr([Null])));
    var alert := Or(first, Obj(top));
    if alert.Obj? then Ok(alert.fields) else Err(NoAttributeGet(TypeName(alert)))
  }

  /** `iso_to_ms(v) if v else None`. */
  function TimeOf(v: JSON, hostOffset: int): (r: Option<int>)
    ensures r.Some? <==> Truthy(v)
  {
    if Truthy(v) then Some(Timestamp.IsoToMs(v, hostOffset)) else None
  }

  /** `annotations.get("summary") or labels.get("alertname") or "Grafana Alert"`.
      `labels.get` runs only when the summary is falsy, so a labels value
      that is not a dictionary fails only then. */
  function Summary(labels: JSON, annotations: JSON): (r: Result<JSON, Fault>)
    ensures r.Ok? ==> Truthy(r.value)
  {
    if !annotations.Obj? then Err(NoAttributeGet(TypeName(annotations)))
    else
      var s := Get(annotations.fields, "summary");
      if Truthy(s) then Ok(s)
      else if !labels.Obj? then Err(NoAttributeGet(TypeName(labels)))
      else Ok(Or(Get(labels.fields, "alertname"), Str("Grafana Alert")))
  }

  /** The whole block, for a payload that has passed the `if not payload`
      test (a falsy payload never gets here). */
  function Normalize(payload: JSON, hostOffset: int): (r: Result<Alert, Fault>)
    ensures r.Ok? ==> payload.Obj? && r.value.annotations.Obj? && Truthy(r.value.summary)
    ensures r.Ok? ==> (r.value.startMs.Some? <==> Truthy(r.value.startsAt))
                      && (r.value.endMs.Some? <==> Truthy(r.value.endsAt))
  {
    if !payload.Obj? then Err(NoAttributeGet(TypeName(payload)))
    else
      var top := payload.fields;
      var src :- Source(top);
      var labels := GetOr(src, "labels", Obj(map[]));
      var annotations := GetOr(src, "annotations", Obj(map[]));
      var status := GetOr(src, "status", GetOr(top, "status", Str("firing")));
      var startsAt := GetOr(src, "startsAt", Get(top, "startsAt"));
      var endsAt := Get(src, "endsAt");
      var summary :- Summary(labels, annotations);
      Ok(Alert(labels, annotations, status, startsAt, endsAt,
               TimeOf(startsAt, hostOffset), TimeOf(endsAt, hostOffset), summary))
  }

  // ---------------------------------------------------------------------
  // Choosing the alert source

  /** A truthy first element of `alerts` is the source, whatever follows it. */
  lemma FirstAlertIsSource(top: map<string, JSON>, xs: seq<JSON>)
    requires Get(top, "alerts") == Arr(xs) && |xs| > 0 && Truthy(xs[0])
    ensures Source(top) == if xs[0].Obj? then Ok(xs[0].fields)
                           else Err(NoAttributeGet(TypeName(xs[0])))
  {
  }

  /** Behind a truthy first alert the later ones are never looked at:
      replacing them changes nothing. */
  lemma LaterAlertsIgnored(top: map<string, JSON>, x: JSON, ys: seq<JSON>, zs: seq<JSON>)
    requires Truthy(x)
    ensures Source(top["alerts" := Arr([x] + ys)]) == Source(top["alerts" := Arr([x] + zs)])
  {
    var a, b := top["alerts" := Arr([x] + ys)], top["alerts" := Arr([x] + zs)];
    assert First(Or(Get(a, "alerts"), Arr([Null]))) == Ok(x);
    assert First(Or(Get(b, "alerts"), Arr([Null]))) == Ok(x);
  }

  /** The whole payload is the source exactly when there is no list of
      alerts to take a truthy first element from: `alerts` absent, null,
      empty, or a list whose first element is falsy. */
  lemma PayloadIsSource(top: map<string, JSON>)
    requires var alerts := Get(top, "alerts");
      !Truthy(alerts) || (alerts.Arr? && !Truthy(alerts.items[0]))
    ensures Source(top) == Ok(top)
  {
  }

  /** A truthy `alerts` that is not a list fails: a string's first character
      has no `.get`, a dictionary has no key 0, a number or `true` cannot be
      indexed. */
  lemma NonListAlerts(top: map<string, JSON>)
    requires var alerts := Get(top, "alerts"); Truthy(alerts) && !alerts.Arr?
    ensures Source(top) == match Get(top, "alerts")
      case Str(_) => Err(NoAttributeGet("str"))
      case Obj(_) => Err(KeyZero)
      case v => Err(NotSubscriptable(TypeName(v)))
  {
  }

  /** `or [None]` always leaves something to index: the normalization never
      fails with an `IndexError`. */
  lemma NeverIndexError(payload: JSON, hostOffset: int)
    ensures Normalize(payload, hostOffset) != Err(IndexOutOfRange)
  {
  }

  // ---------------------------------------------------------------------
  // Field fallbacks

  /** `status` is the source's key when present (even a null), else the
      payload's top-level key when present, else `"firing"`; `startsAt` has
      the same top-level fallback with null last; `endsAt` has none. */
  lemma Fallbacks(payload: JSON, hostOffset: int)
    requires payload.Obj? && Normalize(payload, hostOffset).Ok?
    ensures var top, a := payload.fields, Normalize(payload, hostOffset).value;
      var src := Source(top).value;
      && a.status == (if "status" in src then src["status"]
                      else if "status" in top then top["status"] else Str("firing"))
      && a.startsAt == (if "startsAt" in src then src["startsAt"]
                        else if "startsAt" in top then top["startsAt"] else Null)
      && a.endsAt == (if "endsAt" in src then src["endsAt"] else Null)
  {
  }

  /** With no `status` anywhere the alert is `"firing"`. */
  lemma DefaultFiring(payload: JSON, hostOffset: int)
    requires payload.Obj? && Normalize(payload, hostOffset).Ok?
    requires "status" !in payload.fields && "status" !in Source(payload.fields).value
    ensures Normalize(payload, hostOffset).value.status == Str("firing")
  {
  }

  /** A `status` key that is present keeps its value even when it is null:
      `.get` does not fall back on a falsy value. */
  lemma NullStatusKept(payload: JSON, hostOffset: int)
    requires payload.Obj? && Normalize(payload, hostOffset).Ok?
    requires var src := Source(payload.fields).value; "status" in src && src["status"] == Null
    ensures Normalize(payload, hostOffset).value.status == Null
  {
  }

  /** The millisecond values exist exactly for truthy time fields, and are
      then what `iso_to_ms` gives for them. */
  lemma TimesOnlyForTruthy(payload: JSON, hostOffset: int)
    requires Normalize(payload, hostOffset).Ok?
    ensures var a := Normalize(payload, hostOffset).value;
      && (a.startMs.Some? <==> Truthy(a.startsAt))
      && (a.endMs.Some? <==> Truthy(a.endsAt))
      && (a.startMs.Some? ==> a.startMs.value == Timestamp.IsoToMs(a.startsAt, hostOffset))
      && (a.endMs.Some? ==> a.endMs.value == Timestamp.IsoToMs(a.endsAt, hostOffset))
  {
  }

  /** `1970-01-01T00:00:00Z` is present but reads as 0. */
  lemma EpochStartTime(payload: JSON, hostOffset: int)
    requires Normalize(payload, hostOffset).Ok?
    requires Normalize(payload, hostOffset).value.startsAt == Str("1970-01-01T00:00:00Z")
    ensures Normalize(payload, hostOffset).value.startMs == Some(0)
  {
    Timestamp.EpochExample(hostOffset);
    TimesOnlyForTruthy(payload, hostOffset);
  }

  /** Grafana's firing alert, `startsAt` `2025-08-09T07:00:00Z` and the
      unset `endsAt` `0001-01-01T00:00:00Z`: both times are present, the end
      a large negative count before the start. */
  lemma GrafanaTimes(payload: JSON, hostOffset: int)
    requires Normalize(payload, hostOffset).Ok?
    requires Normalize(payload, hostOffset).value.startsAt == Str("2025-08-09T07:00:00Z")
    requires Normalize(payload, hostOffset).value.endsAt == Str("0001-01-01T00:00:00Z")
    ensures Normalize(payload, hostOffset).value.startMs == Some(1754722800000)
    ensures Normalize(payload, hostOffset).value.endMs == Some(-62135596800000)
  {
    Timestamp.GrafanaUtcZ(hostOffset);
    Timestamp.YearOneExample(hostOffset);
    TimesOnlyForTruthy(payload, hostOffset);
  }

  // ---------------------------------------------------------------------
  // Summary

  /** The summary is the truthy `summary` annotation, else the truthy
      `alertname` label, else `"Grafana Alert"`; it is never falsy. */
  lemma SummaryPrecedence(labels: map<string, JSON>, annotations: map<string, JSON>)
    ensures var r := Summary(Obj(labels), Obj(annotations));
      && r.Ok? && Truthy(r.value)
      && (Truthy(Get(annotations, "summary")) ==> r.value == annotations["summary"])
      && (!Truthy(Get(annotations, "summary")) && Truthy(Get(labels, "alertname"))
          ==> r.value == labels["alertname"])
      && (!Truthy(Get(annotations, "summary")) && !Truthy(Get(labels, "alertname"))
          ==> r.value == Str("Grafana Alert"))
  {
  }

  /** `{"annotations": {"summary": "CPU high"}, "labels": {"alertname": "cpu"}}`
      is summarised as `"CPU high"`, and with no `status` it is firing. */
  lemma CpuExample(hostOffset: int)
    ensures var payload := Obj(map["annotations" := Obj(map["summary" := Str("CPU high")]),
                                   "labels" := Obj(map["alertname" := Str("cpu")])]);
      var r := Normalize(payload, hostOffset);
      r.Ok? && r.value.summary == Str("CPU high") && r.value.status == Str("firing")
      && r.value.startMs == None && r.value.endMs == None
  {
    var payload := Obj(map["annotations" := Obj(map["summary" := Str("CPU high")]),
                           "labels" := Obj(map["alertname" := Str("cpu")])]);
    assert "alerts" !in payload.fields;
    assert Source(payload.fields) == Ok(payload.fields);
  }

  // ---------------------------------------------------------------------
  // When the normalization fails

  /** The normalization fails exactly when the payload is not a dictionary,
      the chosen source is not one, the annotations are not one, or the
      summary annotation is falsy and the labels are not a dictionary. */
  lemma FailsExactly(payload: JSON, hostOffset: int)
    ensures Normalize(payload, hostOffset).Err? <==>
      || !payload.Obj?
      || Source(payload.fields).Err?
      || (var src := Source(payload.fields).value;
          var labels, annotations := GetOr(src, "labels", Obj(map[])), GetOr(src, "annotations", Obj(map[]));
          || !annotations.Obj?
          || (!Truthy(Get(annotations.fields, "summary")) && !labels.Obj?))
  {
  }

  /** A truthy summary annotation makes any `labels` value acceptable. */
  lemma LabelsReadLazily(payload: JSON, hostOffset: int)
    requires payload.Obj? && Source(payload.fields).Ok?
    requires var src := Source(payload.fields).value;
      "annotations" in src && src["annotations"].Obj?
      && Truthy(Get(src["annotations"].fields, "summary"))
    ensures Normalize(payload, hostOffset).Ok?
  {
  }
}
