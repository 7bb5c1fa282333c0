/** The `YT_METRICS=` line an eval script prints, and the threshold test
    applied to it. JSON decoding is not modelled: `decode` stands for
    `json.loads` and answers `None` on a decode error. */
module Metrics {
  import opened Base
  import opened Text

  /** A JSON value as the threshold test sees it. `true`/`false` compare as
      1/0 (Python's `bool` is an `int`); anything else that is not a number
      (null, a string, a list, an object) makes the comparison raise. */
  datatype JValue = Num(x: real) | Flag(b: bool) | NonNumber(truthy: bool)

  /** A decoded payload: an object, or some other JSON value with its
      Python truthiness. */
  datatype Json = Object(fields: map<string, JValue>) | NonObject(truthy: bool)

  /** Python truthiness of a decoded payload (`if not metrics`). */
  predicate JsonTruthy(j: Json) {
    match j
    case Object(f) => |f| > 0
    case NonObject(t) => t
  }

  predicate ValueTruthy(v: JValue) {
    match v
    case Num(x) => x != 0.0
    case Flag(b) => b
    case NonNumber(t) => t
  }

  const MetricsPrefix: string := "YT_METRICS="

  predicate IsMetricsLine(line: string) {
    StartsWith(line, MetricsPrefix)
  }

  /** The text after the first "=", stripped. */
  function Payload(line: string): string {
    Strip(AfterFirst(line, '='))
  }

  /** `parse_metrics(output)`: only the first `YT_METRICS=` line is looked
      at; its payload is decoded, and a decode error is final. */
  function ParseMetrics(output: string, decode: string -> Option<Json>): (r: Option<Json>)
    ensures var lines := SplitLines(output);
            (forall j :: 0 <= j < |lines| ==> !IsMetricsLine(lines[j])) ==> r.None?
    ensures var lines := SplitLines(output);
            forall i :: 0 <= i < |lines| && IsMetricsLine(lines[i])
                        && (forall j :: 0 <= j < i ==> !IsMetricsLine(lines[j]))
                        ==> r == decode(Payload(lines[i]))
  {
    var lines := SplitLines(output);
    match FirstWhere(lines, IsMetricsLine)
    case None => None
    case Some(k) =>
      assert forall i :: (0 <= i < |lines| && IsMetricsLine(lines[i])
                          && (forall j :: 0 <= j < i ==> !IsMetricsLine(lines[j]))) ==> i == k;
      decode(Payload(lines[k]))
  }

  /** A metrics line written first in the output is the one decoded,
      whatever the later lines hold. */
  lemma ParseMetricsFirstLine(payload: string, rest: string, decode: string -> Option<Json>)
    requires SingleLine(payload)
    ensures ParseMetrics(MetricsPrefix + payload + "\n" + rest, decode) == decode(Strip(payload))
  {
    var line := MetricsPrefix + payload;
    assert SingleLine(line) by {
      forall k | 0 <= k < |line| ensures line[k] != '\n' {
        if k >= |MetricsPrefix| {
          assert line[k] == payload[k - |MetricsPrefix|];
        }
      }
    }
    SplitLinesAppend(line, rest);
    assert IndexOf(line, '\n') == |line|;
    assert SplitLines(line + "\n" + rest)[0] == line;
    assert line == "YT_METRICS" + ['='] + payload;
    IndexOfConcat("YT_METRICS", '=', payload);
    assert AfterFirst(line, '=') == payload;
  }

  /** `metrics.get(key, 0)`. */
  function Metric(fields: map<string, JValue>, key: string): JValue {
    if key in fields then fields[key] else Num(0.0)
  }

  /** `value >= threshold`, or `None` when the comparison raises. */
  function AtLeast(v: JValue, threshold: real): Option<bool> {
    match v
    case Num(x) => Some(x >= threshold)
    case Flag(b) => Some((if b then 1.0 else 0.0) >= threshold)
    case NonNumber(_) => None
  }

  const TypeErrorMessage: string := "'>=' not supported between the metric and its threshold"
  const NotObjectMessage: string := "metrics payload has no attribute 'get'"

  /** `_metrics_ok(metrics, top1_min, top5_min)`: both scores at their
      thresholds, a missing score counting as 0. The `and` short-circuits:
      top5 is not looked at once top1 fails. Non-object metrics and
      non-numeric scores raise. */
  function MetricsOk(m: Json, top1Min: real, top5Min: real): (r: Result<bool>)
    ensures m.NonObject? ==> r.Err?
    ensures m.Object? && AtLeast(Metric(m.fields, "top1"), top1Min) == Some(false) ==> r == Ok(false)
    ensures r == Ok(true) <==>
              m.Object? && AtLeast(Metric(m.fields, "top1"), top1Min) == Some(true)
              && AtLeast(Metric(m.fields, "top5"), top5Min) == Some(true)
    ensures r.Err? <==>
              m.NonObject? || AtLeast(Metric(m.fields, "top1"), top1Min).None?
              || (AtLeast(Metric(m.fields, "top1"), top1Min) == Some(true) && AtLeast(Metric(m.fields, "top5"), top5Min).None?)
  {
    match m
    case NonObject(_) => Err(NotObjectMessage)
    case Object(f) =>
      match AtLeast(Metric(f, "top1"), top1Min)
      case None => Err(TypeErrorMessage)
      case Some(false) => Ok(false)
      case Some(true) =>
        match AtLeast(Metric(f, "top5"), top5Min)
        case None => Err(TypeErrorMessage)
        case Some(b) => Ok(b)
  }

  /** With positive thresholds, metrics lacking a score never pass. */
  lemma MissingScoreFails(f: map<string, JValue>, top1Min: real, top5Min: real)
    requires top1Min > 0.0 && top5Min > 0.0
    requires "top1" !in f || "top5" !in f
    ensures MetricsOk(Object(f), top1Min, top5Min) != Ok(true)
  {
  }

  /** Numeric scores never raise, and pass exactly at or above both
      thresholds. */
  lemma NumericScores(top1: real, top5: real, rest: map<string, JValue>, top1Min: real, top5Min: real)
    ensures var f := rest["top1" := Num(top1)]["top5" := Num(top5)];
            MetricsOk(Object(f), top1Min, top5Min) == Ok(top1 >= top1Min && top5 >= top5Min)
  {
    var f := rest["top1" := Num(top1)]["top5" := Num(top5)];
    assert Metric(f, "top1") == Num(top1);
    assert Metric(f, "top5") == Num(top5);
  }
}
