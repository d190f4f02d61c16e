/** The hourly precipitation-probability window of `rain.py`: the window
    starts at the top of the next hour and spans the requested number of
    hours; the parallel `time` and `precipitation_probability` arrays are
    zipped, kept when inside the window, and the probabilities truncated to
    integers. Timestamps are local wall-clock seconds; reading an ISO-8601 time
    is the parameter `parse`. */
module Rain {
  import opened Wrappers
  import opened Seqs
  import Text

  const SECONDS_PER_HOUR: int := 3600

  /** One forecast row: `(ts, int(p))`, or `(ts, None)` for a null probability. */
  datatype Point = Point(ts: int, prob: Option<int>)

  /** The answer of the forecast API: the request failed (network error or an
      error status), or the two parallel arrays of the `hourly` member. */
  datatype Upstream = Unreachable(reason: string) | Hourly(times: seq<string>, probs: seq<Option<real>>)

  /** The inclusive window `[start, end]` of rows to keep. */
  datatype Window = Window(start: int, end: int)

  /** `now` rounded down to the hour, plus one hour; `end` is `numHours` hours later. */
  function ForecastWindow(now: int, numHours: int): (w: Window)
    ensures w.start % SECONDS_PER_HOUR == 0
    ensures now < w.start <= now + SECONDS_PER_HOUR
    ensures w.end - w.start == numHours * SECONDS_PER_HOUR
  {
    var start := now - now % SECONDS_PER_HOUR + SECONDS_PER_HOUR;
    Window(start, start + numHours * SECONDS_PER_HOUR)
  }

  /** Python's `int(x)` on a float: truncation toward zero. */
  function Truncate(x: real): (n: int)
    ensures 0.0 <= x ==> n as real <= x < n as real + 1.0
    ensures x < 0.0 ==> n as real - 1.0 < x <= n as real
  {
    if x >= 0.0 then x.Floor else -((-x).Floor)
  }

  /** `int(p) if p is not None else None`. */
  function ToPercent(p: Option<real>): Option<int>
  {
    match p
    case None => None
    case Some(x) => Some(Truncate(x))
  }

  /** Every one of the first `n` time strings parses. */
  predicate AllParse(times: seq<string>, n: nat, parse: string -> Option<int>)
    requires n <= |times|
  {
    forall i :: 0 <= i < n ==> parse(times[i]).Some?
  }

  /** The first `n` pairs of `zip(times, probs)`, each time parsed and each
      probability converted. */
  function Zipped(times: seq<string>, probs: seq<Option<real>>, parse: string -> Option<int>, n: nat): (z: seq<Point>)
    requires n <= |times| && n <= |probs| && AllParse(times, n, parse)
    ensures |z| == n
  {
    if n == 0 then []
    else Zipped(times, probs, parse, n - 1) + [Point(parse(times[n - 1]).value, ToPercent(probs[n - 1]))]
  }

  function InWindow(w: Window): Point -> bool
  {
    (pt: Point) => w.start <= pt.ts <= w.end
  }

  /** What `rain_probability_next` returns or raises for an API answer, once the
      window is fixed: the fetch error, a failure on the first time string that
      does not parse, or the zipped rows that fall inside the window. */
  function Forecast(up: Upstream, parse: string -> Option<int>, w: Window): Result<seq<Point>, string>
  {
    match up
    case Unreachable(reason) => Failure(reason)
    case Hourly(times, probs) =>
      var n := Min(|times|, |probs|);
      if !AllParse(times, n, parse) then Failure("invalid isoformat string")
      else Success(Filter(Zipped(times, probs, parse, n), InWindow(w)))
  }

  /** `rain_probability_next`, with the clock reading `now` and the API answer as inputs. */
  method RainProbabilityNext(up: Upstream, parse: string -> Option<int>, now: int, numHours: int)
    returns (r: Result<seq<Point>, string>)
    ensures r == Forecast(up, parse, ForecastWindow(now, numHours))
  {
    var w := ForecastWindow(now, numHours);
    if up.Unreachable? {
      return Failure(up.reason);
    }
    var times, probs := up.times, up.probs;
    var n := Min(|times|, |probs|);
    var forecast: seq<Point> := [];
    var i := 0;
    while i < n
      invariant 0 <= i <= n
      invariant AllParse(times, i, parse)
      invariant forecast == Filter(Zipped(times, probs, parse, i), InWindow(w))
    {
      var parsed := parse(times[i]);
      if parsed.None? {
        return Failure("invalid isoformat string");
      }
      var pt := Point(parsed.value, ToPercent(probs[i]));
      assert AllParse(times, i + 1, parse);
      assert Zipped(times, probs, parse, i + 1) == Zipped(times, probs, parse, i) + [pt];
      FilterSnoc(Zipped(times, probs, parse, i), pt, InWindow(w));
      if w.start <= pt.ts <= w.end {
        forecast := forecast + [pt];
      }
      i := i + 1;
    }
    return Success(forecast);
  }

  /** A successful result: never longer than the shorter array (zip truncates),
      every row inside the window, bounds included, and every row the
      conversion of one zipped position, positions strictly increasing (so the
      order of `times` is kept), with every in-window position present. */
  lemma ForecastRows(up: Upstream, parse: string -> Option<int>, w: Window) returns (idx: seq<nat>)
    requires Forecast(up, parse, w).Success?
    ensures var rows := Forecast(up, parse, w).value;
      && up.Hourly?
      && |rows| <= Min(|up.times|, |up.probs|)
      && (forall k :: 0 <= k < |rows| ==> w.start <= rows[k].ts <= w.end)
      && |idx| == |rows|
      && (forall k :: 0 <= k < |rows| ==>
            idx[k] < Min(|up.times|, |up.probs|) &&
            parse(up.times[idx[k]]).Some? &&
            rows[k] == Point(parse(up.times[idx[k]]).value, ToPercent(up.probs[idx[k]])))
      && (forall k, l :: 0 <= k < l < |idx| ==> idx[k] < idx[l])
      && (forall i :: 0 <= i < Min(|up.times|, |up.probs|) && w.start <= parse(up.times[i]).value <= w.end ==> i in idx)
  {
    var n := Min(|up.times|, |up.probs|);
    var z := Zipped(up.times, up.probs, parse, n);
    FilterMembers(z, InWindow(w));
    idx := FilterOrigins(z, InWindow(w));
    var rows := Forecast(up, parse, w).value;
    forall k | 0 <= k < |rows|
      ensures w.start <= rows[k].ts <= w.end
    {
      assert rows[k] in rows;
    }
    forall k | 0 <= k < |rows|
      ensures rows[k] == Point(parse(up.times[idx[k]]).value, ToPercent(up.probs[idx[k]]))
    {
      ZippedAt(up.times, up.probs, parse, n, idx[k]);
    }
    forall i | 0 <= i < n && w.start <= parse(up.times[i]).value <= w.end
      ensures i in idx
    {
      ZippedAt(up.times, up.probs, parse, n, i);
    }
  }

  lemma {:induction false} ZippedAt(times: seq<string>, probs: seq<Option<real>>, parse: string -> Option<int>, n: nat, i: nat)
    requires n <= |times| && n <= |probs| && AllParse(times, n, parse) && i < n
    ensures Zipped(times, probs, parse, n)[i] == Point(parse(times[i]).value, ToPercent(probs[i]))
  {
    if i < n - 1 {
      ZippedAt(times, probs, parse, n - 1, i);
    }
  }

  /** The label `print_probabilities` prints and `server.py` renders:
      `"N/A"` for a missing probability, else the integer followed by `%`. */
  function Label(prob: Option<int>): string
  {
    match prob
    case None => "N/A"
    case Some(n) => Text.IntToString(n) + "%"
  }

  /** Labels tell rows apart: "N/A" only for a missing probability, and two
      percentages get the same label only when they are equal. */
  lemma LabelInjective(a: Option<int>, b: Option<int>)
    ensures Label(a) == Label(b) <==> a == b
  {
    if Label(a) == Label(b) && a.Some? && b.Some? {
      var sx, sy := Text.IntToString(a.value), Text.IntToString(b.value);
      assert sx == (sx + "%")[..|sx|];
      assert sy == (sy + "%")[..|sy|];
      Text.IntToStringRoundTrip(a.value);
      Text.IntToStringRoundTrip(b.value);
    } else if a.Some? != b.Some? {
      var shown := if a.Some? then Label(a) else Label(b);
      assert shown[|shown| - 1] == '%' && "N/A"[2] == 'A';
    }
  }
}
