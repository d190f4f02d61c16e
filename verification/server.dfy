/** The caching web front of `server.py`: a cache holding the last good
    forecast and the time of the last fetch attempt, an hourly refresher whose
    sleep is measured from the start of each cycle, the HTML rendering (one
    header line, then one line per forecast row with a label and a progress
    bar), and the request handler that fetches only when the cache is empty.

    The lock around the cache, the server threads and the sockets are not part
    of this model: every operation here runs alone. */
module Server {
  import opened Wrappers
  import Rain

  type Point = Rain.Point

  const TITLE: string := "Precipitation probability"

  /** Seconds from the start of one refresh cycle to the start of the next. */
  const REFRESH_PERIOD: real := 3600.0

  /** A line of the page: the "Last update" header, or one forecast row with
      its time, its label and the value of its progress bar (out of 100). */
  datatype Line = Header(updated: int) | Row(ts: int, text: string, bar: int)

  /** The HTTP answer: a status code and, for 200, the page. */
  datatype Response = Response(status: int, title: string, lines: seq<Line>)

  // ---------------------------------------------------------------------
  // render_html
  // ---------------------------------------------------------------------

  /** The row for one forecast point: "N/A" and an empty bar for a missing
      probability, otherwise "<prob>%" and a bar filled to the probability. */
  function RowFor(pt: Point): Line
  {
    match pt.prob
    case None => Row(pt.ts, Rain.Label(pt.prob), 0)
    case Some(p) => Row(pt.ts, Rain.Label(pt.prob), p)
  }

  /** The row is honest about its point: the label is "N/A" exactly when the
      probability is missing, the bar then is empty, and otherwise the bar is
      the probability itself (so within 0..100 for a probability in 0..100). */
  lemma RowForFacts(pt: Point)
    ensures RowFor(pt).ts == pt.ts
    ensures RowFor(pt).text == "N/A" <==> pt.prob.None?
    ensures pt.prob.None? ==> RowFor(pt).bar == 0
    ensures pt.prob.Some? ==> RowFor(pt).bar == pt.prob.value
    ensures pt.prob.Some? && 0 <= pt.prob.value <= 100 ==> 0 <= RowFor(pt).bar <= 100
  {
    Rain.LabelInjective(pt.prob, None);
  }

  /** `lines` is the page for `forecast`: the header with the update time, then
      exactly one row per point, in the forecast's order. */
  ghost predicate Renders(lines: seq<Line>, forecast: seq<Point>, updated: int)
  {
    && |lines| == |forecast| + 1
    && lines[0] == Header(updated)
    && forall i :: 0 <= i < |forecast| ==> lines[i + 1] == RowFor(forecast[i])
  }

  /** `render_html`. */
  method RenderHtml(forecast: seq<Point>, lastUpdated: int) returns (lines: seq<Line>)
    ensures Renders(lines, forecast, lastUpdated)
  {
    lines := [Header(lastUpdated)];
    for i := 0 to |forecast|
      invariant |lines| == i + 1 && lines[0] == Header(lastUpdated)
      invariant forall k :: 0 <= k < i ==> lines[k + 1] == RowFor(forecast[k])
    {
      var pt := forecast[i];
      var text, value;
      if pt.prob.None? {
        text, value := "N/A", 0;
      } else {
        text, value := Rain.Label(pt.prob), pt.prob.value;
      }
      lines := lines + [Row(pt.ts, text, value)];
    }
  }

  // ---------------------------------------------------------------------
  // The cache and fetch_and_cache
  // ---------------------------------------------------------------------

  /** `CACHE` and `LAST_UPDATED`. */
  class Cache {
    var series: seq<Point>
    var lastUpdated: Option<int>

    /** Only a fetch fills the series, and every fetch stamps the time. */
    ghost predicate Valid()
      reads this
    {
      series != [] ==> lastUpdated.Some?
    }

    /** The state at start-up: `CACHE = []`, `LAST_UPDATED = None`. */
    constructor ()
      ensures Valid() && series == [] && lastUpdated == None
    {
      series := [];
      lastUpdated := None;
    }

    /** `fetch_and_cache`: a successful fetch replaces the series wholesale; a
        failed one keeps the last good series. Either way the attempt is
        stamped with the time it finished, and no failure escapes. */
    method FetchAndCache(up: Rain.Upstream, parse: string -> Option<int>, numHours: int,
                         requestedAt: int, completedAt: int)
      requires Valid()
      modifies this
      ensures Valid()
      ensures lastUpdated == Some(completedAt)
      ensures series == match Rain.Forecast(up, parse, Rain.ForecastWindow(requestedAt, numHours))
                        case Success(data) => data
                        case Failure(_) => old(series)
    {
      var fetched := Rain.RainProbabilityNext(up, parse, requestedAt, numHours);
      if fetched.Success? {
        series := fetched.value;
      }
      lastUpdated := Some(completedAt);
    }

    /** The copy taken under the lock: `list(CACHE)` and `LAST_UPDATED`. */
    method Snapshot() returns (forecast: seq<Point>, last: Option<int>)
      ensures forecast == series && last == lastUpdated
    {
      forecast, last := series, lastUpdated;
    }
  }

  // ---------------------------------------------------------------------
  // refresher
  // ---------------------------------------------------------------------

  /** `max(0, start + 3600 - now)`: never negative, never more than an hour
      when the clock has not gone back, and when the cycle took less than an
      hour the sleep ends exactly one hour after the cycle began. */
  function SleepSeconds(start: real, now: real): (s: real)
    ensures s >= 0.0
    ensures now >= start ==> s <= REFRESH_PERIOD
    ensures now <= start + REFRESH_PERIOD ==> now + s == start + REFRESH_PERIOD
    ensures now >= start + REFRESH_PERIOD ==> s == 0.0
  {
    var remaining := start + REFRESH_PERIOD - now;
    if remaining > 0.0 then remaining else 0.0
  }

  /** One pass of the `while True` loop of `refresher`: fetch into the cache,
      then compute how long to sleep. */
  method RefreshCycle(cache: Cache, start: real, up: Rain.Upstream, parse: string -> Option<int>, numHours: int,
                      requestedAt: int, completedAt: int, now: real) returns (sleep: real)
    requires cache.Valid()
    modifies cache
    ensures cache.Valid()
    ensures cache.lastUpdated == Some(completedAt)
    ensures cache.series == match Rain.Forecast(up, parse, Rain.ForecastWindow(requestedAt, numHours))
                            case Success(data) => data
                            case Failure(_) => old(cache.series)
    ensures sleep == SleepSeconds(start, now)
  {
    cache.FetchAndCache(up, parse, numHours, requestedAt, completedAt);
    sleep := SleepSeconds(start, now);
  }

  /** A run of the refresher: cycle `k` starts at `starts[k]`, its fetch is done
      at `finishes[k]`, and the next cycle starts when the sleep ends. */
  ghost predicate Schedule(starts: seq<real>, finishes: seq<real>)
  {
    && |starts| == |finishes|
    && forall k :: 0 <= k < |starts| - 1 ==> starts[k + 1] == finishes[k] + SleepSeconds(starts[k], finishes[k])
  }

  /** The refresher never runs early: cycle `k` starts at least `k` hours after
      the first one. */
  lemma {:induction false} NeverEarly(starts: seq<real>, finishes: seq<real>, k: nat)
    requires Schedule(starts, finishes) && k < |starts|
    ensures starts[k] >= starts[0] + k as real * REFRESH_PERIOD
  {
    if k > 0 {
      NeverEarly(starts, finishes, k - 1);
      var s := SleepSeconds(starts[k - 1], finishes[k - 1]);
      assert finishes[k - 1] + s >= starts[k - 1] + REFRESH_PERIOD;
    }
  }

  /** No drift: while every fetch finishes within its hour, cycle `k` starts
      exactly `k` hours after the first one. */
  lemma {:induction false} NoDrift(starts: seq<real>, finishes: seq<real>, k: nat)
    requires Schedule(starts, finishes) && k < |starts|
    requires forall j :: 0 <= j < k ==> finishes[j] <= starts[j] + REFRESH_PERIOD
    ensures starts[k] == starts[0] + k as real * REFRESH_PERIOD
  {
    if k > 0 {
      NoDrift(starts, finishes, k - 1);
      assert finishes[k - 1] <= starts[k - 1] + REFRESH_PERIOD;
    }
  }

  // ---------------------------------------------------------------------
  // Handler.do_GET
  // ---------------------------------------------------------------------

  /** `Handler.do_GET`: snapshot the cache; only when the snapshot is empty,
      fetch into the cache and snapshot again; render with the update time
      (falling back to the clock when there is none). `fetch_and_cache`
      swallows every failure, so the answer is always 200. */
  method HandleGet(cache: Cache, up: Rain.Upstream, parse: string -> Option<int>, numHours: int,
                   requestedAt: int, completedAt: int, clock: int) returns (resp: Response)
    requires cache.Valid()
    modifies cache
    ensures cache.Valid()
    ensures resp.status == 200 && resp.title == TITLE
    ensures old(cache.series) != [] ==> cache.series == old(cache.series) && cache.lastUpdated == old(cache.lastUpdated)
    ensures old(cache.series) == [] ==>
              && cache.lastUpdated == Some(completedAt)
              && cache.series == match Rain.Forecast(up, parse, Rain.ForecastWindow(requestedAt, numHours))
                                 case Success(data) => data
                                 case Failure(_) => []
    ensures cache.lastUpdated.Some? && Renders(resp.lines, cache.series, cache.lastUpdated.value)
  {
    var forecast, last := cache.Snapshot();
    if forecast == [] {
      cache.FetchAndCache(up, parse, numHours, requestedAt, completedAt);
      forecast, last := cache.Snapshot();
    }
    var updated := if last.Some? then last.value else clock;
    var lines := RenderHtml(forecast, updated);
    resp := Response(200, TITLE, lines);
  }
}
