/** The web front of `server_dmi.py`: on every request to "/" the hourly DMI
    series is fetched afresh, cut to the hours still ahead, and rendered as an
    HTML page whose unit (probability or millimetres) is guessed from the
    first value; any other path is answered with 404. */
module ServerDmi {
  import opened Wrappers
  import opened Seqs
  import RainDmi

  type Entry = RainDmi.Entry

  const TITLE: string := "Rain Forecast"

  // ---------------------------------------------------------------------
  // get_rain_forecast
  // ---------------------------------------------------------------------

  /** What `get_rain_forecast` returns for an outcome of
      `probe_and_get_entries`: nothing when it raised, found nothing or found
      no entries, otherwise the hourly amounts at or after `now`. */
  function ForecastFrom(outcome: Result<(seq<Entry>, bool), RainDmi.DmiError>, now: int): seq<Entry>
  {
    match outcome
    case Failure(_) => []
    case Success((entries, found)) =>
      if !found || entries == [] then [] else Filter(RainDmi.Hourly(entries), RainDmi.IsFuture(now))
  }

  /** `get_rain_forecast`, with the clock reading `now` and the DMI answers as
      inputs. Every failure is swallowed into an empty forecast. */
  method GetRainForecast(apiKey: string, up: RainDmi.Upstream, p: RainDmi.Parsers, now: int)
    returns (forecast: seq<Entry>)
    ensures forecast == ForecastFrom(RainDmi.ProbeOutcome(apiKey, up, p), now)
    ensures apiKey == "" ==> forecast == []
  {
    var r := RainDmi.ProbeAndGetEntries(apiKey, up, p);
    if r.Failure? {
      return [];
    }
    var (entries, found) := r.value;
    if !found || entries == [] {
      return [];
    }
    var hourly := RainDmi.ConvertToHourly(entries);
    forecast := Filter(hourly, RainDmi.IsFuture(now));
  }

  /** The forecast is the hourly series of the entries found, cut to the hours
      at or after `now`: an entry is in it exactly when it is such an hourly
      amount, it is time-ordered, and once two or more samples were found every
      amount is a clamped rate and so never negative. */
  lemma ForecastFacts(apiKey: string, up: RainDmi.Upstream, p: RainDmi.Parsers, now: int)
    ensures var outcome := RainDmi.ProbeOutcome(apiKey, up, p);
      var f := ForecastFrom(outcome, now);
      && (forall e :: e in f <==> outcome.Success? && e in RainDmi.Hourly(outcome.value.0) && e.ts >= now)
      && RainDmi.Sorted(f)
      && (outcome.Success? && |outcome.value.0| >= 2 ==> forall k :: 0 <= k < |f| ==> f[k].value >= 0.0)
  {
    var outcome := RainDmi.ProbeOutcome(apiKey, up, p);
    RainDmi.ProbeOutcomeSorted(apiKey, up, p);
    if outcome.Success? {
      var entries := outcome.value.0;
      var h := RainDmi.Hourly(entries);
      var g := Filter(h, RainDmi.IsFuture(now));
      assert ForecastFrom(outcome, now) == g by {
        if entries == [] {
          assert h == [];
        }
      }
      FilterMembers(h, RainDmi.IsFuture(now));
      RainDmi.HourlySorted(entries);
      RainDmi.FilterKeepsSorted(h, RainDmi.IsFuture(now));
      if |entries| >= 2 {
        RainDmi.HourlyNonNegative(entries);
        forall k | 0 <= k < |g|
          ensures g[k].value >= 0.0
        {
          assert g[k] in h;
        }
      }
    }
  }

  // ---------------------------------------------------------------------
  // render_html
  // ---------------------------------------------------------------------

  /** One `(ts, value)` pair handed to `render_html`; the value may be `None`. */
  datatype Reading = Reading(ts: int, value: Option<real>)

  /** The value label: "N/A", `value*100` shown as a percentage, or the value
      shown in millimetres. */
  datatype ValueText = NotAvailable | Percent(x: real) | Millimetres(x: real)

  /** A line of the page: the "Last update" header, or one row with its time,
      its value label and the value of its progress bar (out of 100). */
  datatype Line = Header(updated: int) | Row(ts: int, text: ValueText, bar: real)

  /** `None <= 1` raises `TypeError` when the first value is missing. */
  datatype RenderError = NoneComparedWithNumber

  /** The HTTP answer: status, page title or error message, and the page. */
  datatype Response = Response(status: int, message: string, lines: seq<Line>)

  /** The unit guess: probabilities when the first value is at most 1. */
  predicate ProbabilityMode(forecast: seq<Reading>)
  {
    forecast != [] && forecast[0].value.Some? && forecast[0].value.value <= 1.0
  }

  /** The progress value: a probability fraction scaled to a percentage, an
      amount in millimetres scaled by ten and capped at 100. */
  function Bar(isProbability: bool, x: real): real
  {
    if isProbability then x * 100.0
    else if 100.0 < x * 10.0 then 100.0 else x * 10.0
  }

  function RowFor(isProbability: bool, r: Reading): Line
  {
    match r.value
    case None => Row(r.ts, NotAvailable, 0.0)
    case Some(x) => Row(r.ts, if isProbability then Percent(x * 100.0) else Millimetres(x), Bar(isProbability, x))
  }

  /** `lines` is the page for `forecast` in the given unit: the header, then
      one row per reading, in order. */
  ghost predicate Renders(lines: seq<Line>, forecast: seq<Reading>, updated: int, isProbability: bool)
  {
    && |lines| == |forecast| + 1
    && lines[0] == Header(updated)
    && forall i :: 0 <= i < |forecast| ==> lines[i + 1] == RowFor(isProbability, forecast[i])
  }

  /** `render_html`: fails exactly when the first reading has no value;
      otherwise one row per reading, all in the unit the first value decides. */
  method RenderHtml(forecast: seq<Reading>, lastUpdated: int) returns (r: Result<seq<Line>, RenderError>)
    ensures r.Failure? <==> forecast != [] && forecast[0].value.None?
    ensures r.Success? ==> Renders(r.value, forecast, lastUpdated, ProbabilityMode(forecast))
  {
    var lines := [Header(lastUpdated)];
    var isProbability := false;
    if forecast != [] {
      if forecast[0].value.None? {
        return Failure(NoneComparedWithNumber);
      }
      if forecast[0].value.value <= 1.0 {
        isProbability := true;
      }
    }
    for i := 0 to |forecast|
      invariant |lines| == i + 1 && lines[0] == Header(lastUpdated)
      invariant forall k :: 0 <= k < i ==> lines[k + 1] == RowFor(isProbability, forecast[k])
    {
      var reading := forecast[i];
      var text, progress;
      if reading.value.None? {
        text, progress := NotAvailable, 0.0;
      } else {
        var x := reading.value.value;
        if isProbability {
          text, progress := Percent(x * 100.0), x * 100.0;
        } else {
          text := Millimetres(x);
          progress := if 100.0 < x * 10.0 then 100.0 else x * 10.0;
        }
      }
      lines := lines + [Row(reading.ts, text, progress)];
    }
    return Success(lines);
  }

  /** The bar stays on its 0..100 scale for a fraction in probability mode and
      for any non-negative amount in millimetre mode, where it is full exactly
      from 10 mm on. */
  lemma BarScale(x: real)
    ensures 0.0 <= x <= 1.0 ==> 0.0 <= Bar(true, x) <= 100.0
    ensures 0.0 <= x ==> 0.0 <= Bar(false, x) <= 100.0
    ensures Bar(false, x) == 100.0 <==> x >= 10.0
    ensures x < 10.0 ==> Bar(false, x) == x * 10.0
  {
  }

  /** When every reading is a fraction, the page is in probability mode and
      every bar is on its 0..100 scale. */
  lemma FractionsRenderAsPercent(forecast: seq<Reading>)
    requires forecast != []
    requires forall i :: 0 <= i < |forecast| ==>
               forecast[i].value.Some? && 0.0 <= forecast[i].value.value <= 1.0
    ensures ProbabilityMode(forecast)
    ensures forall i :: 0 <= i < |forecast| ==>
              RowFor(true, forecast[i]).text == Percent(forecast[i].value.value * 100.0) &&
              0.0 <= RowFor(true, forecast[i]).bar <= 100.0
  {
    forall i | 0 <= i < |forecast|
      ensures 0.0 <= RowFor(true, forecast[i]).bar <= 100.0
    {
      BarScale(forecast[i].value.value);
    }
  }

  /** Only the first value decides the unit: after a first value of at most 1,
      every later amount is shown as a percentage, so any amount above 1 gets a
      bar beyond the progress element's maximum of 100. */
  lemma FirstValueDecides(forecast: seq<Reading>, i: nat)
    requires ProbabilityMode(forecast)
    requires i < |forecast| && forecast[i].value.Some? && forecast[i].value.value > 1.0
    ensures RowFor(ProbabilityMode(forecast), forecast[i]).text == Percent(forecast[i].value.value * 100.0)
    ensures RowFor(ProbabilityMode(forecast), forecast[i]).bar > 100.0
  {
  }

  // ---------------------------------------------------------------------
  // RainForecastHandler.do_GET
  // ---------------------------------------------------------------------

  /** The `(ts, value)` pairs of a fetched forecast, every value present. */
  function Readings(forecast: seq<Entry>): (rs: seq<Reading>)
    ensures |rs| == |forecast|
    ensures forall i :: 0 <= i < |rs| ==> rs[i] == Reading(forecast[i].ts, Some(forecast[i].value))
  {
    seq(|forecast|, i requires 0 <= i < |forecast| => Reading(forecast[i].ts, Some(forecast[i].value)))
  }

  /** `RainForecastHandler.do_GET`: "/" always answers 200 with the page of a
      freshly fetched forecast, whatever the upstream did (a fetched forecast
      has every value present, so rendering cannot fail); any other path
      answers 404. */
  method HandleRequest(path: string, apiKey: string, up: RainDmi.Upstream, p: RainDmi.Parsers, now: int, clock: int)
    returns (resp: Response)
    ensures path != "/" ==> resp == Response(404, "File not found", [])
    ensures path == "/" ==>
              && resp.status == 200 && resp.message == TITLE
              && var forecast := Readings(ForecastFrom(RainDmi.ProbeOutcome(apiKey, up, p), now));
                 Renders(resp.lines, forecast, clock, ProbabilityMode(forecast))
    ensures path == "/" && apiKey == "" ==> resp.lines == [Header(clock)]
  {
    if path != "/" {
      return Response(404, "File not found", []);
    }
    var forecast := GetRainForecast(apiKey, up, p, now);
    var rendered := RenderHtml(Readings(forecast), clock);
    assert rendered.Success?;
    resp := Response(200, TITLE, rendered.value);
  }
}
