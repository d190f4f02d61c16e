# Rain forecast core, modelled in Dafny

This project models the data-shaping core of a small weather-forecast tool.

The tool has two data sources:
- a generic hourly precipitation-probability API (`rain.py`, served by `server.py`);
- the Danish Meteorological Institute's point-forecast API (`rain_dmi.py`, served by `server_dmi.py`).

The model covers:
- **`rain_dmi.py`**:
  - finding the precipitation property in a GeoJSON answer;
  - turning features into a time-ordered `(ts, value)` series;
  - differencing a cumulative series into clamped hourly rates;
  - the probe-then-candidates choice of which answer to use;
  - the "rain today" summary: today's upcoming hours, unit inference, thresholds, peak, average and at most twelve rows.
- **`rain.py`**: the zip / inclusive-window / `int()` loop of `rain_probability_next` and its label rule.
- **`server.py`**:
  - the cache with "last good value" semantics;
  - the hourly refresher and its drift-free sleep;
  - the fetch-only-when-empty request handler;
  - the page rendering.
- **`server_dmi.py`**:
  - forecast selection (empty on any failure, else the future hourly amounts);
  - rendering with the unit guessed from the first value;
  - routing.

Modelling conventions:
- Timestamps are whole seconds on one local time line; values are `real`.
- Reading an ISO-8601 time and `float()` of a string are parameters that may fail.
- Each HTTP answer is a value of a datatype: the request raised, the status was not OK, the body is malformed, or the body itself.
- Exceptions are the `Failure` side of a `Result`.

Modules, one per file:
- `Wrappers`: `Option` and `Result`.
- `Seqs`: order-keeping `Filter` and `FilterMap`, with their membership and order lemmas.
- `Text`: ASCII lower-casing, substring search, decimal `int` text.
- `RainDmi`, `Rain`, `Server`, `ServerDmi`: the four source files.

Three behaviours of the source are easy to miss:
- **`server.py` never answers 502.** `do_GET` has a 502 branch for a failed inline fetch (server.py:78-83). That branch can never run, because `fetch_and_cache` (server.py:26-35) catches every `Exception`. A request that finds the cache empty and whose fetch fails answers 200 with a page that has only the header (`Server.HandleGet`).
- **`server_dmi.py` decides the unit from the first value only.** `render_html` checks only whether the first value is ≤ 1 (server_dmi.py:34-36; `ServerDmi.ProbabilityMode`). After a first value of at most 1, a later millimetre amount above 1 is shown as a percentage, and its bar goes above the maximum of 100 (`ServerDmi.FirstValueDecides`). `rain_today_warning`, by contrast, checks every value (`RainDmi.SummaryFigures`).
- **The candidate-name fallback of `rain_dmi.py` never fires.** When a candidate answer holds no precipitation key, `probe_and_get_entries` falls back to the candidate's own name if the first feature has that property (rain_dmi.py:91-95). The only candidate is "total-precipitation" (rain_dmi.py:7). That name itself contains "precip", so `_find_precip_key` (rain_dmi.py:16-27) would already have returned a key from that same feature (`RainDmi.NameFallbackUnreachable`, `RainDmi.CandidateNamesPrecipitation`). The fallback is modelled as written, for any candidate name. `RainDmi.CandidateFallsBackToName` shows what it does for a name that does not itself name precipitation.

## Model

| member | source | states |
|---|---|---|
| RainDmi.FindPrecipKeySpec | rain_dmi.py:16-27 | A `features` value that is not a list gives None. For a list, the result is the first key, in feature order then key order, whose lower-case form contains "precip", "rain" or "solid". Non-object features contribute no keys. The result is None exactly when no key qualifies. |
| RainDmi.FindKeyInFlattens | rain_dmi.py:19-26 | The early-return loop over features, then over each feature's keys, finds exactly the first qualifying key of the flattened key list. |
| RainDmi.FirstPrecipKeyIsFirst | rain_dmi.py:23-26 | Within a key list: no result exactly when no key qualifies; otherwise the key at the first qualifying position. |
| RainDmi.GetFindsKeys | rain_dmi.py:45 | `props.get(key)` finds a value exactly when the key is among the property keys. |
| RainDmi.GetFindsLast | rain_dmi.py:45 | The value `props.get(key)` finds is the one at the key's last occurrence, because `json.loads` keeps the last of repeated keys. |
| RainDmi.FirstTruthy | rain_dmi.py:34-36 | The time field chosen by the `or` chain over step/datetime/time/validTime is always truthy. |
| RainDmi.FirstTruthyIsFirst | rain_dmi.py:34 | The `or` chain yields nothing exactly when none of step/datetime/time/validTime has a truthy value. Otherwise it yields the value of the first of them, in that order, that has one. |
| RainDmi.CollectMembers | rain_dmi.py:32-51 | At most one entry per feature. An entry is collected exactly when some feature has a truthy string time that parses and a key value that converts to float. |
| RainDmi.ParseFeatures | rain_dmi.py:29-53 | The loop appends the usable features' entries in feature order, then sorts them by time. |
| RainDmi.ParsedFacts | rain_dmi.py:29-53 | The result is sorted by time and no longer than the input. An entry is in it exactly when some feature yields it. |
| RainDmi.SortByTimeSorted | rain_dmi.py:52 | The sort yields non-decreasing timestamps. |
| RainDmi.SortByTimePermutes | rain_dmi.py:52 | The sort is a permutation: same multiset, same length. |
| RainDmi.SortByTimeStable | rain_dmi.py:52 | The sort is stable: entries with equal timestamps keep their input order. |
| RainDmi.ClampAtZero | rain_dmi.py:67 | `max(0, x)` is non-negative, at least `x`, and either `x` or 0. |
| RainDmi.ConvertToHourly | rain_dmi.py:55-69 | Fewer than two entries: the input comes back unchanged. Otherwise: n−1 entries. Entry i carries the time of input i+1 and the non-negative clamped rate from input i to input i+1: the change per hour when time advances, the plain change otherwise. |
| RainDmi.HourlySorted | rain_dmi.py:59-68 | Differencing a time-ordered series keeps it time-ordered. |
| RainDmi.HourlyNonNegative | rain_dmi.py:60-67 | From two samples on, every hourly amount is non-negative. |
| RainDmi.HourlyTelescopes | rain_dmi.py:55-69 | On samples one hour apart whose cumulative value never decreases, the hourly amounts add up to the last value minus the first. |
| RainDmi.ProbeAndGetEntries | rain_dmi.py:71-98 | Agrees with `ProbeOutcome`. An empty API key fails with MissingApiKey before any request. Otherwise, in order: the probe's key; then each candidate's key, falling back to the candidate name when the first feature has that property (which never happens for the shipped candidate); else `([], False)`. The probe request raising or a malformed body fails. |
| RainDmi.CandidateFallsBackToName | rain_dmi.py:90-97 | For any candidate name: a candidate answer with no precipitation key selects the candidate's own name when the first feature is an object having that property. The premise can hold only for a name that does not itself name precipitation, so not for "total-precipitation". |
| RainDmi.PrecipAtNamesPrecipitation | rain_dmi.py:24-25 | A key whose text holds "precip" names precipitation. |
| RainDmi.CandidateNamesPrecipitation | rain_dmi.py:7 | The only candidate, "total-precipitation", itself names precipitation. |
| RainDmi.NameFallbackUnreachable | rain_dmi.py:16-27 | If a name that names precipitation is a property of the first feature, the key search already finds a key. So the name fallback (rain_dmi.py:91-95) never decides for such a name. |
| RainDmi.TryCandidatesIsFirst | rain_dmi.py:80-96 | With the single shipped candidate, the candidate loop decides exactly as that candidate's answer does. |
| RainDmi.ProbeChoiceNext | rain_dmi.py:73-79 | The probe answer passes on to the candidates exactly when its status is not OK or no property names precipitation. |
| RainDmi.CandidateChoiceNext | rain_dmi.py:81-95 | A candidate answer passes on exactly when its request raised, or its status is not OK, or it has no precipitation key and the name fallback does not apply. |
| RainDmi.NotFoundExactly | rain_dmi.py:71-98 | `([], False)` comes back exactly when the API key is set, the probe yields no key and no candidate yields one. |
| RainDmi.ProbeKeyWins | rain_dmi.py:73-79 | A precipitation key found in the probe answer wins: its features are parsed with it and returned with `True`. |
| RainDmi.CandidateKeyUsed | rain_dmi.py:80-96 | After a probe that yields no key, a candidate's list of features that holds a precipitation key is parsed with that key and returned with `True`. |
| RainDmi.CandidateWithoutKeyNotFound | rain_dmi.py:80-98 | After a probe that yields no key, a candidate's list of features without a precipitation key gives `([], False)`: the name fallback never applies to "total-precipitation". |
| RainDmi.ProbeOutcomeSorted | rain_dmi.py:79-98 | Returned entries are always time-ordered, and "not found" comes with no entries. |
| RainDmi.MaxValue | rain_dmi.py:121 | `max(vals)` bounds every value and is one of them. |
| RainDmi.FirstRows | rain_dmi.py:139-147 | The `shown` loop yields exactly the first min(12, n) upcoming entries. |
| RainDmi.RainTodayWarning | rain_dmi.py:100-147 | The report is one of: the raised error, "no entries", "no today entries", "no future entries", or the summary of the upcoming entries. |
| RainDmi.UpcomingFacts | rain_dmi.py:112-116 | The upcoming entries lie in [start of today, end of today), are at or after now, and are time-ordered. |
| RainDmi.SummaryRows | rain_dmi.py:112-147 | The rows shown are at most 12. They are a prefix of today's upcoming hourly entries, time-ordered and inside the window. |
| RainDmi.SummaryFigures | rain_dmi.py:120-137 | The unit is a probability exactly when every value lies in [0, 1]. The peak is the largest value and is one of them. The average is at most the peak. The warning fires exactly when some value reaches the unit's threshold (0.5 or 0.2 mm). |
| Rain.ForecastWindow | rain.py:8-10 | The window starts on an hour boundary, after now and at most one hour later, and spans `num_hours` hours. |
| Rain.Truncate | rain.py:27 | `int(p)` truncates toward zero: the result lies within one unit of `p` on the zero side. |
| Rain.RainProbabilityNext | rain.py:6-29 | Agrees with `Forecast`. A failed fetch fails. A time string that does not parse, among the zipped pairs, fails. Otherwise the result is the zipped rows inside the inclusive window. |
| Rain.ForecastRows | rain.py:21-28 | A successful result is no longer than the shorter array, and every row lies in [start, end]. Each row is the parsed time of one zipped position with its probability truncated, or None kept as None. Positions are strictly increasing, and every in-window position appears. |
| Rain.LabelInjective | rain.py:34 | Labels are "N/A" only for None and "<prob>%" otherwise. Two labels are equal exactly when the probabilities are. |
| Server.RowForFacts | server.py:49-56 | A row keeps its time. Its label is "N/A" exactly for a missing probability, which also gets bar 0. Otherwise the bar is the probability, within 0..100 for a probability in 0..100. |
| Server.RenderHtml | server.py:45-65 | The page is one header line with the update time plus exactly one row per forecast entry, in order. |
| Server.Cache.constructor | server.py:9-11 | The cache starts empty, with no update time. |
| Server.Cache.FetchAndCache | server.py:26-35 | On success the series is replaced wholesale. On failure it is kept. Either way the update time becomes the fetch's completion time, and nothing is raised. |
| Server.Cache.Snapshot | server.py:69-71 | The copy taken under the lock is the current series and update time. |
| Server.SleepSeconds | server.py:41-42 | The sleep is never negative, and at most an hour when the clock has not gone back. When the cycle took at most an hour, the sleep ends exactly one hour after the cycle began. |
| Server.RefreshCycle | server.py:38-43 | One refresher pass: the cache update of `fetch_and_cache`, then the sleep. |
| Server.NeverEarly | server.py:37-43 | Cycle k of the refresher starts at least k hours after the first. |
| Server.NoDrift | server.py:37-43 | While every fetch finishes within its hour, cycle k starts exactly k hours after the first. |
| Server.HandleGet | server.py:68-89 | The handler fetches only when its snapshot is empty, and then re-reads the cache. A non-empty cache is left untouched. The answer is always 200: the update time is always present, and the page renders the cache as it now stands. |
| ServerDmi.GetRainForecast | server_dmi.py:11-28 | The result is empty when `probe_and_get_entries` raises, finds nothing or finds no entries, and in particular for a missing API key. Otherwise it is the hourly series cut to the hours at or after now. |
| ServerDmi.ForecastFacts | server_dmi.py:19-25 | An entry is in the forecast exactly when it is an hourly amount of the entries found, at or after now. The forecast is time-ordered. From two samples on, every amount is non-negative. |
| ServerDmi.RenderHtml | server_dmi.py:30-57 | Rendering fails (`None <= 1`) exactly when the first value is missing. Otherwise the page is a header plus one row per reading, in order, in the unit the first value decides: "N/A" with bar 0 for a missing value; value·100 as a percentage; or millimetres with the bar min(value·10, 100). |
| ServerDmi.BarScale | server_dmi.py:43-48 | The probability bar of a fraction is within 0..100. The millimetre bar of a non-negative amount is within 0..100, is full exactly from 10 mm on, and below that is ten times the amount. |
| ServerDmi.FractionsRenderAsPercent | server_dmi.py:34-45 | When every value is a fraction, the page is in probability mode and every bar is within 0..100. |
| ServerDmi.FirstValueDecides | server_dmi.py:34-45 | After a first value of at most 1, any later value above 1 is shown as a percentage, with a bar above 100. |
| ServerDmi.HandleRequest | server_dmi.py:60-71 | "/" always answers 200 with the page of a fresh forecast. Rendering cannot fail there, since every fetched value is present. A missing API key gives a page with only the header. Any other path answers 404 "File not found". |

## Left out

- HTTP and sockets: `requests.get`, the status check, JSON decoding, `ThreadingHTTPServer`/`TCPServer`, response writing and `get_local_ip`. Each answer is an input value instead. The request parameters (URL, coordinates, dates, time zone) are not modelled.
- Threads and the lock: every cache operation runs alone. Atomicity of the snapshot under concurrent refreshes is not captured.
- Server.RefreshCycle: the infinite `while True` loop and `time.sleep` are one cycle plus the `Schedule` relation between the start times of successive cycles. The clock readings are inputs. `Schedule` assumes each sleep ends exactly when requested and the loop adds no overhead. `time.sleep` sleeps at least the requested time, and any excess adds up from cycle to cycle. So `NoDrift`'s "exactly k hours" holds only under that assumption. A late wake-up only delays a cycle, so `NeverEarly`'s lower bound would survive it.
- Clocks and time zones:
  - `datetime.now`, `ZoneInfo` and the start and end of the local day are inputs.
  - Comparisons between aware datetimes, and daylight-saving transitions, reduce to comparisons of integers on one time line.
  - Daylight-saving gaps and repeated hours are not captured: local wall-clock times are treated as one strictly increasing line.
- ISO-8601 parsing (including the `Z` rewrite) and `float()` of strings are opaque parameters. Other `float()` inputs are modelled: null, numbers and booleans, with containers failing.
- A `properties` member that is present but not an object makes the source raise. Here `Dict` always carries a key list, so that crash is not modelled.
- Text.Lower lower-cases ASCII only. Non-ASCII keys are compared without Unicode case folding.
- Rain.RainProbabilityNext: probabilities are numbers or null. A string or boolean in the probability array, which `int()` would accept or reject, is not modelled.
- Floating point: values are exact reals, so NaN, infinities and rounding are not modelled. Formatting (`:.0f`, `:.2f`, `strftime`) is left out: labels hold the value to be shown.
- `html.escape`, the HTML markup and the UTF-8 encoding of the page: a page is a list of structured lines.
- `print_probabilities` printing and the `__main__` blocks, apart from the label rule.
- Server.HandleGet: the clock fallback for a missing update time is part of the method. But a non-empty cache always has an update time, and so does the cache after a fetch, so the fallback is never taken.
