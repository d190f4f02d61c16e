/** The point-forecast series pipeline of `rain_dmi.py`: finding the
    precipitation property in a GeoJSON answer, turning features into a
    time-ordered series, differencing a cumulative series into hourly rates,
    choosing which answer to use (probe first, then the candidate parameter
    names), and the "rain today" summary.

    Timestamps are whole seconds on one local time line; values are reals.
    Reading an ISO-8601 time and `float()` of a string are the parameters in
    `Parsers`; the HTTP answers are the values of `Response`. */
module RainDmi {
  import opened Wrappers
  import opened Seqs
  import Text

  // ---------------------------------------------------------------------
  // Loosely typed GeoJSON
  // ---------------------------------------------------------------------

  /** A JSON value as far as the pipeline looks at it: a list or an object in a
      property slot only matters for being empty or not. */
  datatype Value = Null | Bool(b: bool) | Number(x: real) | Str(s: string) | Container(isEmpty: bool)

  /** Python truthiness. */
  predicate Truthy(v: Value)
  {
    match v
    case Null => false
    case Bool(b) => b
    case Number(x) => x != 0.0
    case Str(s) => s != ""
    case Container(isEmpty) => !isEmpty
  }

  /** The `properties` object of a feature, keys in document order. */
  type Props = seq<(string, Value)>

  /** An element of the `features` array: an object (whose missing
      `properties` reads as `{}`) or anything else. */
  datatype Feature = Dict(props: Props) | NotADict

  /** The `features` member of an answer: a list, or some other JSON value
      (a `Container` here is an object, since lists are `FeatureList`). */
  datatype FeatureArray = FeatureList(items: seq<Feature>) | NotAList(v: Value)

  /** ISO-8601 reading (with the trailing `Z` rewrite and the time-zone
      conversion) and `float()` of a string, both of which may fail. */
  datatype Parsers = Parsers(time: string -> Option<int>, number: string -> Option<real>)

  /** One sample of the series: `(ts, float)`. */
  datatype Entry = Entry(ts: int, value: real)

  function PropsOf(f: Feature): Props
  {
    match f
    case Dict(props) => props
    case NotADict => []
  }

  function Keys(props: Props): (ks: seq<string>)
    ensures |ks| == |props| && forall i :: 0 <= i < |props| ==> ks[i] == props[i].0
  {
    if props == [] then [] else [props[0].0] + Keys(props[1..])
  }

  /** `props.get(k)`: the value stored under `k`, or `None` when the key is
      absent. A key repeated in the JSON text keeps its last value, as
      `json.loads` does. */
  function Get(props: Props, k: string): Option<Value>
  {
    if props == [] then None
    else if props[|props| - 1].0 == k then Some(props[|props| - 1].1)
    else Get(props[..|props| - 1], k)
  }

  /** `get` finds a value exactly when the key is present. */
  lemma {:induction false} GetFindsKeys(props: Props, k: string)
    ensures Get(props, k).Some? <==> k in Keys(props)
  {
    if props != [] {
      var n := |props| - 1;
      var front := props[..n];
      GetFindsKeys(front, k);
      var ks, kf := Keys(props), Keys(front);
      if k in ks && props[n].0 != k {
        var i :| 0 <= i < |ks| && ks[i] == k;
        assert kf[i] == front[i].0 == k;
      }
      if k in kf {
        var i :| 0 <= i < |kf| && kf[i] == k;
        assert ks[i] == props[i].0 == k;
      }
    }
  }

  /** The value `get` finds is the one at the key's last occurrence. */
  lemma {:induction false} GetFindsLast(props: Props, k: string)
    ensures Get(props, k).Some? ==>
              exists i :: 0 <= i < |props| && props[i] == (k, Get(props, k).value) &&
                          forall j :: i < j < |props| ==> props[j].0 != k
  {
    if props != [] {
      var n := |props| - 1;
      var front := props[..n];
      GetFindsLast(front, k);
      if props[n].0 != k && Get(props, k).Some? {
        var i :| 0 <= i < |front| && front[i] == (k, Get(front, k).value) &&
                 forall j :: i < j < |front| ==> front[j].0 != k;
        assert props[i] == front[i];
        assert forall j :: i < j < n ==> props[j] == front[j];
      }
    }
  }

  // ---------------------------------------------------------------------
  // _find_precip_key
  // ---------------------------------------------------------------------

  /** A property key names precipitation when its lower-case form contains
      "precip", "rain" or "solid". */
  predicate IsPrecipKey(k: string)
  {
    var kl := Text.Lower(k);
    Text.Contains(kl, "precip") || Text.Contains(kl, "rain") || Text.Contains(kl, "solid")
  }

  /** The first key of `keys` that names precipitation. */
  function FirstPrecipKey(keys: seq<string>): Option<string>
  {
    if keys == [] then None
    else if IsPrecipKey(keys[0]) then Some(keys[0])
    else FirstPrecipKey(keys[1..])
  }

  /** The loop of `_find_precip_key` over a list: features in order, a
      non-object feature skipped, each feature's keys in order. */
  function FindKeyIn(items: seq<Feature>): Option<string>
  {
    if items == [] then None
    else match FirstPrecipKey(Keys(PropsOf(items[0])))
      case Some(k) => Some(k)
      case None => FindKeyIn(items[1..])
  }

  /** `_find_precip_key`: `None` for a `features` value that is not a list. */
  function FindPrecipKey(features: FeatureArray): Option<string>
  {
    match features
    case NotAList(_) => None
    case FeatureList(items) => FindKeyIn(items)
  }

  /** Every property key of the features, in feature order then key order. */
  function AllKeys(items: seq<Feature>): seq<string>
  {
    if items == [] then [] else Keys(PropsOf(items[0])) + AllKeys(items[1..])
  }

  lemma {:induction false} FirstPrecipKeyOfConcat(a: seq<string>, b: seq<string>)
    ensures FirstPrecipKey(a + b) == if FirstPrecipKey(a).Some? then FirstPrecipKey(a) else FirstPrecipKey(b)
  {
    if a != [] {
      assert (a + b)[1..] == a[1..] + b;
      FirstPrecipKeyOfConcat(a[1..], b);
    } else {
      assert a + b == b;
    }
  }

  /** The first precipitation key of the first answer is exactly the first such
      key in the flattened key list. */
  lemma {:induction false} FindKeyInFlattens(items: seq<Feature>)
    ensures FindKeyIn(items) == FirstPrecipKey(AllKeys(items))
  {
    if items != [] {
      FindKeyInFlattens(items[1..]);
      FirstPrecipKeyOfConcat(Keys(PropsOf(items[0])), AllKeys(items[1..]));
    }
  }

  /** `FirstPrecipKey` finds nothing exactly when no key names precipitation, and
      otherwise finds the key at the first position that does. */
  lemma {:induction false} FirstPrecipKeyIsFirst(keys: seq<string>)
    ensures FirstPrecipKey(keys) == None <==> forall j :: 0 <= j < |keys| ==> !IsPrecipKey(keys[j])
    ensures forall j :: 0 <= j < |keys| && IsPrecipKey(keys[j]) && (forall i :: 0 <= i < j ==> !IsPrecipKey(keys[i]))
                        ==> FirstPrecipKey(keys) == Some(keys[j])
  {
    if keys != [] {
      FirstPrecipKeyIsFirst(keys[1..]);
      assert forall j :: 1 <= j < |keys| ==> keys[1..][j - 1] == keys[j];
    }
  }

  /** `_find_precip_key` in full: `None` for a non-list; for a list, the first
      precipitation key in feature order then key order (non-object features
      contribute no keys), and `None` exactly when there is no such key. */
  lemma FindPrecipKeySpec(features: FeatureArray)
    ensures features.NotAList? ==> FindPrecipKey(features) == None
    ensures features.FeatureList? ==>
      var ks := AllKeys(features.items);
      && (FindPrecipKey(features) == None <==> forall j :: 0 <= j < |ks| ==> !IsPrecipKey(ks[j]))
      && (forall j :: 0 <= j < |ks| && IsPrecipKey(ks[j]) && (forall i :: 0 <= i < j ==> !IsPrecipKey(ks[i]))
                      ==> FindPrecipKey(features) == Some(ks[j]))
  {
    if features.FeatureList? {
      FindKeyInFlattens(features.items);
      FirstPrecipKeyIsFirst(AllKeys(features.items));
    }
  }

  // ---------------------------------------------------------------------
  // _parse_features
  // ---------------------------------------------------------------------

  /** The property names tried, in this order, for a feature's time. */
  const TIME_KEYS: seq<string> := ["step", "datetime", "time", "validTime"]

  /** `props.get(a) or props.get(b) or ...`: the first truthy value among `names`. */
  function FirstTruthy(props: Props, names: seq<string>): (r: Option<Value>)
    ensures r.Some? ==> Truthy(r.value)
  {
    if names == [] then None
    else match Get(props, names[0])
      case Some(v) => if Truthy(v) then Some(v) else FirstTruthy(props, names[1..])
      case None => FirstTruthy(props, names[1..])
  }

  /** The property `name` is present and its value is truthy. */
  predicate TruthyAt(props: Props, name: string)
  {
    Get(props, name).Some? && Truthy(Get(props, name).value)
  }

  /** The `or` chain yields nothing exactly when no name has a truthy value,
      and otherwise the value of the first name, in order, that has one. */
  lemma {:induction false} FirstTruthyIsFirst(props: Props, names: seq<string>)
    ensures FirstTruthy(props, names).None? <==> forall j :: 0 <= j < |names| ==> !TruthyAt(props, names[j])
    ensures FirstTruthy(props, names).Some? ==>
              exists j :: 0 <= j < |names| && TruthyAt(props, names[j]) &&
                          Get(props, names[j]) == FirstTruthy(props, names) &&
                          forall i :: 0 <= i < j ==> !TruthyAt(props, names[i])
  {
    if names != [] {
      var rest := names[1..];
      FirstTruthyIsFirst(props, rest);
      assert forall j :: 1 <= j < |names| ==> rest[j - 1] == names[j];
      if !TruthyAt(props, names[0]) && FirstTruthy(props, rest).Some? {
        var j :| 0 <= j < |rest| && TruthyAt(props, rest[j]) &&
                 Get(props, rest[j]) == FirstTruthy(props, rest) &&
                 forall i :: 0 <= i < j ==> !TruthyAt(props, rest[i]);
        assert names[j + 1] == rest[j];
        assert forall i :: 0 <= i < j + 1 ==> !TruthyAt(props, names[i]) by {
          assert forall i :: 1 <= i < j + 1 ==> names[i] == rest[i - 1];
        }
      }
    }
  }

  /** `float(val)`; `None` covers both the skipped `val is None` and a failed conversion. */
  function ToFloat(v: Value, p: Parsers): Option<real>
  {
    match v
    case Null => None
    case Bool(b) => Some(if b then 1.0 else 0.0)
    case Number(x) => Some(x)
    case Str(s) => p.number(s)
    case Container(_) => None
  }

  /** The entry one feature contributes, or `None` when the loop `continue`s:
      no truthy time field, a time that is not a parseable string, or a value
      that is missing, null or not convertible to float. */
  function EntryOf(f: Feature, key: string, p: Parsers): Option<Entry>
  {
    var props := PropsOf(f);
    match FirstTruthy(props, TIME_KEYS)
    case None => None
    case Some(step) =>
      if !step.Str? then None
      else match p.time(step.s)
        case None => None
        case Some(ts) =>
          match Get(props, key)
          case None => None
          case Some(v) =>
            match ToFloat(v, p)
            case None => None
            case Some(x) => Some(Entry(ts, x))
  }

  /** `EntryOf` as a function value, for the loop of `_parse_features`. */
  function EntryFor(key: string, p: Parsers): Feature -> Option<Entry>
  {
    f => EntryOf(f, key, p)
  }

  /** The entries appended to `out`, in feature order, before the sort. */
  function Collect(features: seq<Feature>, key: string, p: Parsers): seq<Entry>
  {
    FilterMap(features, EntryFor(key, p))
  }

  /** At most one entry per feature, and an entry is collected exactly when some
      feature yields it. */
  lemma CollectMembers(features: seq<Feature>, key: string, p: Parsers)
    ensures |Collect(features, key, p)| <= |features|
    ensures forall e :: e in Collect(features, key, p) <==>
                        exists i :: 0 <= i < |features| && EntryOf(features[i], key, p) == Some(e)
  {
    FilterMapMembers(features, EntryFor(key, p));
  }

  predicate Sorted(s: seq<Entry>)
  {
    forall i, j :: 0 <= i < j < |s| ==> s[i].ts <= s[j].ts
  }

  /** Python's `list.sort(key=ts)` is stable: `x` goes in front of the first
      entry that is not earlier. */
  function InsertByTime(x: Entry, s: seq<Entry>): seq<Entry>
  {
    if s == [] || x.ts <= s[0].ts then [x] + s else [s[0]] + InsertByTime(x, s[1..])
  }

  /** `out.sort(key=lambda x: x[0])`, as a stable insertion sort. */
  function SortByTime(s: seq<Entry>): seq<Entry>
  {
    if s == [] then [] else InsertByTime(s[0], SortByTime(s[1..]))
  }

  lemma {:induction false} InsertByTimeHead(x: Entry, s: seq<Entry>)
    ensures |InsertByTime(x, s)| == |s| + 1
    ensures InsertByTime(x, s)[0] == x || InsertByTime(x, s)[0] == s[0]
  {
    if s != [] && x.ts > s[0].ts {
      InsertByTimeHead(x, s[1..]);
    }
  }

  lemma {:induction false} InsertByTimeSorted(x: Entry, s: seq<Entry>)
    requires Sorted(s)
    ensures Sorted(InsertByTime(x, s))
  {
    if s != [] && x.ts > s[0].ts {
      var rest := InsertByTime(x, s[1..]);
      InsertByTimeSorted(x, s[1..]);
      InsertByTimeHead(x, s[1..]);
      assert s[0].ts <= rest[0].ts;
      var r := [s[0]] + rest;
      forall i, j | 0 <= i < j < |r|
        ensures r[i].ts <= r[j].ts
      {
        if i == 0 {
          assert r[j] == rest[j - 1];
        } else {
          assert r[i] == rest[i - 1] && r[j] == rest[j - 1];
        }
      }
    }
  }

  lemma {:induction false} InsertByTimePermutes(x: Entry, s: seq<Entry>)
    ensures multiset(InsertByTime(x, s)) == multiset(s) + multiset{x}
  {
    if s != [] && x.ts > s[0].ts {
      InsertByTimePermutes(x, s[1..]);
      assert s == [s[0]] + s[1..];
    }
  }

  /** The sort yields a time-ordered permutation of its input. */
  lemma {:induction false} SortByTimeSorted(s: seq<Entry>)
    ensures Sorted(SortByTime(s))
  {
    if s != [] {
      SortByTimeSorted(s[1..]);
      InsertByTimeSorted(s[0], SortByTime(s[1..]));
    }
  }

  lemma {:induction false} SortByTimePermutes(s: seq<Entry>)
    ensures multiset(SortByTime(s)) == multiset(s)
    ensures |SortByTime(s)| == |s|
  {
    if s != [] {
      SortByTimePermutes(s[1..]);
      InsertByTimePermutes(s[0], SortByTime(s[1..]));
      assert s == [s[0]] + s[1..];
    }
    assert |multiset(SortByTime(s))| == |multiset(s)|;
  }

  function AtTime(t: int): Entry -> bool
  {
    (e: Entry) => e.ts == t
  }

  lemma {:induction false} InsertByTimeStable(x: Entry, s: seq<Entry>, t: int)
    ensures Filter(InsertByTime(x, s), AtTime(t)) == (if x.ts == t then [x] else []) + Filter(s, AtTime(t))
  {
    if s == [] || x.ts <= s[0].ts {
      FilterCons(x, s, AtTime(t));
    } else {
      InsertByTimeStable(x, s[1..], t);
      FilterCons(s[0], InsertByTime(x, s[1..]), AtTime(t));
      FilterCons(s[0], s[1..], AtTime(t));
      assert s == [s[0]] + s[1..];
    }
  }

  /** The sort is stable: the entries sharing any one timestamp keep their
      input order. */
  lemma {:induction false} SortByTimeStable(s: seq<Entry>, t: int)
    ensures Filter(SortByTime(s), AtTime(t)) == Filter(s, AtTime(t))
  {
    if s != [] {
      SortByTimeStable(s[1..], t);
      InsertByTimeStable(s[0], SortByTime(s[1..]), t);
      FilterCons(s[0], s[1..], AtTime(t));
      assert s == [s[0]] + s[1..];
    }
  }

  /** `_parse_features`: collect the usable features in a loop, then sort. */
  method ParseFeatures(features: seq<Feature>, key: string, p: Parsers) returns (out: seq<Entry>)
    ensures out == SortByTime(Collect(features, key, p))
  {
    out := [];
    for i := 0 to |features|
      invariant out == Collect(features[..i], key, p)
    {
      assert features[..i + 1] == features[..i] + [features[i]];
      FilterMapSnoc(features[..i], features[i], EntryFor(key, p));
      match EntryOf(features[i], key, p) {
        case Some(e) => out := out + [e];
        case None =>
      }
    }
    assert features[..|features|] == features;
    out := SortByTime(out);
  }

  /** What `_parse_features` returns: time-ordered, no longer than the input,
      and made of exactly the entries that usable features yield. */
  lemma ParsedFacts(features: seq<Feature>, key: string, p: Parsers)
    ensures Sorted(SortByTime(Collect(features, key, p)))
    ensures |SortByTime(Collect(features, key, p))| <= |features|
    ensures forall e :: e in SortByTime(Collect(features, key, p)) <==>
                        exists i :: 0 <= i < |features| && EntryOf(features[i], key, p) == Some(e)
  {
    var c := Collect(features, key, p);
    CollectMembers(features, key, p);
    SortByTimeSorted(c);
    SortByTimePermutes(c);
    forall e
      ensures e in SortByTime(c) <==> e in c
    {
      assert e in SortByTime(c) <==> e in multiset(SortByTime(c));
    }
  }

  // ---------------------------------------------------------------------
  // _convert_to_hourly
  // ---------------------------------------------------------------------

  /** Hours between two samples, `total_seconds() / 3600`. */
  function Hours(prev: Entry, cur: Entry): real
  {
    (cur.ts - prev.ts) as real / 3600.0
  }

  /** `max(0, x)`. */
  function ClampAtZero(x: real): (r: real)
    ensures r >= 0.0 && r >= x && (r == x || r == 0.0)
  {
    if x > 0.0 then x else 0.0
  }

  /** The hourly rate between two cumulative samples: the change per hour
      when time advances, the plain change otherwise, never negative. */
  function HourlyRate(prev: Entry, cur: Entry): real
  {
    var delta := cur.value - prev.value;
    ClampAtZero(if Hours(prev, cur) > 0.0 then delta / Hours(prev, cur) else delta)
  }

  /** The series `_convert_to_hourly` returns. */
  function Hourly(entries: seq<Entry>): seq<Entry>
  {
    if |entries| < 2 then entries
    else seq(|entries| - 1, i requires 0 <= i < |entries| - 1 =>
               Entry(entries[i + 1].ts, HourlyRate(entries[i], entries[i + 1])))
  }

  /** `_convert_to_hourly`: a series shorter than two comes back unchanged;
      otherwise sample `i` of the result sits at the time of input `i + 1` and
      is the clamped rate from input `i` to input `i + 1`. */
  method ConvertToHourly(entries: seq<Entry>) returns (r: seq<Entry>)
    ensures r == Hourly(entries)
    ensures |entries| < 2 ==> r == entries
    ensures |entries| >= 2 ==> |r| == |entries| - 1
    ensures |entries| >= 2 ==> forall i :: 0 <= i < |r| ==> r[i].ts == entries[i + 1].ts && r[i].value >= 0.0
  {
    if |entries| < 2 {
      return entries;
    }
    r := [];
    var prev := entries[0];
    for i := 1 to |entries|
      invariant prev == entries[i - 1]
      invariant |r| == i - 1
      invariant forall k :: 0 <= k < i - 1 ==> r[k] == Entry(entries[k + 1].ts, HourlyRate(entries[k], entries[k + 1]))
    {
      var cur := entries[i];
      var hours := (cur.ts - prev.ts) as real / 3600.0;
      var rate := if hours > 0.0 then (cur.value - prev.value) / hours else cur.value - prev.value;
      r := r + [Entry(cur.ts, if rate > 0.0 then rate else 0.0)];
      prev := cur;
    }
  }

  /** Sample `j` of the hourly series. */
  lemma HourlyAt(entries: seq<Entry>, j: int)
    requires 0 <= j < |entries| - 1
    ensures |Hourly(entries)| == |entries| - 1
    ensures Hourly(entries)[j] == Entry(entries[j + 1].ts, HourlyRate(entries[j], entries[j + 1]))
  {
  }

  /** Differencing keeps the time order of a sorted series. */
  lemma HourlySorted(entries: seq<Entry>)
    requires Sorted(entries)
    ensures Sorted(Hourly(entries))
  {
    if |entries| >= 2 {
      var h := Hourly(entries);
      forall i, j | 0 <= i < j < |h|
        ensures h[i].ts <= h[j].ts
      {
        HourlyAt(entries, i);
        HourlyAt(entries, j);
      }
    }
  }

  /** From two samples on, every hourly amount is a clamped rate and so never negative. */
  lemma HourlyNonNegative(entries: seq<Entry>)
    requires |entries| >= 2
    ensures forall e :: e in Hourly(entries) ==> e.value >= 0.0
  {
    var h := Hourly(entries);
    forall e | e in h
      ensures e.value >= 0.0
    {
      var j :| 0 <= j < |h| && h[j] == e;
      HourlyAt(entries, j);
    }
  }

  function SumValues(s: seq<Entry>): real
  {
    if s == [] then 0.0 else s[0].value + SumValues(s[1..])
  }

  /** Samples exactly one hour apart whose cumulative value never decreases. */
  predicate HourlyCumulative(entries: seq<Entry>)
  {
    forall i :: 0 <= i < |entries| - 1 ==>
      entries[i + 1].ts == entries[i].ts + 3600 && entries[i].value <= entries[i + 1].value
  }

  /** Differencing undoes accumulation: on an hourly, non-decreasing cumulative
      series the hourly amounts add up to the total rise. */
  lemma {:induction false} HourlyTelescopes(entries: seq<Entry>)
    requires |entries| >= 2 && HourlyCumulative(entries)
    ensures SumValues(Hourly(entries)) == entries[|entries| - 1].value - entries[0].value
    decreases |entries|
  {
    var h := Hourly(entries);
    assert h[0].value == entries[1].value - entries[0].value;
    if |entries| == 2 {
      assert h[1..] == [];
    } else {
      var rest := entries[1..];
      assert HourlyCumulative(rest) by {
        forall i | 0 <= i < |rest| - 1
          ensures rest[i + 1].ts == rest[i].ts + 3600 && rest[i].value <= rest[i + 1].value
        {
          assert rest[i] == entries[i + 1] && rest[i + 1] == entries[i + 2];
        }
      }
      HourlyTelescopes(rest);
      assert h[1..] == Hourly(rest);
    }
  }

  // ---------------------------------------------------------------------
  // probe_and_get_entries
  // ---------------------------------------------------------------------

  /** The parameter names tried one by one when the probe finds no key. */
  const CANDIDATES: seq<string> := ["total-precipitation"]

  /** The outcome of one `_point_request`: the request raised, the status was
      not OK, the body is not a JSON object (`.json()` or `.get` raises), or the
      body's `features` member (`[]` when absent). */
  datatype Response = RequestRaised | NotOk | Malformed | Body(features: FeatureArray)

  /** The probe answer, and the answer for each candidate parameter name. */
  datatype Upstream = Upstream(probe: Response, candidate: string -> Response)

  /** The exceptions that leave `probe_and_get_entries`: the missing API key
      (raised before any request), the probe request failing, a body that is
      not a JSON object, and subscripting a `features` value that is a
      non-empty object or a true number or boolean. */
  datatype DmiError = MissingApiKey | ProbeRequestFailed | MalformedBody | BadFeatures

  /** Either parse these features with this key, or go on to the next request. */
  datatype Choice = Parse(items: seq<Feature>, key: string) | Next

  function ProbeChoice(r: Response): Result<Choice, DmiError>
  {
    match r
    case RequestRaised => Failure(ProbeRequestFailed)
    case NotOk => Success(Next)
    case Malformed => Failure(MalformedBody)
    case Body(features) =>
      match features
      case NotAList(_) => Success(Next)
      case FeatureList(items) =>
        match FindKeyIn(items)
        case Some(k) => Success(Parse(items, k))
        case None => Success(Next)
  }

  /** `if features and isinstance(features[0], dict)`, then `param in props`. */
  function FallbackKey(features: FeatureArray, param: string): Result<Choice, DmiError>
  {
    match features
    case FeatureList(items) =>
      if items != [] && items[0].Dict? && param in Keys(items[0].props) then Success(Parse(items, param))
      else Success(Next)
    case NotAList(v) =>
      if !Truthy(v) then Success(Next)
      else match v
        case Str(_) => Success(Next)     // features[0] is a one-character string
        case _ => Failure(BadFeatures)   // KeyError on an object, TypeError on a number or bool
  }

  function CandidateChoice(param: string, r: Response): Result<Choice, DmiError>
  {
    match r
    case RequestRaised => Success(Next)
    case NotOk => Success(Next)
    case Malformed => Failure(MalformedBody)
    case Body(features) =>
      match features
      case FeatureList(items) =>
        (match FindKeyIn(items)
         case Some(k) => Success(Parse(items, k))
         case None => FallbackKey(features, param))
      case NotAList(_) => FallbackKey(features, param)
  }

  function TryCandidates(params: seq<string>, up: Upstream): Result<Choice, DmiError>
  {
    if params == [] then Success(Next)
    else match CandidateChoice(params[0], up.candidate(params[0]))
      case Failure(e) => Failure(e)
      case Success(Next) => TryCandidates(params[1..], up)
      case Success(c) => Success(c)
  }

  function Selection(apiKey: string, up: Upstream): Result<Choice, DmiError>
  {
    if apiKey == "" then Failure(MissingApiKey)
    else match ProbeChoice(up.probe)
      case Failure(e) => Failure(e)
      case Success(Next) => TryCandidates(CANDIDATES, up)
      case Success(c) => Success(c)
  }

  /** What `probe_and_get_entries` returns or raises. */
  function ProbeOutcome(apiKey: string, up: Upstream, p: Parsers): Result<(seq<Entry>, bool), DmiError>
  {
    match Selection(apiKey, up)
    case Failure(e) => Failure(e)
    case Success(Next) => Success(([], false))
    case Success(Parse(items, key)) => Success((SortByTime(Collect(items, key, p)), true))
  }

  /** `probe_and_get_entries`. */
  method ProbeAndGetEntries(apiKey: string, up: Upstream, p: Parsers) returns (r: Result<(seq<Entry>, bool), DmiError>)
    ensures r == ProbeOutcome(apiKey, up, p)
    ensures apiKey == "" ==> r == Failure(MissingApiKey)
  {
    if apiKey == "" {
      return Failure(MissingApiKey);
    }
    match ProbeChoice(up.probe) {
      case Failure(e) => return Failure(e);
      case Success(Parse(items, key)) =>
        var entries := ParseFeatures(items, key, p);
        return Success((entries, true));
      case Success(Next) =>
    }
    for i := 0 to |CANDIDATES|
      invariant TryCandidates(CANDIDATES, up) == TryCandidates(CANDIDATES[i..], up)
    {
      assert CANDIDATES[i..][1..] == CANDIDATES[i + 1..];
      match CandidateChoice(CANDIDATES[i], up.candidate(CANDIDATES[i])) {
        case Failure(e) => return Failure(e);
        case Success(Parse(items, key)) =>
          var entries := ParseFeatures(items, key, p);
          return Success((entries, true));
        case Success(Next) =>
      }
    }
    return Success(([], false));
  }

  /** A candidate answer in which no key names precipitation still selects the
      candidate's own name when the first feature has a property of that name. */
  lemma CandidateFallsBackToName(param: string, items: seq<Feature>)
    requires FindKeyIn(items) == None
    requires items != [] && items[0].Dict? && param in Keys(items[0].props)
    ensures CandidateChoice(param, Body(FeatureList(items))) == Success(Parse(items, param))
  {
  }

  /** Whatever the answers, the entries come back time-ordered, and "not found"
      comes with no entries. */
  lemma ProbeOutcomeSorted(apiKey: string, up: Upstream, p: Parsers)
    ensures ProbeOutcome(apiKey, up, p).Success? ==> Sorted(ProbeOutcome(apiKey, up, p).value.0)
    ensures ProbeOutcome(apiKey, up, p).Success? && !ProbeOutcome(apiKey, up, p).value.1 ==>
              ProbeOutcome(apiKey, up, p).value.0 == []
  {
    match Selection(apiKey, up)
    case Success(Parse(items, key)) => SortByTimeSorted(Collect(items, key, p));
    case _ =>
  }

  /** A probe answer yields no key: its status is not OK, or no property of
      its features names precipitation. */
  predicate ProbeFindsNoKey(r: Response)
  {
    r.NotOk? || (r.Body? && FindPrecipKey(r.features) == None)
  }

  /** The fallback to the candidate's own name does not apply: the features
      are an empty list, or a list whose first element is not an object or
      lacks the property `param`, or a non-list that is falsy or a string. */
  predicate NoNameFallback(features: FeatureArray, param: string)
  {
    match features
    case FeatureList(items) => !(items != [] && items[0].Dict? && param in Keys(items[0].props))
    case NotAList(v) => !Truthy(v) || v.Str?
  }

  /** A candidate answer yields no key: the request raised, its status is not
      OK, or no property names precipitation and the name fallback does not
      apply. */
  predicate CandidateFindsNoKey(param: string, r: Response)
  {
    || r.RequestRaised?
    || r.NotOk?
    || (r.Body? && FindPrecipKey(r.features) == None && NoNameFallback(r.features, param))
  }

  lemma ProbeChoiceNext(r: Response)
    ensures ProbeChoice(r) == Success(Next) <==> ProbeFindsNoKey(r)
  {
  }

  lemma CandidateChoiceNext(param: string, r: Response)
    ensures CandidateChoice(param, r) == Success(Next) <==> CandidateFindsNoKey(param, r)
  {
  }

  /** `([], False)` comes back exactly when the key is present, the probe
      yields no key and no candidate yields one. */
  lemma NotFoundExactly(apiKey: string, up: Upstream, p: Parsers)
    ensures var r := ProbeOutcome(apiKey, up, p);
      (r.Success? && !r.value.1) <==>
        && apiKey != ""
        && ProbeFindsNoKey(up.probe)
        && forall c :: c in CANDIDATES ==> CandidateFindsNoKey(c, up.candidate(c))
    ensures var r := ProbeOutcome(apiKey, up, p);
      r.Success? && !r.value.1 ==> r.value == ([], false)
  {
    var c := CANDIDATES[0];
    ProbeChoiceNext(up.probe);
    CandidateChoiceNext(c, up.candidate(c));
    assert CANDIDATES[1..] == [];
    assert TryCandidates(CANDIDATES, up) == Success(Next) <==> CandidateChoice(c, up.candidate(c)) == Success(Next);
  }

  /** A key found in the probe answer wins: its features are parsed with it and
      no candidate is consulted. */
  lemma ProbeKeyWins(apiKey: string, up: Upstream, p: Parsers, items: seq<Feature>, k: string)
    requires apiKey != "" && up.probe == Body(FeatureList(items)) && FindPrecipKey(FeatureList(items)) == Some(k)
    ensures ProbeOutcome(apiKey, up, p) == Success((SortByTime(Collect(items, k, p)), true))
  {
  }

  /** A key holding "precip" in lower case names precipitation. */
  lemma PrecipAtNamesPrecipitation(k: string, i: nat)
    requires i + 6 <= |k| && k[i..i + 6] == "precip"
    ensures IsPrecipKey(k)
  {
    var kl := Text.Lower(k);
    assert forall j :: i <= j < i + 6 ==> k[j] == "precip"[j - i];
    Text.LowerKeepsLowerCase(k, i, i + 6);
    assert Text.OccursAt(kl, "precip", i);
    Text.ContainsIff(kl, "precip");
  }

  /** "total-precipitation" itself names precipitation. */
  lemma CandidateNamesPrecipitation(param: string)
    requires param in CANDIDATES
    ensures IsPrecipKey(param)
  {
    assert param[6..12] == "precip" by {
      assert param == CANDIDATES[0];
    }
    PrecipAtNamesPrecipitation(param, 6);
  }

  /** The name fallback never decides for a name that itself names
      precipitation: when the first feature has that property, the key search
      has already found a key in that feature. So for the shipped candidate
      list the name fallback of `probe_and_get_entries` never fires. */
  lemma NameFallbackUnreachable(param: string, items: seq<Feature>)
    requires IsPrecipKey(param)
    requires items != [] && items[0].Dict? && param in Keys(items[0].props)
    ensures FindKeyIn(items).Some?
  {
    var ks := Keys(PropsOf(items[0]));
    var j :| 0 <= j < |ks| && ks[j] == param;
    FirstPrecipKeyIsFirst(ks);
  }

  /** When the probe yields no key, a precipitation key in the candidate's list
      of features decides: the features are parsed with it. */
  lemma CandidateKeyUsed(apiKey: string, up: Upstream, p: Parsers, items: seq<Feature>)
    requires apiKey != "" && ProbeFindsNoKey(up.probe)
    requires up.candidate(CANDIDATES[0]) == Body(FeatureList(items))
    ensures FindKeyIn(items).Some? ==>
              ProbeOutcome(apiKey, up, p) == Success((SortByTime(Collect(items, FindKeyIn(items).value, p)), true))
  {
    ProbeChoiceNext(up.probe);
    TryCandidatesIsFirst(up);
  }

  /** When neither the probe nor the candidate's list of features holds a
      precipitation key, nothing is found: the candidate's own name names
      precipitation, so the name fallback never applies. */
  lemma CandidateWithoutKeyNotFound(apiKey: string, up: Upstream, p: Parsers, items: seq<Feature>)
    requires apiKey != "" && ProbeFindsNoKey(up.probe)
    requires up.candidate(CANDIDATES[0]) == Body(FeatureList(items))
    ensures FindKeyIn(items).None? ==> ProbeOutcome(apiKey, up, p) == Success(([], false))
  {
    if FindKeyIn(items).None? {
      var c := CANDIDATES[0];
      if items != [] && items[0].Dict? && c in Keys(items[0].props) {
        CandidateNamesPrecipitation(c);
        NameFallbackUnreachable(c, items);
      }
      assert NoNameFallback(FeatureList(items), c);
      CandidateChoiceNext(c, up.candidate(c));
      TryCandidatesIsFirst(up);
      ProbeChoiceNext(up.probe);
      assert Selection(apiKey, up) == Success(Next);
    }
  }

  /** With a single candidate, the candidate loop decides as that candidate's
      answer does. */
  lemma TryCandidatesIsFirst(up: Upstream)
    ensures TryCandidates(CANDIDATES, up) == CandidateChoice(CANDIDATES[0], up.candidate(CANDIDATES[0]))
  {
    assert CANDIDATES[1..] == [];
  }

  // ---------------------------------------------------------------------
  // rain_today_warning
  // ---------------------------------------------------------------------

  const PROBABILITY_THRESHOLD: real := 0.5
  const MILLIMETRE_THRESHOLD: real := 0.2
  const MAX_ROWS: nat := 12

  /** What `rain_today_warning` prints: one of the three "no data" messages, or
      the summary and the rows. The summary holds the unit, the warning or
      all-clear, the peak and the average; the average is printed only in
      probability mode. */
  datatype Report =
    | Raised(error: DmiError)
    | NoEntries
    | NoTodayEntries
    | NoFutureEntries
    | Summary(isProbability: bool, rainLikely: bool, peak: real, average: real, rows: seq<Entry>)

  function InDay(dayStart: int, dayEnd: int): Entry -> bool
  {
    (e: Entry) => dayStart <= e.ts < dayEnd
  }

  function IsFuture(now: int): Entry -> bool
  {
    (e: Entry) => e.ts >= now
  }

  /** `all(0 <= v <= 1 for v in vals)`. */
  predicate AllFractions(s: seq<Entry>)
  {
    forall i :: 0 <= i < |s| ==> 0.0 <= s[i].value <= 1.0
  }

  /** `max(vals)`. */
  function MaxValue(s: seq<Entry>): (m: real)
    requires s != []
    ensures forall i :: 0 <= i < |s| ==> s[i].value <= m
    ensures exists i :: 0 <= i < |s| && s[i].value == m
  {
    if |s| == 1 then s[0].value
    else
      var rest := MaxValue(s[1..]);
      assert forall i :: 1 <= i < |s| ==> s[i] == s[1..][i - 1];
      if s[0].value >= rest then s[0].value else rest
  }

  lemma {:induction false} SumAtMostMax(s: seq<Entry>, bound: real)
    requires forall i :: 0 <= i < |s| ==> s[i].value <= bound
    ensures SumValues(s) <= |s| as real * bound
  {
    if s != [] {
      assert forall i :: 0 <= i < |s| - 1 ==> s[1..][i] == s[i + 1];
      SumAtMostMax(s[1..], bound);
    }
  }

  /** The entries of today that are not in the past: the hourly amounts kept
      by `rain_today_warning` for falling inside today, then for not lying
      before now. */
  function Upcoming(entries: seq<Entry>, now: int, dayStart: int, dayEnd: int): seq<Entry>
  {
    Filter(Filter(Hourly(entries), InDay(dayStart, dayEnd)), IsFuture(now))
  }

  /** The report for the series `probe_and_get_entries` returned, given the
      clock and the bounds of today. */
  function WarningFor(entries: seq<Entry>, now: int, dayStart: int, dayEnd: int): Report
  {
    if entries == [] then NoEntries
    else if Filter(Hourly(entries), InDay(dayStart, dayEnd)) == [] then NoTodayEntries
    else
      var future := Upcoming(entries, now, dayStart, dayEnd);
      if future == [] then NoFutureEntries else Summarise(future)
  }

  /** The summary `rain_today_warning` builds from a non-empty list of
      upcoming entries: the unit, the warning, the peak, the average and the
      rows shown. */
  function Summarise(future: seq<Entry>): Report
    requires future != []
  {
    var isProbability := AllFractions(future);
    var peak := MaxValue(future);
    Summary(isProbability,
            peak >= (if isProbability then PROBABILITY_THRESHOLD else MILLIMETRE_THRESHOLD),
            peak,
            SumValues(future) / |future| as real,
            future[..Min(MAX_ROWS, |future|)])
  }

  /** The `shown` loop: print rows until twelve have been shown. */
  method FirstRows(future: seq<Entry>) returns (rows: seq<Entry>)
    ensures rows == future[..Min(MAX_ROWS, |future|)]
  {
    rows := [];
    var shown := 0;
    for i := 0 to |future|
      invariant shown == |rows| == Min(i, MAX_ROWS)
      invariant rows == future[..shown]
    {
      if shown >= MAX_ROWS {
        break;
      }
      rows := rows + [future[i]];
      shown := shown + 1;
    }
  }

  /** `rain_today_warning`, with the API answers, the clock and the bounds of
      the local day as inputs. */
  method RainTodayWarning(apiKey: string, up: Upstream, p: Parsers, now: int, dayStart: int, dayEnd: int)
    returns (report: Report)
    ensures report == match ProbeOutcome(apiKey, up, p)
                      case Failure(e) => Raised(e)
                      case Success(found) => WarningFor(found.0, now, dayStart, dayEnd)
  {
    var probed := ProbeAndGetEntries(apiKey, up, p);
    if probed.Failure? {
      return Raised(probed.error);
    }
    var entries := probed.value.0;
    if entries == [] {
      return NoEntries;
    }
    var hourly := ConvertToHourly(entries);
    var today := Filter(hourly, InDay(dayStart, dayEnd));
    if today == [] {
      return NoTodayEntries;
    }
    var future := Filter(today, IsFuture(now));
    if future == [] {
      return NoFutureEntries;
    }
    var isProbability := AllFractions(future);
    var peak := MaxValue(future);
    var threshold := if isProbability then PROBABILITY_THRESHOLD else MILLIMETRE_THRESHOLD;
    var rows := FirstRows(future);
    report := Summary(isProbability, peak >= threshold, peak, SumValues(future) / |future| as real, rows);
  }

  /** The upcoming entries are of today, not in the past, and time-ordered. */
  lemma UpcomingFacts(entries: seq<Entry>, now: int, dayStart: int, dayEnd: int)
    requires Sorted(entries)
    ensures var future := Upcoming(entries, now, dayStart, dayEnd);
      && Sorted(future)
      && forall i :: 0 <= i < |future| ==> dayStart <= future[i].ts < dayEnd && future[i].ts >= now
  {
    var hourly := Hourly(entries);
    var today := Filter(hourly, InDay(dayStart, dayEnd));
    var future := Filter(today, IsFuture(now));
    HourlySorted(entries);
    FilterKeepsSorted(hourly, InDay(dayStart, dayEnd));
    FilterKeepsSorted(today, IsFuture(now));
    FilterMembers(hourly, InDay(dayStart, dayEnd));
    FilterMembers(today, IsFuture(now));
    forall i | 0 <= i < |future|
      ensures dayStart <= future[i].ts < dayEnd && future[i].ts >= now
    {
      assert future[i] in future;
      assert future[i] in today;
      assert InDay(dayStart, dayEnd)(future[i]) && IsFuture(now)(future[i]);
    }
  }

  /** The rows of a summary: at most twelve, each of today and not in the
      past, in time order, and the first ones of the upcoming entries. */
  lemma SummaryRows(entries: seq<Entry>, now: int, dayStart: int, dayEnd: int)
    requires Sorted(entries)
    requires WarningFor(entries, now, dayStart, dayEnd).Summary?
    ensures var rows := WarningFor(entries, now, dayStart, dayEnd).rows;
      && |rows| <= MAX_ROWS
      && rows == Upcoming(entries, now, dayStart, dayEnd)[..|rows|]
      && Sorted(rows)
      && (forall i :: 0 <= i < |rows| ==> dayStart <= rows[i].ts < dayEnd && rows[i].ts >= now)
  {
    var future := Upcoming(entries, now, dayStart, dayEnd);
    UpcomingFacts(entries, now, dayStart, dayEnd);
    var rows := Summarise(future).rows;
    assert rows == future[..Min(MAX_ROWS, |future|)];
    assert forall i :: 0 <= i < |rows| ==> rows[i] == future[i];
  }

  lemma MeanAtMost(sum: real, n: nat, bound: real)
    requires n > 0 && sum <= n as real * bound
    ensures sum / n as real <= bound
  {
  }

  /** The figures of a summary: the unit is a probability exactly when every
      upcoming value lies in [0, 1], the peak is the largest upcoming value, the
      average is no larger than the peak, and the warning is raised exactly when
      some upcoming value reaches the threshold of the inferred unit (0.5 for a
      probability, 0.2 mm otherwise). */
  lemma SummaryFigures(future: seq<Entry>)
    requires future != []
    ensures var r := Summarise(future);
      && (forall i :: 0 <= i < |future| ==> future[i].value <= r.peak)
      && (exists i :: 0 <= i < |future| && future[i].value == r.peak)
      && r.average <= r.peak
      && (r.isProbability <==> forall i :: 0 <= i < |future| ==> 0.0 <= future[i].value <= 1.0)
      && (r.rainLikely <==>
            (exists i :: 0 <= i < |future| &&
               future[i].value >= (if r.isProbability then PROBABILITY_THRESHOLD else MILLIMETRE_THRESHOLD)))
  {
    var peak := MaxValue(future);
    SumAtMostMax(future, peak);
    MeanAtMost(SumValues(future), |future|, peak);
  }

  lemma FilterKeepsSorted(s: seq<Entry>, p: Entry -> bool)
    requires Sorted(s)
    ensures Sorted(Filter(s, p))
  {
    var idx := FilterOrigins(s, p);
  }
}
