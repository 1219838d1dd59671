/**
 * The real-time feed registry (data/real_time.py): an insertion-ordered table
 * of feeds, each with its kind, its current frame, its refresh interval in
 * seconds and the time of its last update, plus an append-only list of update
 * callbacks.
 *
 * The network request and its JSON decoding are one input per call (`Fetch`),
 * the clock is the parameter `now` (microseconds since an arbitrary epoch),
 * and the random number generator is a stream `draws` whose n-th element is
 * the n-th value of `random.random()` drawn by the call. A callback is known
 * by its identity; invoking it is modelled by returning a `Dispatch` record,
 * in invocation order, which the caller applies. The background thread and
 * its 30-second sleep are not modelled: `UpdateTick` is one pass of its loop.
 */
module FeedRegistry {
  import opened Geo
  import opened Text

  datatype FeedKind = Earthquake | Weather

  /** A feed record: `type`, `data`, `update_interval` (seconds) and `last_update` (microseconds). */
  datatype Feed = Feed(kind: FeedKind, data: Frame, updateInterval: int, lastUpdate: int)

  /** A registered update callback, by identity. */
  datatype Callback = Callback(id: nat)

  /** One invocation `callback(layer_name, data)`. */
  datatype Dispatch = Dispatch(callback: Callback, layerName: string, data: Frame)

  /** The outcome of requesting and decoding the earthquake feed: a frame, or any exception. */
  datatype Fetch = Fetched(frame: Frame) | FetchFailed

  /** The outcome of a data update: the callback invocations, or the `KeyError` of an unknown name. */
  datatype UpdateOutcome = Dispatched(calls: seq<Dispatch>) | UnknownFeed(name: string)

  const EarthquakeInterval: int := 60
  const WeatherInterval: int := 300
  const SampleQuakeCount: nat := 10
  const StationCount: nat := 20

  const MicrosPerSecond: int := 1_000_000
  const MicrosPerDay: int := 86_400_000_000

  // ------------------------------------------------------------- schedule

  /**
   * `timedelta(microseconds = d).seconds`: the whole seconds of the delta once
   * it is normalised to days, seconds and microseconds with days carrying the
   * sign, so whole days are discarded and a negative delta wraps into the
   * last day.
   */
  function Seconds(d: int): (s: int)
    ensures 0 <= s < 86_400
  {
    (d % MicrosPerDay) / MicrosPerSecond
  }

  /** A feed whose last update lies `elapsed` microseconds back is refreshed on this tick. */
  predicate Due(elapsed: int, updateInterval: int) {
    Seconds(elapsed) > updateInterval
  }

  /** Within one day the seconds are the whole seconds elapsed. */
  lemma SecondsWithinADay(d: int)
    requires 0 <= d < MicrosPerDay
    ensures Seconds(d) == d / MicrosPerSecond
    ensures Due(d, 60) <==> d >= 61 * MicrosPerSecond
  {
  }

  /** Whole days make no difference to the seconds, in either direction. */
  lemma {:induction false} SecondsIgnoreDays(d: int, days: int)
    ensures Seconds(d + days * MicrosPerDay) == Seconds(d)
  {
    var q := d / MicrosPerDay;
    var r := d % MicrosPerDay;
    assert d + days * MicrosPerDay == (q + days) * MicrosPerDay + r;
    assert (d + days * MicrosPerDay) % MicrosPerDay == r;
  }

  /**
   * A feed is due only when the seconds part strictly exceeds the interval:
   * one day and thirty seconds after its last update an earthquake feed is
   * not due, while a clock set back by one microsecond makes it due.
   */
  lemma DueExamples()
    ensures !Due(MicrosPerDay + 30 * MicrosPerSecond, EarthquakeInterval)
    ensures !Due(60 * MicrosPerSecond, EarthquakeInterval)
    ensures Due(61 * MicrosPerSecond, EarthquakeInterval)
    ensures Due(-1, EarthquakeInterval) && Due(-1, WeatherInterval)
  {
    SecondsIgnoreDays(30 * MicrosPerSecond, 1);
    SecondsIgnoreDays(MicrosPerDay - 1, -1);
  }

  // ----------------------------------------------------------- sample data

  /** `random.uniform(a, b)` given the draw `u` of `random.random()`. */
  function Uniform(a: real, b: real, u: real): real {
    a + (b - a) * u
  }

  /** A draw in [0, 1] gives a value in [a, b]. */
  lemma UniformBetween(a: real, b: real, u: real)
    requires a <= b && 0.0 <= u <= 1.0
    ensures a <= Uniform(a, b, u) <= b
  {
    var w := b - a;
    assert 0.0 <= w * u by { MulNonnegative(w, u); }
    assert 0.0 <= w * (1.0 - u) by { MulNonnegative(w, 1.0 - u); }
    assert w * (1.0 - u) == w - w * u;
  }

  /** A product of non-negative reals is non-negative; `UniformBetween` uses it for both ends of the interval. */
  lemma MulNonnegative(x: real, y: real)
    requires 0.0 <= x && 0.0 <= y
    ensures 0.0 <= x * y
  {
  }

  /** The place of sample earthquake `i`: `f"Sample Location {i}"`. */
  function SamplePlace(i: nat): string {
    "Sample Location " + Digits(i)
  }

  /** The point of sample earthquake `i`: its second and third draws. */
  function SampleQuakePoint(draws: nat -> real, i: nat): (real, real) {
    (Uniform(-180.0, 180.0, draws(3 * i + 1)), Uniform(-90.0, 90.0, draws(3 * i + 2)))
  }

  /** Sample earthquake `i`: magnitude from its first draw, place, time and point geometry. */
  function SampleQuakeRow(draws: nat -> real, now: int, i: nat): Row {
    var p := SampleQuakePoint(draws, i);
    Row(map["magnitude" := Num(Uniform(1.0, 5.0, draws(3 * i))),
            "place" := Str(SamplePlace(i)),
            "time" := Stamp(now)],
        Some(PointGeometry(p.0, p.1)))
  }

  /** The frame of sample earthquakes, in WGS 84, bounded by its points. */
  function SampleEarthquakes(draws: nat -> real, now: int): Frame {
    Frame(seq(SampleQuakeCount, i requires 0 <= i => SampleQuakeRow(draws, now, i)),
          Union(SampleQuakeExtents(draws)),
          Some(Wgs84))
  }

  /** The extents of the sample earthquakes' points, in row order. */
  function SampleQuakeExtents(draws: nat -> real): seq<Extent> {
    seq(SampleQuakeCount, i requires 0 <= i => var p := SampleQuakePoint(draws, i); PointExtent(p.0, p.1))
  }

  /** Distinct numbers print differently. */
  lemma DigitsInjective(a: nat, b: nat)
    requires Digits(a) == Digits(b)
    ensures a == b
  {
    ParseDigits(a);
    ParseDigits(b);
  }

  /**
   * A common prefix can be dropped from both sides of an equation; the proofs
   * that sample places and station ids are distinct use it to get back to
   * equal digit strings.
   */
  lemma PrefixCancels(p: string, s: string, t: string)
    requires p + s == p + t
    ensures s == t
  {
    assert s == (p + s)[|p|..];
    assert t == (p + t)[|p|..];
  }

  /**
   * The sample frame has exactly ten rows in WGS 84, whose places are
   * "Sample Location 0" to "Sample Location 9" in row order, so no two are
   * equal.
   */
  lemma SampleEarthquakesShape(draws: nat -> real, now: int)
    ensures var f := SampleEarthquakes(draws, now);
      && |f.rows| == 10 && f.crs == Some(Wgs84)
      && (forall i :: 0 <= i < 10 ==> f.rows[i].attrs["place"] == Str(SamplePlace(i)))
      && (forall i, j :: 0 <= i < j < 10 ==> f.rows[i].attrs["place"] != f.rows[j].attrs["place"])
  {
    var f := SampleEarthquakes(draws, now);
    forall i, j | 0 <= i < j < 10
      ensures f.rows[i].attrs["place"] != f.rows[j].attrs["place"]
    {
      if SamplePlace(i) == SamplePlace(j) {
        PrefixCancels("Sample Location ", Digits(i), Digits(j));
        DigitsInjective(i, j);
      }
    }
  }

  /** Magnitudes lie in [1, 5] when the draws lie in [0, 1]. */
  lemma SampleMagnitudesBetween(draws: nat -> real, now: int)
    ensures forall i :: 0 <= i < 10 && 0.0 <= draws(3 * i) <= 1.0 ==>
              1.0 <= SampleEarthquakes(draws, now).rows[i].attrs["magnitude"].x <= 5.0
  {
    forall i | 0 <= i < 10 && 0.0 <= draws(3 * i) <= 1.0
      ensures 1.0 <= SampleEarthquakes(draws, now).rows[i].attrs["magnitude"].x <= 5.0
    {
      UniformBetween(1.0, 5.0, draws(3 * i));
    }
  }

  /** Each sample row's geometry contains its own point, and the frame's extent encloses that point. */
  lemma SamplePointsInExtent(draws: nat -> real, now: int)
    ensures forall i :: 0 <= i < 10 ==>
              var f, p := SampleEarthquakes(draws, now), SampleQuakePoint(draws, i);
              RowContains(f.rows[i], p.0, p.1) && Encloses(f.extent, PointExtent(p.0, p.1))
  {
    var es := SampleQuakeExtents(draws);
    UnionEncloses(es);
    forall i | 0 <= i < 10
      ensures var p := SampleQuakePoint(draws, i); Encloses(SampleEarthquakes(draws, now).extent, PointExtent(p.0, p.1))
    {
      assert es[i] == PointExtent(SampleQuakePoint(draws, i).0, SampleQuakePoint(draws, i).1);
    }
  }

  /** The identifier of weather station `i`: `f"ST{i:03d}"`. */
  function StationId(i: nat): string {
    "ST" + ZeroPad(i, 3)
  }

  /** The point of station `i`: its third and fourth draws. */
  function StationPoint(draws: nat -> real, i: nat): (real, real) {
    (Uniform(-180.0, 180.0, draws(4 * i + 2)), Uniform(-90.0, 90.0, draws(4 * i + 3)))
  }

  /** Station `i`: identifier, temperature and humidity from its first two draws, point geometry. */
  function StationRow(draws: nat -> real, i: nat): Row {
    var p := StationPoint(draws, i);
    Row(map["station_id" := Str(StationId(i)),
            "temperature" := Num(Uniform(-10.0, 35.0, draws(4 * i))),
            "humidity" := Num(Uniform(30.0, 100.0, draws(4 * i + 1)))],
        Some(PointGeometry(p.0, p.1)))
  }

  /** The frame of simulated weather stations, in WGS 84, bounded by its points. */
  function WeatherStations(draws: nat -> real): Frame {
    Frame(seq(StationCount, i requires 0 <= i => StationRow(draws, i)),
          Union(StationExtents(draws)),
          Some(Wgs84))
  }

  /** The extents of the stations' points, in row order. */
  function StationExtents(draws: nat -> real): seq<Extent> {
    seq(StationCount, i requires 0 <= i => var p := StationPoint(draws, i); PointExtent(p.0, p.1))
  }

  /** The first and last identifiers. */
  lemma StationIdExamples()
    ensures StationId(0) == "ST000" && StationId(19) == "ST019"
  {
    assert DigitChar(0) == '0' && DigitChar(1) == '1' && DigitChar(9) == '9';
    assert Digits(0) == "0";
    var z := seq(2, _ => '0');
    assert z == "00";
    assert ZeroPad(0, 3) == z + "0" == "000";
    assert Digits(1) == "1";
    assert Digits(19) == "19";
    assert ZeroPad(19, 3) == "0" + "19" == "019";
  }

  /**
   * The station frame has exactly twenty rows in WGS 84, with identifiers
   * "ST" followed by the row number in three digits: each is five characters
   * long and reads back as its row number.
   */
  lemma WeatherStationsShape(draws: nat -> real)
    ensures var f := WeatherStations(draws);
      && |f.rows| == 20 && f.crs == Some(Wgs84)
      && (forall i :: 0 <= i < 20 ==>
            && f.rows[i].attrs["station_id"] == Str(StationId(i))
            && |StationId(i)| == 5
            && AllDigits(StationId(i)[2..]) && ParseDecimal(StationId(i)[2..]) == i)
  {
    assert Pow10(3) == 1000;
    forall i | 0 <= i < 20
      ensures |StationId(i)| == 5
      ensures AllDigits(StationId(i)[2..]) && ParseDecimal(StationId(i)[2..]) == i
    {
      ZeroPadWidth(i, 3);
      ParseZeroPad(i, 3);
      assert StationId(i)[2..] == ZeroPad(i, 3);
    }
  }

  /** No two stations share an identifier. */
  lemma StationIdsDistinct(draws: nat -> real)
    ensures forall i, j :: 0 <= i < j < 20 ==>
              WeatherStations(draws).rows[i].attrs["station_id"] != WeatherStations(draws).rows[j].attrs["station_id"]
  {
    forall i, j | 0 <= i < j < 20
      ensures StationId(i) != StationId(j)
    {
      if StationId(i) == StationId(j) {
        PrefixCancels("ST", ZeroPad(i, 3), ZeroPad(j, 3));
        ZeroPadInjective(i, j, 3);
      }
    }
  }

  /** Temperatures lie in [-10, 35] and humidities in [30, 100] when the draws lie in [0, 1]. */
  lemma StationReadingsBetween(draws: nat -> real)
    ensures forall i :: 0 <= i < 20 && 0.0 <= draws(4 * i) <= 1.0 ==>
              -10.0 <= WeatherStations(draws).rows[i].attrs["temperature"].x <= 35.0
    ensures forall i :: 0 <= i < 20 && 0.0 <= draws(4 * i + 1) <= 1.0 ==>
              30.0 <= WeatherStations(draws).rows[i].attrs["humidity"].x <= 100.0
  {
    forall i | 0 <= i < 20 && 0.0 <= draws(4 * i) <= 1.0
      ensures -10.0 <= WeatherStations(draws).rows[i].attrs["temperature"].x <= 35.0
    {
      UniformBetween(-10.0, 35.0, draws(4 * i));
    }
    forall i | 0 <= i < 20 && 0.0 <= draws(4 * i + 1) <= 1.0
      ensures 30.0 <= WeatherStations(draws).rows[i].attrs["humidity"].x <= 100.0
    {
      UniformBetween(30.0, 100.0, draws(4 * i + 1));
    }
  }

  // ---------------------------------------------------------------- ticks

  /** Python's `d[k] = v`: a new key goes to the end of the iteration order, an existing one keeps its place. */
  function Put(order: seq<string>, name: string): seq<string> {
    if name in order then order else order + [name]
  }

  /** One invocation per callback, in registration order. */
  function Dispatches(callbacks: seq<Callback>, name: string, data: Frame): seq<Dispatch> {
    seq(|callbacks|, k requires 0 <= k < |callbacks| => Dispatch(callbacks[k], name, data))
  }

  /**
   * A feed after one tick: unchanged unless due; a due earthquake feed whose
   * re-fetch succeeds is re-registered with the new frame; every other due
   * feed keeps its record and is stamped with `now`.
   */
  function TickedFeed(f: Feed, now: int, fetched: Fetch): Feed {
    if !Due(now - f.lastUpdate, f.updateInterval) then f
    else if f.kind == Earthquake && fetched.Fetched? then Feed(Earthquake, fetched.frame, EarthquakeInterval, now)
    else f.(lastUpdate := now)
  }

  /** The callback invocations of one tick over the feeds named in `order`, in that order. */
  function TickCalls(order: seq<string>, feeds: map<string, Feed>, now: int, fetch: string -> Fetch,
                     callbacks: seq<Callback>): seq<Dispatch>
    requires forall n :: n in order ==> n in feeds
  {
    if order == [] then []
    else
      var name := order[|order| - 1];
      var f := feeds[name];
      TickCalls(order[..|order| - 1], feeds, now, fetch, callbacks)
        + (if Due(now - f.lastUpdate, f.updateInterval)
           then Dispatches(callbacks, name, TickedFeed(f, now, fetch(name)).data)
           else [])
  }

  /** Multiplication distributes over a successor; `TickCallsDueLength` uses it for the length of one more feed's block. */
  lemma SuccTimes(a: nat, c: nat)
    ensures (a + 1) * c == a * c + c
  {
  }

  /** A tick in which no feed is due invokes no callback. */
  lemma {:induction false} TickCallsNoneDue(order: seq<string>, feeds: map<string, Feed>, now: int,
                                            fetch: string -> Fetch, callbacks: seq<Callback>)
    requires forall n :: n in order ==> n in feeds
    requires forall n :: n in order ==> !Due(now - feeds[n].lastUpdate, feeds[n].updateInterval)
    ensures TickCalls(order, feeds, now, fetch, callbacks) == []
  {
    if order != [] {
      var init := order[..|order| - 1];
      assert forall n :: n in init ==> n in order;
      TickCallsNoneDue(init, feeds, now, fetch, callbacks);
      assert order[|order| - 1] in order;
    }
  }

  /**
   * A tick in which every feed is due invokes every callback once per feed:
   * feed by feed in table order, and for each feed the callbacks in
   * registration order, each with that feed's frame after the tick.
   */
  lemma {:induction false} TickCallsAllDue(order: seq<string>, feeds: map<string, Feed>, now: int,
                                           fetch: string -> Fetch, callbacks: seq<Callback>)
    requires forall n :: n in order ==> n in feeds
    requires forall n :: n in order ==> Due(now - feeds[n].lastUpdate, feeds[n].updateInterval)
    ensures |TickCalls(order, feeds, now, fetch, callbacks)| == |order| * |callbacks|
    ensures forall i, k :: 0 <= i < |order| && 0 <= k < |callbacks| ==>
      && CallSlot(i, k, |callbacks|) < |TickCalls(order, feeds, now, fetch, callbacks)|
      && TickCalls(order, feeds, now, fetch, callbacks)[CallSlot(i, k, |callbacks|)]
           == Dispatch(callbacks[k], order[i], TickedFeed(feeds[order[i]], now, fetch(order[i])).data)
  {
    TickCallsDueLength(order, feeds, now, fetch, callbacks);
    TickCallsDueElements(order, feeds, now, fetch, callbacks);
  }

  /** Where the k-th of c callbacks is invoked for the i-th feed when every feed is due: after i blocks of c. */
  function CallSlot(i: nat, k: nat, c: nat): nat {
    i * c + k
  }

  /** The last feed of an all-due tick adds its whole block of invocations. */
  lemma TickCallsDueLast(order: seq<string>, feeds: map<string, Feed>, now: int,
                         fetch: string -> Fetch, callbacks: seq<Callback>)
    requires order != []
    requires forall n :: n in order ==> n in feeds
    requires forall n :: n in order ==> Due(now - feeds[n].lastUpdate, feeds[n].updateInterval)
    ensures forall n :: n in order[..|order| - 1] ==> n in feeds
    ensures TickCalls(order, feeds, now, fetch, callbacks)
      == TickCalls(order[..|order| - 1], feeds, now, fetch, callbacks)
         + Dispatches(callbacks, order[|order| - 1],
                      TickedFeed(feeds[order[|order| - 1]], now, fetch(order[|order| - 1])).data)
  {
    assert forall n :: n in order[..|order| - 1] ==> n in order;
    assert order[|order| - 1] in order;
  }

  /** The length part of `TickCallsAllDue`, by induction on the table order. */
  lemma {:induction false} TickCallsDueLength(order: seq<string>, feeds: map<string, Feed>, now: int,
                                              fetch: string -> Fetch, callbacks: seq<Callback>)
    requires forall n :: n in order ==> n in feeds
    requires forall n :: n in order ==> Due(now - feeds[n].lastUpdate, feeds[n].updateInterval)
    ensures |TickCalls(order, feeds, now, fetch, callbacks)| == |order| * |callbacks|
  {
    if order != [] {
      var init := order[..|order| - 1];
      TickCallsDueLast(order, feeds, now, fetch, callbacks);
      assert forall n :: n in init ==> n in order;
      TickCallsDueLength(init, feeds, now, fetch, callbacks);
      SuccTimes(|init|, |callbacks|);
    }
  }

  /** The element part of `TickCallsAllDue`, slot by slot. */
  lemma TickCallsDueElements(order: seq<string>, feeds: map<string, Feed>, now: int,
                             fetch: string -> Fetch, callbacks: seq<Callback>)
    requires forall n :: n in order ==> n in feeds
    requires forall n :: n in order ==> Due(now - feeds[n].lastUpdate, feeds[n].updateInterval)
    ensures forall i, k :: 0 <= i < |order| && 0 <= k < |callbacks| ==>
      && CallSlot(i, k, |callbacks|) < |TickCalls(order, feeds, now, fetch, callbacks)|
      && TickCalls(order, feeds, now, fetch, callbacks)[CallSlot(i, k, |callbacks|)]
           == Dispatch(callbacks[k], order[i], TickedFeed(feeds[order[i]], now, fetch(order[i])).data)
  {
    forall i, k | 0 <= i < |order| && 0 <= k < |callbacks|
      ensures && CallSlot(i, k, |callbacks|) < |TickCalls(order, feeds, now, fetch, callbacks)|
              && TickCalls(order, feeds, now, fetch, callbacks)[CallSlot(i, k, |callbacks|)]
                   == Dispatch(callbacks[k], order[i], TickedFeed(feeds[order[i]], now, fetch(order[i])).data)
    {
      TickCallsDueAt(order, feeds, now, fetch, callbacks, i, k);
    }
  }

  /** One slot of an all-due tick, by induction on the table order. */
  lemma {:induction false} TickCallsDueAt(order: seq<string>, feeds: map<string, Feed>, now: int,
                                          fetch: string -> Fetch, callbacks: seq<Callback>, i: nat, k: nat)
    requires forall n :: n in order ==> n in feeds
    requires forall n :: n in order ==> Due(now - feeds[n].lastUpdate, feeds[n].updateInterval)
    requires i < |order| && k < |callbacks|
    ensures CallSlot(i, k, |callbacks|) < |TickCalls(order, feeds, now, fetch, callbacks)|
    ensures TickCalls(order, feeds, now, fetch, callbacks)[CallSlot(i, k, |callbacks|)]
      == Dispatch(callbacks[k], order[i], TickedFeed(feeds[order[i]], now, fetch(order[i])).data)
  {
    var init := order[..|order| - 1];
    TickCallsDueLast(order, feeds, now, fetch, callbacks);
    assert forall n :: n in init ==> n in order;
    TickCallsDueLength(init, feeds, now, fetch, callbacks);
    var before := TickCalls(init, feeds, now, fetch, callbacks);
    var j := CallSlot(i, k, |callbacks|);
    if i < |init| {
      TickCallsDueAt(init, feeds, now, fetch, callbacks, i, k);
      assert init[i] == order[i];
    } else {
      assert j == |before| + k;
    }
  }

  /**
   * Every invocation of a tick is of a registered callback, for a feed of the
   * table, with that feed's frame after the tick.
   */
  lemma {:induction false} TickCallsRecords(order: seq<string>, feeds: map<string, Feed>, now: int,
                                            fetch: string -> Fetch, callbacks: seq<Callback>)
    requires forall n :: n in order ==> n in feeds
    ensures forall d :: d in TickCalls(order, feeds, now, fetch, callbacks) ==>
              && d.callback in callbacks && d.layerName in order
              && d.data == TickedFeed(feeds[d.layerName], now, fetch(d.layerName)).data
  {
    if order != [] {
      var init := order[..|order| - 1];
      assert forall n :: n in init ==> n in order;
      TickCallsRecords(init, feeds, now, fetch, callbacks);
    }
  }

  /** Extending the visited prefix by one feed appends that feed's invocations. */
  lemma TickCallsStep(order: seq<string>, i: nat, feeds: map<string, Feed>, now: int,
                      fetch: string -> Fetch, callbacks: seq<Callback>)
    requires i < |order| && forall n :: n in order ==> n in feeds
    ensures forall n :: n in order[..i + 1] ==> n in feeds
    ensures var f := feeds[order[i]];
      TickCalls(order[..i + 1], feeds, now, fetch, callbacks)
        == TickCalls(order[..i], feeds, now, fetch, callbacks)
           + (if Due(now - f.lastUpdate, f.updateInterval)
              then Dispatches(callbacks, order[i], TickedFeed(f, now, fetch(order[i])).data)
              else [])
  {
    assert order[..i + 1][..i] == order[..i];
  }

  /** The feed table once the feeds named in `visited` have been ticked. */
  ghost function TickedOnly(feeds: map<string, Feed>, visited: seq<string>, now: int,
                            fetch: string -> Fetch): map<string, Feed>
  {
    map n | n in feeds :: if n in visited then TickedFeed(feeds[n], now, fetch(n)) else feeds[n]
  }

  /** Ticking one more feed of a table without repeated names updates that entry alone. */
  lemma TickedOnlyStep(order: seq<string>, i: nat, feeds: map<string, Feed>, now: int,
                       fetch: string -> Fetch)
    requires Distinct(order) && i < |order| && order[i] in feeds
    ensures TickedOnly(feeds, order[..i], now, fetch)[order[i]] == feeds[order[i]]
    ensures TickedOnly(feeds, order[..i + 1], now, fetch)
         == TickedOnly(feeds, order[..i], now, fetch)[order[i] := TickedFeed(feeds[order[i]], now, fetch(order[i]))]
  {
    assert order[i] !in order[..i];
    assert forall n :: n in order[..i + 1] <==> n in order[..i] || n == order[i];
  }

  /** Once every name of the table has been visited, every feed is ticked. */
  lemma TickedOnlyAll(feeds: map<string, Feed>, order: seq<string>, now: int, fetch: string -> Fetch)
    requires forall n :: n in feeds <==> n in order
    ensures TickedOnly(feeds, order, now, fetch).Keys == feeds.Keys
    ensures forall n :: n in feeds ==> TickedOnly(feeds, order, now, fetch)[n] == TickedFeed(feeds[n], now, fetch(n))
  {
  }

  // ------------------------------------------------------------ the registry

  class RealTimeData {
    /** Feed name to feed record. */
    var activeFeeds: map<string, Feed>
    /** The names of `activeFeeds` in insertion order. */
    var feedOrder: seq<string>
    /** Registered callbacks, in registration order. */
    var updateCallbacks: seq<Callback>

    ghost predicate Valid()
      reads this
    {
      Distinct(feedOrder) && (forall n :: n in activeFeeds <==> n in feedOrder)
    }

    constructor ()
      ensures Valid()
      ensures activeFeeds == map[] && feedOrder == [] && updateCallbacks == []
    {
      activeFeeds := map[];
      feedOrder := [];
      updateCallbacks := [];
    }

    /**
     * Registers (or re-registers) the earthquake feed under `layerName` when
     * the fetch succeeds and returns its frame; when it fails, returns sample
     * data and registers nothing.
     */
    method AddEarthquakeFeed(layerName: string, fetched: Fetch, now: int, draws: nat -> real) returns (gdf: Frame)
      requires Valid()
      modifies this
      ensures Valid()
      ensures updateCallbacks == old(updateCallbacks)
      ensures fetched.Fetched? ==>
        && gdf == fetched.frame
        && activeFeeds == old(activeFeeds)[layerName := Feed(Earthquake, gdf, EarthquakeInterval, now)]
        && feedOrder == Put(old(feedOrder), layerName)
      ensures fetched.FetchFailed? ==>
        && gdf == SampleEarthquakes(draws, now)
        && activeFeeds == old(activeFeeds) && feedOrder == old(feedOrder)
    {
      if fetched.FetchFailed? {
        gdf := CreateSampleEarthquakes(draws, now);
        return;
      }
      gdf := fetched.frame;
      activeFeeds := activeFeeds[layerName := Feed(Earthquake, gdf, EarthquakeInterval, now)];
      feedOrder := Put(feedOrder, layerName);
    }

    /** Ten sample earthquakes, built one row at a time. */
    method CreateSampleEarthquakes(draws: nat -> real, now: int) returns (gdf: Frame)
      ensures gdf == SampleEarthquakes(draws, now)
    {
      var rows: seq<Row> := [];
      var extents: seq<Extent> := [];
      for i := 0 to SampleQuakeCount
        invariant rows == seq(i, k requires 0 <= k => SampleQuakeRow(draws, now, k))
        invariant extents == SampleQuakeExtents(draws)[..i]
      {
        var magnitude := Uniform(1.0, 5.0, draws(3 * i));
        var x := Uniform(-180.0, 180.0, draws(3 * i + 1));
        var y := Uniform(-90.0, 90.0, draws(3 * i + 2));
        rows := rows + [Row(map["magnitude" := Num(magnitude),
                                "place" := Str("Sample Location " + Digits(i)),
                                "time" := Stamp(now)],
                            Some(PointGeometry(x, y)))];
        extents := extents + [PointExtent(x, y)];
      }
      assert extents == SampleQuakeExtents(draws);
      gdf := Frame(rows, Union(extents), Some(Wgs84));
    }

    /** Builds twenty simulated stations and registers them under `layerName` as a weather feed. */
    method AddWeatherStations(layerName: string, now: int, draws: nat -> real) returns (gdf: Frame)
      requires Valid()
      modifies this
      ensures Valid()
      ensures gdf == WeatherStations(draws)
      ensures activeFeeds == old(activeFeeds)[layerName := Feed(Weather, gdf, WeatherInterval, now)]
      ensures feedOrder == Put(old(feedOrder), layerName)
      ensures updateCallbacks == old(updateCallbacks)
    {
      var stations: seq<Row> := [];
      var extents: seq<Extent> := [];
      for i := 0 to StationCount
        invariant stations == seq(i, k requires 0 <= k => StationRow(draws, k))
        invariant extents == StationExtents(draws)[..i]
      {
        var temperature := Uniform(-10.0, 35.0, draws(4 * i));
        var humidity := Uniform(30.0, 100.0, draws(4 * i + 1));
        var x := Uniform(-180.0, 180.0, draws(4 * i + 2));
        var y := Uniform(-90.0, 90.0, draws(4 * i + 3));
        stations := stations + [Row(map["station_id" := Str("ST" + ZeroPad(i, 3)),
                                        "temperature" := Num(temperature),
                                        "humidity" := Num(humidity)],
                                    Some(PointGeometry(x, y)))];
        assert stations[i] == StationRow(draws, i);
        extents := extents + [PointExtent(x, y)];
        assert extents[i] == StationExtents(draws)[i];
      }
      assert extents == StationExtents(draws);
      gdf := Frame(stations, Union(extents), Some(Wgs84));
      activeFeeds := activeFeeds[layerName := Feed(Weather, gdf, WeatherInterval, now)];
      feedOrder := Put(feedOrder, layerName);
    }

    /**
     * Stamps the named feed with `now` and invokes every callback once, in
     * registration order, with the feed's frame; an unknown name is the
     * `KeyError` and changes nothing.
     */
    method SimulateDataUpdate(layerName: string, now: int) returns (r: UpdateOutcome)
      requires Valid()
      modifies this`activeFeeds
      ensures Valid()
      ensures layerName !in old(activeFeeds) ==> r == UnknownFeed(layerName) && activeFeeds == old(activeFeeds)
      ensures layerName in old(activeFeeds) ==>
        && activeFeeds == old(activeFeeds)[layerName := old(activeFeeds)[layerName].(lastUpdate := now)]
        && r.Dispatched?
        && |r.calls| == |updateCallbacks|
        && (forall k :: 0 <= k < |r.calls| ==>
              r.calls[k] == Dispatch(updateCallbacks[k], layerName, old(activeFeeds)[layerName].data))
    {
      if layerName !in activeFeeds {
        return UnknownFeed(layerName);
      }
      var feed := activeFeeds[layerName];
      activeFeeds := activeFeeds[layerName := feed.(lastUpdate := now)];
      var calls: seq<Dispatch> := [];
      for k := 0 to |updateCallbacks|
        invariant calls == Dispatches(updateCallbacks[..k], layerName, feed.data)
      {
        calls := calls + [Dispatch(updateCallbacks[k], layerName, feed.data)];
      }
      assert updateCallbacks[..|updateCallbacks|] == updateCallbacks;
      r := Dispatched(calls);
    }

    /** Appends a callback. */
    method RegisterUpdateCallback(callback: Callback)
      modifies this`updateCallbacks
      ensures updateCallbacks == old(updateCallbacks) + [callback]
    {
      updateCallbacks := updateCallbacks + [callback];
    }

    /**
     * The body of the update loop for the feed `name`: when it is due, an
     * earthquake feed is re-fetched (`fetched` is the outcome) and the feed is
     * then updated, which stamps it and invokes the callbacks.
     */
    method TickFeed(name: string, now: int, fetched: Fetch, draws: nat -> real) returns (calls: seq<Dispatch>)
      requires Valid() && name in activeFeeds
      modifies this
      ensures Valid()
      ensures feedOrder == old(feedOrder) && updateCallbacks == old(updateCallbacks)
      ensures activeFeeds == old(activeFeeds)[name := TickedFeed(old(activeFeeds)[name], now, fetched)]
      ensures var f := old(activeFeeds)[name];
        calls == if Due(now - f.lastUpdate, f.updateInterval)
                 then Dispatches(updateCallbacks, name, TickedFeed(f, now, fetched).data)
                 else []
    {
      var feed := activeFeeds[name];
      calls := [];
      if Due(now - feed.lastUpdate, feed.updateInterval) {
        if feed.kind == Earthquake {
          var _ := AddEarthquakeFeed(name, fetched, now, draws);
        }
        var r := SimulateDataUpdate(name, now);
        calls := r.calls;
      }
    }

    /** The `i`-th step of a pass that started from the table `start`. */
    method TickNext(i: nat, ghost start: map<string, Feed>, now: int, fetch: string -> Fetch,
                    draws: nat -> real) returns (r: seq<Dispatch>)
      requires Valid() && i < |feedOrder| && start.Keys == activeFeeds.Keys
      requires activeFeeds == TickedOnly(start, feedOrder[..i], now, fetch)
      modifies this
      ensures Valid()
      ensures feedOrder == old(feedOrder) && updateCallbacks == old(updateCallbacks)
      ensures activeFeeds == TickedOnly(start, feedOrder[..i + 1], now, fetch)
      ensures forall n :: n in feedOrder[..i + 1] ==> n in start
      ensures TickCalls(feedOrder[..i + 1], start, now, fetch, updateCallbacks)
           == TickCalls(feedOrder[..i], start, now, fetch, updateCallbacks) + r
    {
      var name := feedOrder[i];
      TickedOnlyStep(feedOrder, i, start, now, fetch);
      TickCallsStep(feedOrder, i, start, now, fetch, updateCallbacks);
      r := TickFeed(name, now, fetch(name), draws);
    }

    /**
     * One pass of the update loop at time `now`: every due feed, in table
     * order, is re-fetched if it is an earthquake feed (`fetch(name)` is the
     * outcome of that request) and then updated, which stamps it and invokes
     * the callbacks. The table's names and order and the callbacks are
     * unchanged; every feed ends as `TickedFeed` says and the invocations are
     * `TickCalls`.
     */
    method UpdateTick(now: int, fetch: string -> Fetch, draws: nat -> real) returns (calls: seq<Dispatch>)
      requires Valid()
      modifies this
      ensures Valid()
      ensures feedOrder == old(feedOrder) && updateCallbacks == old(updateCallbacks)
      ensures activeFeeds.Keys == old(activeFeeds).Keys
      ensures forall n :: n in activeFeeds ==> activeFeeds[n] == TickedFeed(old(activeFeeds)[n], now, fetch(n))
      ensures calls == TickCalls(feedOrder, old(activeFeeds), now, fetch, updateCallbacks)
    {
      calls := [];
      var i := 0;
      while i < |feedOrder|
        invariant Valid()
        invariant feedOrder == old(feedOrder) && updateCallbacks == old(updateCallbacks)
        invariant 0 <= i <= |feedOrder|
        invariant activeFeeds == TickedOnly(old(activeFeeds), feedOrder[..i], now, fetch)
        invariant forall n :: n in feedOrder ==> n in old(activeFeeds)
        invariant calls == TickCalls(feedOrder[..i], old(activeFeeds), now, fetch, updateCallbacks)
      {
        var r := TickNext(i, old(activeFeeds), now, fetch, draws);
        calls := calls + r;
        i := i + 1;
      }
      assert feedOrder[..i] == feedOrder;
      TickedOnlyAll(old(activeFeeds), feedOrder, now, fetch);
    }
  }
}
