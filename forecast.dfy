/**
 * The forecast view's daily aggregation: 3-hour entries are grouped by
 * calendar date (buckets in the order each date first occurs), each bucket
 * becomes one card with its rounded mean temperature and its most frequent
 * icon and description, and the cards are cut to 7 in week view or 30
 * otherwise.
 *
 * `dateKey` stands for `new Date(dt * 1000).toLocaleDateString()`, which
 * depends on the host's locale and time zone. Temperatures are exact reals.
 */
module Forecast {
  import opened ForecastData
  import opened Tally

  // ---------------------------------------------------------------------------
  // View mode

  /** The two modes the view switches between. */
  predicate IsViewMode(mode: string) {
    mode == "week" || mode == "month"
  }

  /** `toggleViewMode`: "week" becomes "month", anything else becomes "week". */
  function ToggleViewMode(mode: string): (next: string)
    ensures IsViewMode(next)
    ensures IsViewMode(mode) ==> next != mode
    ensures !IsViewMode(mode) ==> next == "week"
  {
    if mode == "week" then "month" else "week"
  }

  /** Toggling twice brings a valid mode back. */
  lemma ToggleTwiceRestoresMode(mode: string)
    requires IsViewMode(mode)
    ensures ToggleViewMode(ToggleViewMode(mode)) == mode
  {
  }

  /** How many cards the view keeps: 7 in week view, 30 in any other mode. */
  function Horizon(viewMode: string): (n: nat)
    ensures n == 7 || n == 30
    ensures n == 7 <==> viewMode == "week"
  {
    if viewMode == "week" then 7 else 30
  }

  // ---------------------------------------------------------------------------
  // Arithmetic of one bucket

  /** `Math.round`: the nearest integer, with halves going up (toward +infinity). */
  function RoundHalfUp(x: real): (n: int)
    ensures n as real - 0.5 <= x < n as real + 0.5
  {
    (x + 0.5).Floor
  }

  /** `temps.reduce((sum, temp) => sum + temp, 0)`. */
  function Sum(temps: seq<real>): real {
    if temps == [] then 0.0 else Sum(temps[..|temps| - 1]) + temps[|temps| - 1]
  }

  function Mean(temps: seq<real>): real
    requires temps != []
  {
    Sum(temps) / |temps| as real
  }

  lemma {:induction false} SumWithinBounds(temps: seq<real>, lo: real, hi: real)
    requires forall k :: 0 <= k < |temps| ==> lo <= temps[k] <= hi
    ensures |temps| as real * lo <= Sum(temps) <= |temps| as real * hi
  {
    if temps != [] {
      SumWithinBounds(temps[..|temps| - 1], lo, hi);
    }
  }

  /** The mean lies between any lower and upper bound of the temperatures. */
  lemma MeanWithinBounds(temps: seq<real>, lo: real, hi: real)
    requires temps != []
    requires forall k :: 0 <= k < |temps| ==> lo <= temps[k] <= hi
    ensures lo <= Mean(temps) <= hi
  {
    SumWithinBounds(temps, lo, hi);
    var n := |temps| as real;
    assert n * lo <= Sum(temps) <= n * hi;
    assert lo == n * lo / n && hi == n * hi / n;
  }

  /** A day whose entries all read `t` degrees, a whole number, shows `t`. */
  lemma ConstantTemperatureRoundsToItself(temps: seq<real>, t: int)
    requires temps != []
    requires forall k :: 0 <= k < |temps| ==> temps[k] == t as real
    ensures RoundHalfUp(Mean(temps)) == t
  {
    MeanWithinBounds(temps, t as real, t as real);
  }

  // ---------------------------------------------------------------------------
  // Buckets

  /** The date key of every entry, in input order. */
  function DateKeys(items: seq<Sample>, dateKey: int -> string): (keys: seq<string>)
    ensures |keys| == |items|
  {
    seq(|items|, k requires 0 <= k < |items| => dateKey(items[k].dt))
  }

  lemma DateKeysSnoc(items: seq<Sample>, x: Sample, dateKey: int -> string)
    ensures DateKeys(items + [x], dateKey) == DateKeys(items, dateKey) + [dateKey(x.dt)]
  {
  }

  /** The entries whose date key is `date`, in input order. */
  function OnDate(items: seq<Sample>, dateKey: int -> string, date: string): (day: seq<Sample>)
    ensures forall s :: s in day ==> s in items && dateKey(s.dt) == date
    ensures |day| == Count(DateKeys(items, dateKey), date)
  {
    if items == [] then []
    else
      var init := items[..|items| - 1];
      var x := items[|items| - 1];
      assert items == init + [x];
      DateKeysSnoc(init, x, dateKey);
      assert multiset(DateKeys(items, dateKey)) == multiset(DateKeys(init, dateKey)) + multiset{dateKey(x.dt)};
      OnDate(init, dateKey, date) + if dateKey(x.dt) == date then [x] else []
  }

  /** A date's entries are exactly the input entries with that date key. */
  lemma {:induction false} OnDateSelectsMatching(items: seq<Sample>, dateKey: int -> string, date: string)
    ensures forall s :: s in OnDate(items, dateKey, date) <==> s in items && dateKey(s.dt) == date
  {
    if items != [] {
      var init := items[..|items| - 1];
      OnDateSelectsMatching(init, dateKey, date);
      assert items == init + [items[|items| - 1]];
    }
  }

  /** One bucket of `dailyForecasts`: a date and the pushed readings. */
  datatype DayBucket = DayBucket(
    date: string,
    temps: seq<real>,
    icons: seq<string>,
    descriptions: seq<string>)

  function Temps(day: seq<Sample>): (temps: seq<real>)
    ensures |temps| == |day|
  {
    seq(|day|, k requires 0 <= k < |day| => day[k].temp)
  }

  function Icons(day: seq<Sample>): (icons: seq<string>)
    ensures |icons| == |day|
  {
    seq(|day|, k requires 0 <= k < |day| => day[k].icon)
  }

  function Descriptions(day: seq<Sample>): (descriptions: seq<string>)
    ensures |descriptions| == |day|
  {
    seq(|day|, k requires 0 <= k < |day| => day[k].description)
  }

  /** The bucket a complete pass over `items` builds for `date`. */
  function BucketOf(items: seq<Sample>, dateKey: int -> string, date: string): DayBucket {
    var day := OnDate(items, dateKey, date);
    DayBucket(date, Temps(day), Icons(day), Descriptions(day))
  }

  /** The three `push` calls of one entry onto its bucket. */
  function Push(b: DayBucket, item: Sample): DayBucket {
    b.(temps := b.temps + [item.temp], icons := b.icons + [item.icon],
       descriptions := b.descriptions + [item.description])
  }

  /** Adding one entry pushes its readings onto its own date's bucket only. */
  lemma BucketSnoc(items: seq<Sample>, x: Sample, dateKey: int -> string, date: string)
    ensures BucketOf(items + [x], dateKey, date) ==
      if dateKey(x.dt) == date then Push(BucketOf(items, dateKey, date), x)
      else BucketOf(items, dateKey, date)
  {
    assert (items + [x])[..|items|] == items;
  }

  /** The buckets after a pass over `items`, keyed by the dates seen so far. */
  ghost predicate GroupedSoFar(items: seq<Sample>, dateKey: int -> string,
                               dates: seq<string>, buckets: map<string, DayBucket>) {
    && dates == Distinct(DateKeys(items, dateKey))
    && (forall d :: d in buckets <==> d in dates)
    && (forall d :: d in buckets ==> buckets[d] == BucketOf(items, dateKey, d))
  }

  /**
   * One step of the bucketing pass: the entry's date joins the keys when it
   * is new, with an empty bucket, and the entry is pushed onto that bucket.
   */
  lemma GroupStep(seen: seq<Sample>, item: Sample, dateKey: int -> string,
                  dates: seq<string>, buckets: map<string, DayBucket>)
    requires GroupedSoFar(seen, dateKey, dates, buckets)
    ensures var date := dateKey(item.dt);
      var b := if date in buckets then buckets[date] else DayBucket(date, [], [], []);
      GroupedSoFar(seen + [item], dateKey,
                   if date in buckets then dates else dates + [date],
                   buckets[date := Push(b, item)])
  {
    var date := dateKey(item.dt);
    var b := if date in buckets then buckets[date] else DayBucket(date, [], [], []);
    var dates' := if date in buckets then dates else dates + [date];
    var buckets' := buckets[date := Push(b, item)];
    assert dates' == Distinct(DateKeys(seen + [item], dateKey)) by {
      DateKeysSnoc(seen, item, dateKey);
      DistinctSnoc(DateKeys(seen, dateKey), date);
    }
    forall d | d in buckets' ensures buckets'[d] == BucketOf(seen + [item], dateKey, d) {
      BucketSnoc(seen, item, dateKey, d);
      if d == date && date !in buckets {
        DistinctValues(DateKeys(seen, dateKey));
        assert |OnDate(seen, dateKey, date)| == 0;
      }
    }
  }

  /**
   * The bucketing pass: one `forEach` that creates an empty bucket the first
   * time a date is seen and pushes the entry's temperature, icon and
   * description onto its date's bucket. `dates` is the object's key list in
   * insertion order (date strings are not array indices).
   */
  method GroupByDate(forecastList: seq<Sample>, dateKey: int -> string)
    returns (dates: seq<string>, buckets: map<string, DayBucket>)
    ensures dates == Distinct(DateKeys(forecastList, dateKey))
    ensures forall d :: d in buckets <==> d in dates
    ensures forall d :: d in buckets ==> buckets[d] == BucketOf(forecastList, dateKey, d)
  {
    dates, buckets := [], map[];
    for i := 0 to |forecastList|
      invariant GroupedSoFar(forecastList[..i], dateKey, dates, buckets)
    {
      var item := forecastList[i];
      var date := dateKey(item.dt);
      assert forecastList[..i + 1] == forecastList[..i] + [item];
      GroupStep(forecastList[..i], item, dateKey, dates, buckets);
      if date !in buckets {
        dates := dates + [date];
        buckets := buckets[date := DayBucket(date, [], [], [])];
      }
      buckets := buckets[date := Push(buckets[date], item)];
    }
    assert forecastList[..|forecastList|] == forecastList;
  }

  /** Every date that occurs has a filled bucket. */
  lemma BucketOfOccurringDate(items: seq<Sample>, dateKey: int -> string, date: string)
    requires date in Distinct(DateKeys(items, dateKey))
    ensures |OnDate(items, dateKey, date)| > 0
    ensures Filled(BucketOf(items, dateKey, date))
  {
    DistinctValues(DateKeys(items, dateKey));
    assert date in multiset(DateKeys(items, dateKey));
  }

  /** The sizes of the buckets for `dates`. */
  function BucketSizes(items: seq<Sample>, dateKey: int -> string, dates: seq<string>): nat {
    if dates == [] then 0
    else BucketSizes(items, dateKey, dates[..|dates| - 1]) + |OnDate(items, dateKey, dates[|dates| - 1])|
  }

  lemma {:induction false} BucketSizesAreCounts(items: seq<Sample>, dateKey: int -> string, dates: seq<string>)
    ensures BucketSizes(items, dateKey, dates) == CountsOver(DateKeys(items, dateKey), dates)
  {
    if dates != [] {
      BucketSizesAreCounts(items, dateKey, dates[..|dates| - 1]);
    }
  }

  /** The buckets partition the input: their sizes add up to the number of entries. */
  lemma BucketsPartitionEntries(items: seq<Sample>, dateKey: int -> string)
    ensures BucketSizes(items, dateKey, Distinct(DateKeys(items, dateKey))) == |items|
  {
    BucketSizesAreCounts(items, dateKey, Distinct(DateKeys(items, dateKey)));
    CountsSumToLength(DateKeys(items, dateKey));
  }

  // ---------------------------------------------------------------------------
  // Daily summaries

  /** A bucket that holds at least one reading of each kind. */
  predicate Filled(b: DayBucket) {
    b.temps != [] && b.icons != [] && b.descriptions != []
  }

  /**
   * The card for one bucket: `Math.round` of the mean temperature and the
   * winners of the two count-table reduces.
   */
  function Summarize(b: DayBucket): DailySummary
    requires Filled(b)
  {
    DailySummary(b.date, RoundHalfUp(Mean(b.temps)), MostFrequent(b.icons), MostFrequent(b.descriptions))
  }

  /** The cards before truncation: one per bucket, in bucket order. */
  function AllSummaries(items: seq<Sample>, dateKey: int -> string): seq<DailySummary> {
    var dates := Distinct(DateKeys(items, dateKey));
    seq(|dates|, k requires 0 <= k < |dates| =>
      BucketOfOccurringDate(items, dateKey, dates[k]);
      Summarize(BucketOf(items, dateKey, dates[k])))
  }

  /** What `processForecastData(forecastList)` returns in the given view mode. */
  function DailyForecast(items: seq<Sample>, dateKey: int -> string, viewMode: string): seq<DailySummary> {
    var all := AllSummaries(items, dateKey);
    all[..Min(|all|, Horizon(viewMode))]
  }

  /** The dates of a list of cards. */
  function Dates(days: seq<DailySummary>): (dates: seq<string>)
    ensures |dates| == |days|
  {
    seq(|days|, k requires 0 <= k < |days| => days[k].date)
  }

  /** An empty forecast list gives no cards and no error. */
  lemma NoEntriesNoDays(dateKey: int -> string, viewMode: string)
    ensures DailyForecast([], dateKey, viewMode) == []
  {
  }

  /**
   * The cards' dates are the first `min(#dates, horizon)` distinct dates of
   * the input, in the order `Distinct` lists them.
   */
  lemma DaysAreLeadingDates(items: seq<Sample>, dateKey: int -> string, viewMode: string)
    ensures var dates := Distinct(DateKeys(items, dateKey));
      var days := DailyForecast(items, dateKey, viewMode);
      && |days| == Min(|dates|, Horizon(viewMode))
      && Dates(days) == dates[..|days|]
  {
    var dates := Distinct(DateKeys(items, dateKey));
    var days := DailyForecast(items, dateKey, viewMode);
    forall k | 0 <= k < |days| ensures days[k].date == dates[k] {
      assert days[k] == AllSummaries(items, dateKey)[k];
    }
  }

  /**
   * One card per distinct date, in the order each date first occurs in the
   * input: no date twice, an earlier card's date first occurs strictly
   * earlier, and when the horizon is not reached every date has its card.
   */
  lemma DaysAreFirstSeenDates(items: seq<Sample>, dateKey: int -> string, viewMode: string)
    ensures var keys := DateKeys(items, dateKey);
      var shown := Dates(DailyForecast(items, dateKey, viewMode));
      && NoDuplicates(shown)
      && (forall i, j :: 0 <= i < j < |shown| ==> FirstIndex(keys, shown[i]) < FirstIndex(keys, shown[j]))
      && (|shown| < Horizon(viewMode) ==> forall d :: d in keys <==> d in shown)
  {
    var keys := DateKeys(items, dateKey);
    var shown := Dates(DailyForecast(items, dateKey, viewMode));
    DaysAreLeadingDates(items, dateKey, viewMode);
    LeadingDistinctValues(keys, |shown|);
    DistinctValues(keys);
    if |shown| < Horizon(viewMode) {
      assert shown == Distinct(keys);
    }
  }

  /**
   * Each card summarizes exactly its date's entries: the bucket is not empty,
   * the temperature is the mean rounded half up, and icon and description
   * are the most frequent values, ties going to the value first seen latest.
   */
  lemma DaySummarizesItsEntries(items: seq<Sample>, dateKey: int -> string, viewMode: string, k: nat)
    requires k < |DailyForecast(items, dateKey, viewMode)|
    ensures var day := DailyForecast(items, dateKey, viewMode)[k];
      var entries := OnDate(items, dateKey, day.date);
      && entries != []
      && day.temp == RoundHalfUp(Mean(Temps(entries)))
      && IsLatestMode(Icons(entries), day.icon)
      && IsLatestMode(Descriptions(entries), day.description)
  {
    var dates := Distinct(DateKeys(items, dateKey));
    var day := DailyForecast(items, dateKey, viewMode)[k];
    assert day == Summarize(BucketOf(items, dateKey, dates[k]));
    BucketOfOccurringDate(items, dateKey, dates[k]);
    var entries := OnDate(items, dateKey, day.date);
    var n := RoundHalfUp(Mean(Temps(entries)));
    assert day.temp == n;
    MostFrequentIsLatestMode(Icons(entries));
    MostFrequentIsLatestMode(Descriptions(entries));
  }

  /**
   * Cards built from the bucketing pass's buckets, one per date in key
   * order and cut to the horizon, are what the view shows.
   */
  lemma CardsCutToHorizon(items: seq<Sample>, dateKey: int -> string, viewMode: string,
                          buckets: map<string, DayBucket>, cards: seq<DailySummary>)
    requires var dates := Distinct(DateKeys(items, dateKey));
      && (forall d :: d in dates ==> d in buckets && buckets[d] == BucketOf(items, dateKey, d))
      && (forall d :: d in dates ==> Filled(buckets[d]))
      && |cards| == |dates|
      && forall j :: 0 <= j < |cards| ==> cards[j] == Summarize(buckets[dates[j]])
    ensures cards[..Min(|cards|, Horizon(viewMode))] == DailyForecast(items, dateKey, viewMode)
  {
    var all := AllSummaries(items, dateKey);
    forall j | 0 <= j < |cards| ensures cards[j] == all[j] {
    }
    assert cards == all;
  }

  /**
   * The `map` callback for one bucket: the temperature sum, the two count
   * tables and the reduce over each table's keys.
   */
  method SummarizeBucket(day: DayBucket) returns (s: DailySummary)
    requires Filled(day)
    ensures s == Summarize(day)
  {
    var avgTemp := Sum(day.temps) / |day.temps| as real;
    var iconKeys, iconCounts := CountOccurrences(day.icons);
    DistinctValues(day.icons);
    var mainIcon := ReduceHeavier(iconCounts, iconKeys);
    var descKeys, descCounts := CountOccurrences(day.descriptions);
    DistinctValues(day.descriptions);
    var mainDescription := ReduceHeavier(descCounts, descKeys);
    s := DailySummary(day.date, RoundHalfUp(avgTemp), mainIcon, mainDescription);
  }

  /** `Object.keys(dailyForecasts).map(...)`: one card per bucket, in key order. */
  method SummarizeAll(dates: seq<string>, buckets: map<string, DayBucket>) returns (cards: seq<DailySummary>)
    requires forall d :: d in dates ==> d in buckets && Filled(buckets[d])
    ensures |cards| == |dates|
    ensures forall j :: 0 <= j < |dates| ==> cards[j] == Summarize(buckets[dates[j]])
  {
    ghost var wanted := seq(|dates|, j requires 0 <= j < |dates| => Summarize(buckets[dates[j]]));
    cards := [];
    for k := 0 to |dates|
      invariant cards == wanted[..k]
    {
      var card := SummarizeBucket(buckets[dates[k]]);
      assert wanted[..k + 1] == cards + [card];
      cards := cards + [card];
    }
    assert cards == wanted;
  }

  /**
   * `processForecastData`: the bucketing pass, then per bucket the sum, the
   * two count tables and their reduces, then the slice to the horizon.
   */
  method ProcessForecastData(forecastList: seq<Sample>, dateKey: int -> string, viewMode: string)
    returns (days: seq<DailySummary>)
    ensures days == DailyForecast(forecastList, dateKey, viewMode)
  {
    var dates, buckets := GroupByDate(forecastList, dateKey);
    forall d | d in dates ensures Filled(buckets[d]) {
      BucketOfOccurringDate(forecastList, dateKey, d);
    }
    var cards := SummarizeAll(dates, buckets);
    CardsCutToHorizon(forecastList, dateKey, viewMode, buckets, cards);
    days := cards[..Min(|cards|, Horizon(viewMode))];
  }
}
