/**
 * The extended-forecast generator of the weather service: it pads a list of
 * 3-hour forecast entries out to `totalDays` days by replaying the first week
 * of entries, each replay shifted seven days later than the one before.
 *
 * The HTTP calls around it are not modelled; the one caller passes 30 days.
 */
module WeatherApi {
  import opened ForecastData

  /** Three-hour slots in a day. */
  const SlotsPerDay: int := 8
  /** At most this many leading entries (seven days of slots) form the pattern. */
  const PatternCap: nat := 56
  /** Every replay of the pattern moves this many days later. */
  const DaysPerCycle: int := 7
  const SecondsPerDay: int := 86400
  /** The largest magnitude of an ECMAScript time value, in milliseconds. */
  const MaxTimeValueMs: int := 8_640_000_000_000_000

  /** What the JavaScript code throws on the way. */
  datatype Failure =
    | UndefinedEntry    // `pattern[NaN].dt`: reading a field of `undefined` (TypeError)
    | InvalidTimeValue  // `toISOString()` on an invalid Date (RangeError)

  datatype Generated = Generated(list: seq<Sample>) | Threw(failure: Failure)

  /** `Math.min(length, 56)`. */
  function PatternLength(n: nat): (p: nat)
    ensures p <= n && p <= PatternCap
    ensures p == n || p == PatternCap
  {
    if n < PatternCap then n else PatternCap
  }

  /** The leading entries that the generator replays. */
  function Pattern(source: seq<Sample>): (pattern: seq<Sample>)
    ensures |pattern| == PatternLength(|source|)
    ensures forall k :: 0 <= k < |pattern| ==> pattern[k] == source[k]
  {
    source[..PatternLength(|source|)]
  }

  /**
   * The timestamp of the entry generated at index `i`: that of the pattern
   * entry it copies, moved by seven days per completed pass over the pattern.
   */
  function ShiftedDt(pattern: seq<Sample>, i: nat): int
    requires pattern != []
  {
    pattern[i % |pattern|].dt + (i / |pattern|) * DaysPerCycle * SecondsPerDay
  }

  /** `new Date(seconds * 1000)` is a valid date. */
  predicate IsTimeValue(seconds: int) {
    -MaxTimeValueMs <= seconds * 1000 <= MaxTimeValueMs
  }

  /** Every index in `[from, to)` gets a valid shifted date. */
  predicate ShiftsAreTimeValues(pattern: seq<Sample>, from: nat, to: int)
    requires pattern != []
  {
    forall i: nat :: from <= i < to ==> IsTimeValue(ShiftedDt(pattern, i))
  }

  /**
   * The entry generated at index `i`: a copy of the pattern entry with a new
   * `dt` and the `dt_txt` that `isoText` renders for it.
   */
  function Synthesized(pattern: seq<Sample>, i: nat, isoText: int -> string): Sample
    requires pattern != []
  {
    var dt := ShiftedDt(pattern, i);
    pattern[i % |pattern|].(dt := dt, dtTxt := isoText(dt))
  }

  /**
   * What a completed run returns: `totalDays * 8` entries or the whole source
   * if that is longer, the source entries unchanged in front, and after them
   * the synthesized entries, entry `i` copying pattern entry `i % |pattern|`.
   */
  ghost predicate IsExtension(list: seq<Sample>, source: seq<Sample>, totalDays: int, isoText: int -> string) {
    && |list| == Max(|source|, totalDays * SlotsPerDay)
    && list[..|source|] == source
    && (|source| < |list| ==> source != [])
    && forall i :: |source| <= i < |list| ==> list[i] == Synthesized(Pattern(source), i, isoText)
  }

  /**
   * `generateExtendedForecast(firstWeekData, totalDays)`, reading
   * `firstWeekData.list`. `isoText` stands for
   * `toISOString().replace('T', ' ').substring(0, 19)`.
   *
   * The source list is copied, then entries are appended one per iteration
   * until `totalDays * 8` are present; a longer source is returned whole.
   */
  method GenerateExtendedForecast(firstWeekList: seq<Sample>, totalDays: int, isoText: int -> string)
    returns (g: Generated)
    ensures g == Threw(UndefinedEntry) <==>
      firstWeekList == [] && 0 < totalDays * SlotsPerDay
    ensures g == Threw(InvalidTimeValue) <==>
      firstWeekList != [] &&
      !ShiftsAreTimeValues(Pattern(firstWeekList), |firstWeekList|, totalDays * SlotsPerDay)
    ensures g.Generated? ==> IsExtension(g.list, firstWeekList, totalDays, isoText)
  {
    var extendedList := firstWeekList;
    var patternLength := PatternLength(|firstWeekList|);
    var pattern := firstWeekList[..patternLength];
    var targetLength := totalDays * SlotsPerDay;

    while |extendedList| < targetLength
      invariant |firstWeekList| <= |extendedList| <= Max(|firstWeekList|, targetLength)
      invariant extendedList[..|firstWeekList|] == firstWeekList
      invariant firstWeekList == [] ==> extendedList == []
      invariant forall i :: |firstWeekList| <= i < |extendedList| ==>
        pattern != [] && extendedList[i] == Synthesized(pattern, i, isoText)
      invariant pattern != [] ==> ShiftsAreTimeValues(pattern, |firstWeekList|, |extendedList|)
      decreases targetLength - |extendedList|
    {
      if patternLength == 0 {
        // `0 % 0` is NaN, `pattern[NaN]` is undefined, and reading its `dt` throws
        return Threw(UndefinedEntry);
      }
      var nextIndex := |extendedList| % patternLength;
      var baseEntry := pattern[nextIndex];
      var daysToAdd := (|extendedList| / patternLength) * DaysPerCycle;
      var newTime := baseEntry.dt + daysToAdd * SecondsPerDay;
      if !IsTimeValue(newTime) {
        // the Date is invalid and `toISOString` throws
        assert newTime == ShiftedDt(pattern, |extendedList|);
        return Threw(InvalidTimeValue);
      }
      var newEntry := baseEntry.(dt := newTime, dtTxt := isoText(newTime));
      extendedList := extendedList + [newEntry];
    }
    return Generated(extendedList);
  }

  /**
   * Appended entry `i` in terms of the source: it copies entry `i % p` of the
   * source (`p` the pattern length), keeps its temperature, icon and
   * description, moves its timestamp `i / p` weeks later, and carries the
   * text form of the new timestamp.
   */
  lemma AppendedEntry(list: seq<Sample>, source: seq<Sample>, totalDays: int, isoText: int -> string, i: nat)
    requires IsExtension(list, source, totalDays, isoText)
    requires |source| <= i < |list|
    ensures PatternLength(|source|) > 0
    ensures var p := PatternLength(|source|);
      var e := source[i % p];
      && list[i].dt == e.dt + (i / p) * 7 * 86400
      && list[i].dtTxt == isoText(list[i].dt)
      && list[i].temp == e.temp
      && list[i].icon == e.icon
      && list[i].description == e.description
  {
  }

  lemma MulAtLeast(d: int, p: nat)
    requires d >= 1
    ensures d * p >= p
  {
    assert d * p == (d - 1) * p + p;
  }

  /** Division with remainder has one answer: `n == q * p + r` with `0 <= r < p`. */
  lemma DivModUnique(n: nat, p: nat, q: int, r: int)
    requires 0 <= r < p && n == q * p + r
    ensures n / p == q && n % p == r
  {
    var q', r' := n / p, n % p;
    assert (q - q') * p == r' - r;
    if q > q' {
      MulAtLeast(q - q', p);
    } else if q < q' {
      MulAtLeast(q' - q, p);
    }
  }

  /** Within the first pass the timestamp is the pattern entry's own. */
  lemma ShiftedDtInFirstPass(pattern: seq<Sample>, i: nat)
    requires i < |pattern|
    ensures ShiftedDt(pattern, i) == pattern[i].dt
  {
    DivModUnique(i, |pattern|, 0, i);
  }

  /**
   * One pass later, an index copies the same pattern entry and its timestamp
   * is exactly seven days later, whatever the pattern's length.
   */
  lemma NextPassIsOneWeekLater(pattern: seq<Sample>, i: nat, isoText: int -> string)
    requires pattern != []
    ensures ShiftedDt(pattern, i + |pattern|) == ShiftedDt(pattern, i) + DaysPerCycle * SecondsPerDay
    ensures var later, now := Synthesized(pattern, i + |pattern|, isoText), Synthesized(pattern, i, isoText);
      && later.temp == now.temp
      && later.icon == now.icon
      && later.description == now.description
  {
    var p := |pattern|;
    DivModUnique(i + p, p, i / p + 1, i % p);
  }

  /** Timestamps ascend entry by entry. */
  ghost predicate Ascending(s: seq<Sample>) {
    forall k :: 0 < k < |s| ==> s[k - 1].dt < s[k].dt
  }

  /** The pattern fits within one week, so its next pass starts after it ends. */
  ghost predicate SpansLessThanAWeek(pattern: seq<Sample>) {
    pattern != [] && pattern[|pattern| - 1].dt - pattern[0].dt < DaysPerCycle * SecondsPerDay
  }

  lemma ShiftedDtStep(pattern: seq<Sample>, i: nat)
    requires Ascending(pattern) && SpansLessThanAWeek(pattern)
    ensures ShiftedDt(pattern, i) < ShiftedDt(pattern, i + 1)
  {
    var p, q, r := |pattern|, i / |pattern|, i % |pattern|;
    if r + 1 < p {
      DivModUnique(i + 1, p, q, r + 1);
    } else {
      DivModUnique(i + 1, p, q + 1, 0);
      assert (q + 1) * DaysPerCycle * SecondsPerDay == q * DaysPerCycle * SecondsPerDay + DaysPerCycle * SecondsPerDay;
    }
  }

  /**
   * For an ascending pattern that spans less than a week, the generated
   * timestamps ascend strictly: no two entries collide.
   */
  lemma {:induction false} ShiftedDtAscending(pattern: seq<Sample>, i: nat, j: nat)
    requires Ascending(pattern) && SpansLessThanAWeek(pattern)
    requires i < j
    ensures ShiftedDt(pattern, i) < ShiftedDt(pattern, j)
    decreases j - i
  {
    ShiftedDtStep(pattern, i);
    if i + 1 < j {
      ShiftedDtAscending(pattern, i + 1, j);
    }
  }

  /**
   * When the source is itself the pattern (at most 56 entries), ascends, and
   * spans less than a week, the whole extended list ascends strictly.
   */
  lemma ExtensionAscends(list: seq<Sample>, source: seq<Sample>, totalDays: int, isoText: int -> string)
    requires IsExtension(list, source, totalDays, isoText)
    requires |source| <= PatternCap && Ascending(source) && SpansLessThanAWeek(source)
    ensures Ascending(list)
  {
    assert Pattern(source) == source;
    forall i | 0 <= i < |list| ensures list[i].dt == ShiftedDt(source, i) {
      if i < |source| {
        assert list[i] == list[..|source|][i];
        ShiftedDtInFirstPass(source, i);
      }
    }
    forall k | 0 < k < |list| ensures list[k - 1].dt < list[k].dt {
      ShiftedDtStep(source, k - 1);
    }
  }
}
