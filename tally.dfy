/**
 * Counting values the way the forecast view does it with plain JavaScript
 * objects: a count table filled by one pass over the values, whose keys come
 * out in insertion order (first occurrence), and a `reduce` over those keys
 * that keeps the heavier of two candidates with a strict `>`.
 *
 * Object keys are assumed not to look like array indices, so JavaScript keeps
 * them in insertion order; the icon codes and descriptions the view counts are
 * of that kind.
 */
module Tally {

  /** No value occurs twice in `s`. */
  predicate NoDuplicates<T(==,!new)>(s: seq<T>) {
    forall i, j :: 0 <= i < j < |s| ==> s[i] != s[j]
  }

  /** How often `v` occurs in `xs`. */
  function Count<T(==,!new)>(xs: seq<T>, v: T): nat {
    multiset(xs)[v]
  }

  /** The distinct values of `xs`, each once, in the order they first occur. */
  function Distinct<T(==,!new)>(xs: seq<T>): seq<T> {
    if xs == [] then []
    else
      var seen := Distinct(xs[..|xs| - 1]);
      var last := xs[|xs| - 1];
      if last in seen then seen else seen + [last]
  }

  /** `Distinct` keeps every value of `xs`, adds none, and repeats none. */
  lemma {:induction false} DistinctValues<T(!new)>(xs: seq<T>)
    ensures forall x :: x in Distinct(xs) <==> x in xs
    ensures NoDuplicates(Distinct(xs))
    ensures |Distinct(xs)| <= |xs|
  {
    if xs != [] {
      var init := xs[..|xs| - 1];
      DistinctValues(init);
      assert xs == init + [xs[|xs| - 1]];
    }
  }

  /** The position at which `v` first occurs in `xs`. */
  function FirstIndex<T(==,!new)>(xs: seq<T>, v: T): (i: nat)
    requires v in xs
    ensures i < |xs| && xs[i] == v && v !in xs[..i]
  {
    var init := xs[..|xs| - 1];
    assert xs == init + [xs[|xs| - 1]];
    if v in init then
      var i := FirstIndex(init, v);
      assert xs[..i] == init[..i];
      i
    else |xs| - 1
  }

  /** Extending a sequence does not move the first occurrence of a value already in it. */
  lemma {:induction false} FirstIndexOfPrefix<T(!new)>(xs: seq<T>, n: nat, v: T)
    requires n <= |xs| && v in xs[..n]
    ensures FirstIndex(xs, v) == FirstIndex(xs[..n], v)
  {
    var k := FirstIndex(xs[..n], v);
    assert xs[..n][k] == xs[k];
  }

  /**
   * Distinct lists the values in the order of their first occurrence: an
   * earlier entry first occurs strictly earlier in `xs`.
   */
  lemma {:induction false} DistinctInFirstSeenOrder<T(!new)>(xs: seq<T>, i: nat, j: nat)
    requires i < j < |Distinct(xs)|
    ensures Distinct(xs)[i] in xs && Distinct(xs)[j] in xs
    ensures FirstIndex(xs, Distinct(xs)[i]) < FirstIndex(xs, Distinct(xs)[j])
  {
    DistinctValues(xs);
    var init := xs[..|xs| - 1];
    var last := xs[|xs| - 1];
    assert xs == init + [last];
    assert init == xs[..|xs| - 1];
    var seen := Distinct(init);
    DistinctValues(init);
    var a, b := Distinct(xs)[i], Distinct(xs)[j];
    assert a in seen by {
      if last !in seen { assert Distinct(xs) == seen + [last]; }
    }
    FirstIndexOfPrefix(xs, |xs| - 1, a);
    if j < |seen| {
      assert Distinct(xs)[i] == seen[i] && Distinct(xs)[j] == seen[j];
      FirstIndexOfPrefix(xs, |xs| - 1, b);
      DistinctInFirstSeenOrder(init, i, j);
    } else {
      // b is the last value, which `init` does not contain
      assert last !in seen && b == last;
      assert FirstIndex(xs, b) == |xs| - 1;
    }
  }

  /** The first `n` distinct values keep both properties: no repeats, first-seen order. */
  lemma LeadingDistinctValues<T(!new)>(xs: seq<T>, n: nat)
    requires n <= |Distinct(xs)|
    ensures var lead := Distinct(xs)[..n];
      && NoDuplicates(lead)
      && (forall k :: 0 <= k < n ==> lead[k] in xs)
      && forall i, j :: 0 <= i < j < n ==> FirstIndex(xs, lead[i]) < FirstIndex(xs, lead[j])
  {
    DistinctValues(xs);
    var lead := Distinct(xs)[..n];
    forall i, j | 0 <= i < j < n ensures FirstIndex(xs, lead[i]) < FirstIndex(xs, lead[j]) {
      DistinctInFirstSeenOrder(xs, i, j);
    }
  }

  /** Sum over `keys` of how often each occurs in `xs`. */
  function CountsOver<T(==,!new)>(xs: seq<T>, keys: seq<T>): nat {
    if keys == [] then 0
    else CountsOver(xs, keys[..|keys| - 1]) + Count(xs, keys[|keys| - 1])
  }

  lemma {:induction false} CountsOverSnoc<T(!new)>(xs: seq<T>, x: T, keys: seq<T>)
    requires NoDuplicates(keys)
    ensures CountsOver(xs + [x], keys) == CountsOver(xs, keys) + (if x in keys then 1 else 0)
  {
    assert multiset(xs + [x]) == multiset(xs) + multiset{x};
    if keys != [] {
      var init := keys[..|keys| - 1];
      assert keys == init + [keys[|keys| - 1]];
      CountsOverSnoc(xs, x, init);
    }
  }

  /** Every value is counted once: the counts of the distinct values add up to the length. */
  lemma {:induction false} CountsSumToLength<T(!new)>(xs: seq<T>)
    ensures CountsOver(xs, Distinct(xs)) == |xs|
  {
    if xs != [] {
      var init := xs[..|xs| - 1];
      var x := xs[|xs| - 1];
      assert xs == init + [x];
      var seen := Distinct(init);
      DistinctValues(init);
      CountsSumToLength(init);
      CountsOverSnoc(init, x, seen);
      if x !in seen {
        assert Distinct(xs) == seen + [x];
        assert (seen + [x])[..|seen|] == seen;
        assert multiset(xs) == multiset(init) + multiset{x};
      }
    }
  }

  /** The count table a complete pass over `xs` produces. */
  function CountTable<T(==,!new)>(xs: seq<T>): map<T, nat> {
    map v | v in xs :: Count(xs, v)
  }

  /** The table has a key for each value that occurs, holding its positive count. */
  lemma CountTableEntries<T(!new)>(xs: seq<T>)
    ensures forall v :: v in CountTable(xs) <==> v in xs
    ensures forall v :: v in CountTable(xs) ==> CountTable(xs)[v] == Count(xs, v) > 0
  {
  }

  /**
   * One step of the count pass, starting from the table of `seen`: the entry
   * of `v` becomes `(counts[v] || 0) + 1`, and `v` joins the keys when new.
   */
  lemma CountStep<T(!new)>(seen: seq<T>, v: T, keys: seq<T>, counts: map<T, nat>)
    requires keys == Distinct(seen) && counts == CountTable(seen)
    ensures Distinct(seen + [v]) == if v in counts then keys else keys + [v]
    ensures CountTable(seen + [v]) == counts[v := (if v in counts then counts[v] else 0) + 1]
  {
    DistinctSnoc(seen, v);
    CountTableSnoc(seen, v);
    if v !in seen {
      assert multiset(seen)[v] == 0;
    }
  }

  lemma CountTableSnoc<T(!new)>(xs: seq<T>, v: T)
    ensures CountTable(xs + [v]) == CountTable(xs)[v := Count(xs, v) + 1]
  {
    assert multiset(xs + [v]) == multiset(xs) + multiset{v};
    assert forall x :: x in xs + [v] <==> x in xs || x == v;
  }

  lemma DistinctSnoc<T(!new)>(xs: seq<T>, v: T)
    ensures Distinct(xs + [v]) == if v in xs then Distinct(xs) else Distinct(xs) + [v]
  {
    DistinctValues(xs);
    assert (xs + [v])[..|xs|] == xs;
  }

  /**
   * The count pass: one `forEach` that bumps `counts[v]` (starting from 0 when
   * `v` is new). `keys` is the table's key list in insertion order.
   */
  method CountOccurrences<T(==,!new)>(values: seq<T>) returns (keys: seq<T>, counts: map<T, nat>)
    ensures keys == Distinct(values)
    ensures counts == CountTable(values)
  {
    keys, counts := [], map[];
    for i := 0 to |values|
      invariant keys == Distinct(values[..i])
      invariant counts == CountTable(values[..i])
    {
      var v := values[i];
      assert values[..i + 1] == values[..i] + [v];
      CountStep(values[..i], v, keys, counts);
      if v !in counts {
        keys := keys + [v];
      }
      counts := counts[v := (if v in counts then counts[v] else 0) + 1];
    }
    assert values[..|values|] == values;
  }

  /**
   * `keys.reduce((a, b) => counts[a] > counts[b] ? a : b)` without an initial
   * value: a left fold that lets each next key replace the current candidate
   * unless the candidate is strictly heavier.
   */
  function ReduceHeavier<T(==,!new)>(counts: map<T, nat>, keys: seq<T>): (r: T)
    requires keys != [] && forall k :: k in keys ==> k in counts
    ensures r in keys
  {
    if |keys| == 1 then keys[0]
    else
      var init := keys[..|keys| - 1];
      assert forall k :: k in init ==> k in keys;
      var a := ReduceHeavier(counts, init);
      var b := keys[|keys| - 1];
      if counts[a] > counts[b] then a else b
  }

  /**
   * The reduce ends on a heaviest key, and on the last one among equally heavy
   * keys: the winner sits at position `m` and every later key is strictly lighter.
   */
  lemma {:induction false} ReduceHeavierIsLastMaximum<T(!new)>(counts: map<T, nat>, keys: seq<T>) returns (m: nat)
    requires keys != [] && forall k :: k in keys ==> k in counts
    ensures m < |keys| && keys[m] == ReduceHeavier(counts, keys)
    ensures forall k :: 0 <= k < |keys| ==> counts[keys[k]] <= counts[keys[m]]
    ensures forall k :: m < k < |keys| ==> counts[keys[k]] < counts[keys[m]]
  {
    if |keys| == 1 {
      m := 0;
    } else {
      var init := keys[..|keys| - 1];
      assert forall k :: k in init ==> k in keys;
      var m0 := ReduceHeavierIsLastMaximum(counts, init);
      var b := keys[|keys| - 1];
      m := if counts[init[m0]] > counts[b] then m0 else |keys| - 1;
      assert forall k :: 0 <= k < |init| ==> keys[k] == init[k];
    }
  }

  /**
   * The value the view shows for a day: the most frequent one, and among
   * equally frequent values the one whose first occurrence is latest.
   */
  ghost predicate IsLatestMode<T(!new)>(values: seq<T>, m: T) {
    && m in values
    && (forall v :: v in values ==> Count(values, v) <= Count(values, m))
    && (forall v :: v in values && Count(values, v) == Count(values, m) ==>
          FirstIndex(values, v) <= FirstIndex(values, m))
  }

  /** At most one value is the latest mode, so the property pins the result down. */
  lemma LatestModeIsUnique<T(!new)>(values: seq<T>, m1: T, m2: T)
    requires IsLatestMode(values, m1) && IsLatestMode(values, m2)
    ensures m1 == m2
  {
    assert values[FirstIndex(values, m1)] == m1;
    assert values[FirstIndex(values, m2)] == m2;
  }

  /** `Object.keys(counts).reduce(...)` over the count table of `values`. */
  function MostFrequent<T(==,!new)>(values: seq<T>): T
    requires values != []
  {
    DistinctValues(values);
    assert values[0] in Distinct(values);
    ReduceHeavier(CountTable(values), Distinct(values))
  }

  /**
   * The winner of the reduce over the count table's keys is the latest mode:
   * the most frequent value, ties going to the value first seen latest.
   */
  lemma MostFrequentIsLatestMode<T(!new)>(values: seq<T>)
    requires values != []
    ensures IsLatestMode(values, MostFrequent(values))
  {
    var keys := Distinct(values);
    var counts := CountTable(values);
    DistinctValues(values);
    assert values[0] in keys;
    var m := ReduceHeavierIsLastMaximum(counts, keys);
    var r := keys[m];
    forall v | v in values
      ensures Count(values, v) <= Count(values, r)
      ensures Count(values, v) == Count(values, r) ==> FirstIndex(values, v) <= FirstIndex(values, r)
    {
      var k :| 0 <= k < |keys| && keys[k] == v;
      if k < m { DistinctInFirstSeenOrder(values, k, m); }
    }
  }


  /** A two-way tie goes to the value seen later. */
  lemma TieGoesToLaterValue()
    ensures MostFrequent(["01d", "02d"]) == "02d"
  {
    var values := ["01d", "02d"];
    assert Count(values, "01d") == 1 == Count(values, "02d");
    assert FirstIndex(values, "02d") == 1;
    assert IsLatestMode(values, "02d");
    MostFrequentIsLatestMode(values);
    LatestModeIsUnique(values, MostFrequent(values), "02d");
  }

  /** A strictly more frequent value wins whatever its position. */
  lemma MajorityWins()
    ensures MostFrequent(["01d", "01d", "02d"]) == "01d"
  {
    var values := ["01d", "01d", "02d"];
    assert Count(values, "01d") == 2 && Count(values, "02d") == 1;
    assert IsLatestMode(values, "01d");
    MostFrequentIsLatestMode(values);
    LatestModeIsUnique(values, MostFrequent(values), "01d");
  }
}
