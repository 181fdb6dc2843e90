/** Choosing the sequencers to talk to: a sort-and-truncate pipeline and what it selects. */
module LeaderChoice {
  import opened Prelude
  import opened Sorting
  import opened LatencyStatistics

  type Url(==, !new)

  /** Panicking is part of the behaviour: a ratio of nothing to nothing cannot be compared. */
  datatype Choice = Panicked | NoneMetered | Leaders(chosen: seq<Url>)

  // ---- Filters -----------------------------------------------------------------------------

  function Filter<T(!new)>(s: seq<T>, keep: T -> bool): seq<T> {
    if s == [] then []
    else
      Filter(s[..|s| - 1], keep) + if keep(s[|s| - 1]) then [s[|s| - 1]] else []
  }

  /** Filtering keeps every occurrence of what it keeps, and nothing else. */
  lemma {:induction false} FilterCounts<T(!new)>(s: seq<T>, keep: T -> bool, x: T)
    ensures multiset(Filter(s, keep))[x] == if keep(x) then multiset(s)[x] else 0
    decreases |s|
  {
    if s != [] {
      var n := |s| - 1;
      FilterCounts(s[..n], keep, x);
      assert s == s[..n] + [s[n]];
    }
  }

  lemma FilterMembers<T(!new)>(s: seq<T>, keep: T -> bool, x: T)
    ensures x in Filter(s, keep) <==> x in s && keep(x)
  {
    FilterCounts(s, keep, x);
    assert x in Filter(s, keep) <==> multiset(Filter(s, keep))[x] > 0;
    assert x in s <==> multiset(s)[x] > 0;
  }

  lemma FilterPermutes<T(!new)>(s: seq<T>, t: seq<T>, keep: T -> bool)
    requires multiset(s) == multiset(t)
    ensures multiset(Filter(s, keep)) == multiset(Filter(t, keep))
  {
    forall x
      ensures multiset(Filter(s, keep))[x] == multiset(Filter(t, keep))[x]
    {
      FilterCounts(s, keep, x);
      FilterCounts(t, keep, x);
    }
  }

  lemma {:induction false} FilterKeepsAll<T(!new)>(s: seq<T>, keep: T -> bool)
    requires forall i :: 0 <= i < |s| ==> keep(s[i])
    ensures Filter(s, keep) == s
    decreases |s|
  {
    if s != [] {
      FilterKeepsAll(s[..|s| - 1], keep);
    }
  }

  /** On a sorted list, cutting at the first key above a bound is filtering by the bound. */
  lemma {:induction false} TruncateIsFilter<T(!new)>(t: seq<T>, key: T -> real, bound: real, cut: nat)
    requires SortedBy(t, key) && cut <= |t|
    requires forall i :: 0 <= i < cut ==> key(t[i]) <= bound
    requires cut < |t| ==> key(t[cut]) > bound
    ensures Filter(t, (x: T) => key(x) <= bound) == t[..cut]
    decreases |t|
  {
    var keep := (x: T) => key(x) <= bound;
    if cut == |t| {
      FilterKeepsAll(t, keep);
      assert t[..cut] == t;
    } else {
      var n := |t| - 1;
      TruncateIsFilter(t[..n], key, bound, cut);
      assert t[..n][..cut] == t[..cut];
      assert key(t[n]) >= key(t[cut]);
    }
  }

  // ---- The selection, declaratively --------------------------------------------------------

  function LatestOf(stats: map<Url, Stats>, u: Url): nat {
    if u in stats then stats[u].latestBlockId else 0
  }

  /** Failed requests among all; meaningless for a client with neither. */
  function ErrorRatio(st: Stats): Float {
    Over(st.errors as real, (st.errors + st.sampleSize) as real)
  }

  function RatioOf(stats: map<Url, Stats>, u: Url): real {
    if u in stats && ErrorRatio(stats[u]).Num? then ErrorRatio(stats[u]).value else 0.0
  }

  predicate Measured(stats: map<Url, Stats>, u: Url) {
    u in stats && ErrorRatio(stats[u]).Num?
  }

  /** The ratio as the client computes it, not a number included. */
  function Ratio(stats: map<Url, Stats>, u: Url): Float {
    if u in stats then ErrorRatio(stats[u]) else NaN
  }

  /** Floating-point comparison: undefined when either side is not a number. */
  function PartialAtMost(a: Float, b: Float): Option<bool> {
    if a.Num? && b.Num? then Some(a.value <= b.value) else None
  }

  /** Floating-point greater-than: false when either side is not a number. */
  predicate Greater(a: Float, b: Float) {
    a.Num? && b.Num? && a.value > b.value
  }

  function Add(a: Float, b: Float): Float {
    if a.Num? && b.Num? then Num(a.value + b.value) else NaN
  }

  function FloatSum(us: seq<Url>, stats: map<Url, Stats>): Float {
    if us == [] then Num(0.0) else Add(FloatSum(us[..|us| - 1], stats), Ratio(stats, us[|us| - 1]))
  }

  /** The average ratio as the client computes it: not a number if one of them is not. */
  function FloatAverage(us: seq<Url>, stats: map<Url, Stats>): Float {
    var sum := FloatSum(us, stats);
    if sum.NaN? then NaN else Over(sum.value, |us| as real)
  }

  function Metered(clients: seq<Url>, stats: map<Url, Stats>): seq<Url> {
    Filter(clients, (u: Url) => u in stats)
  }

  function MaxLatest(us: seq<Url>, stats: map<Url, Stats>): (m: nat)
    ensures forall u :: u in us ==> LatestOf(stats, u) <= m
    ensures us != [] ==> exists u :: u in us && LatestOf(stats, u) == m
  {
    if us == [] then 0
    else
      var n := |us| - 1;
      assert us == us[..n] + [us[n]];
      var m := MaxLatest(us[..n], stats);
      assert us[..n] == [] ==> us == [us[n]];
      if LatestOf(stats, us[n]) > m || n == 0 then LatestOf(stats, us[n]) else m
  }

  /** The metered clients that have seen the latest block anyone has. */
  function UpToDate(clients: seq<Url>, stats: map<Url, Stats>): seq<Url> {
    var metered := Metered(clients, stats);
    var latest := MaxLatest(metered, stats);
    Filter(metered, (u: Url) => LatestOf(stats, u) == latest)
  }

  function RatioSum(us: seq<Url>, stats: map<Url, Stats>): real {
    if us == [] then 0.0 else RatioSum(us[..|us| - 1], stats) + RatioOf(stats, us[|us| - 1])
  }

  function AverageRatio(us: seq<Url>, stats: map<Url, Stats>): real {
    if us == [] then 0.0 else RatioSum(us, stats) / |us| as real
  }

  /** Up to date, and failing no more often than those do on average. */
  function Eligible(clients: seq<Url>, stats: map<Url, Stats>): seq<Url> {
    var us := UpToDate(clients, stats);
    var average := AverageRatio(us, stats);
    Filter(us, (u: Url) => RatioOf(stats, u) <= average)
  }

  function ScoreOf(stats: map<Url, Stats>, score: Stats -> real): Url -> real {
    (u: Url) => if u in stats then score(stats[u]) else 0.0
  }

  function RatioKey(stats: map<Url, Stats>): Url -> real {
    (u: Url) => RatioOf(stats, u)
  }

  /** The best `limit` of a list: a sorted permutation of it, cut off. */
  ghost predicate BestOf(us: seq<Url>, chosen: seq<Url>, key: Url -> real, limit: nat) {
    exists sorted :: SortOf(us, sorted, key) && chosen == sorted[..if limit < |sorted| then limit else |sorted|]
  }

  /** Comparing ratios panics when there are two to compare and one is not a number. */
  ghost predicate RatiosPanic(us: seq<Url>, stats: map<Url, Stats>) {
    |us| >= 2 && exists u :: u in us && !Measured(stats, u)
  }

  // ---- What the filters select -------------------------------------------------------------

  /** The ratio is the share of failed requests, a number between 0 and 1 unless there were none. */
  lemma ErrorRatioExact(st: Stats)
    ensures ErrorRatio(st).NaN? <==> st.errors == 0 && st.sampleSize == 0
    ensures ErrorRatio(st).Num? ==>
              && ErrorRatio(st).value * (st.errors + st.sampleSize) as real == st.errors as real
              && 0.0 <= ErrorRatio(st).value <= 1.0
  {
    var all := (st.errors + st.sampleSize) as real;
    if all != 0.0 {
      ShareBounds(st.errors as real, all);
    }
  }

  lemma ShareBounds(part: real, all: real)
    requires 0.0 <= part <= all && all > 0.0
    ensures (part / all) * all == part && 0.0 <= part / all <= 1.0
  {
  }

  /** Nobody metered has seen a later block. */
  ghost predicate SeenLatest(clients: seq<Url>, stats: map<Url, Stats>, u: Url)
    requires u in stats
  {
    forall w :: w in clients && w in stats ==> stats[w].latestBlockId <= stats[u].latestBlockId
  }

  /** Up to date are the metered clients nobody metered is ahead of, as often as they are listed. */
  lemma UpToDateExact(clients: seq<Url>, stats: map<Url, Stats>, u: Url)
    ensures multiset(UpToDate(clients, stats))[u] ==
            if u in stats && SeenLatest(clients, stats, u) then multiset(clients)[u] else 0
  {
    var keep := (w: Url) => w in stats;
    var metered := Metered(clients, stats);
    var latest := MaxLatest(metered, stats);
    FilterCounts(clients, keep, u);
    FilterCounts(metered, (w: Url) => LatestOf(stats, w) == latest, u);
    forall w
      ensures w in metered <==> w in clients && w in stats
    {
      FilterMembers(clients, keep, w);
    }
    if u in metered {
      assert SeenLatest(clients, stats, u) <==> stats[u].latestBlockId == latest;
    } else {
      assert multiset(metered)[u] == 0;
    }
  }

  /** A number that, counted once for each, does not exceed the sum of the ratios. */
  predicate AtMostMean(x: real, us: seq<Url>, stats: map<Url, Stats>) {
    x * |us| as real <= RatioSum(us, stats)
  }

  /** Eligible are those of them whose ratio is at most the mean of all of theirs. */
  lemma EligibleExact(clients: seq<Url>, stats: map<Url, Stats>, u: Url)
    ensures var us := UpToDate(clients, stats);
            multiset(Eligible(clients, stats))[u] ==
            if AtMostMean(RatioOf(stats, u), us, stats) then multiset(us)[u] else 0
  {
    hide UpToDate, RatioOf, AverageRatio, AtMostMean;
    var us := UpToDate(clients, stats);
    var average := AverageRatio(us, stats);
    FilterCounts(us, (w: Url) => RatioOf(stats, w) <= average, u);
    if us != [] {
      AverageIff(RatioOf(stats, u), us, stats);
    }
  }

  lemma AverageIff(x: real, us: seq<Url>, stats: map<Url, Stats>)
    requires us != []
    ensures x <= AverageRatio(us, stats) <==> AtMostMean(x, us, stats)
  {
    hide RatioSum;
    AtMostQuotient(x, RatioSum(us, stats), |us| as real);
  }

  lemma AtMostQuotient(x: real, sum: real, n: real)
    requires n > 0.0
    ensures x <= sum / n <==> x * n <= sum
  {
    var q := sum / n;
    assert q * n == sum;
    if x <= q {
      assert (q - x) * n >= 0.0;
    } else {
      assert (x - q) * n > 0.0;
    }
  }

  /** The sum of ratios is the sum over the listed clients, one by one. */
  lemma {:induction false} RatioSumIsSum(us: seq<Url>, stats: map<Url, Stats>)
    ensures RatioSum(us, stats) == Sum(seq(|us|, i requires 0 <= i < |us| => RatioOf(stats, us[i])))
    decreases |us|
  {
    hide RatioOf;
    if us != [] {
      var n := |us| - 1;
      var ratios := seq(|us|, i requires 0 <= i < |us| => RatioOf(stats, us[i]));
      RatioSumIsSum(us[..n], stats);
      assert ratios[..n] == seq(n, i requires 0 <= i < n => RatioOf(stats, us[..n][i]));
    }
  }

  // ---- The minimum is at most the mean -----------------------------------------------------

  lemma {:induction false} SumAbove(us: seq<Url>, stats: map<Url, Stats>, bound: real)
    requires forall i :: 0 <= i < |us| ==> RatioOf(stats, us[i]) > bound
    ensures RatioSum(us, stats) >= bound * |us| as real
    ensures us != [] ==> RatioSum(us, stats) > bound * |us| as real
    decreases |us|
  {
    hide RatioOf;
    if us != [] {
      var n := |us| - 1;
      SumAbove(us[..n], stats, bound);
      assert bound * |us| as real == bound * n as real + bound;
    }
  }

  lemma SomeoneAtMostAverage(us: seq<Url>, stats: map<Url, Stats>)
    requires us != []
    ensures exists i :: 0 <= i < |us| && RatioOf(stats, us[i]) <= AverageRatio(us, stats)
  {
    hide RatioOf, RatioSum;
    var average := AverageRatio(us, stats);
    if forall i :: 0 <= i < |us| ==> RatioOf(stats, us[i]) > average {
      SumAbove(us, stats, average);
      DivideBack(RatioSum(us, stats), |us| as real);
    }
  }

  /** Whenever some client is metered, somebody is eligible. */
  lemma EligibleNonEmpty(clients: seq<Url>, stats: map<Url, Stats>)
    requires Metered(clients, stats) != []
    ensures UpToDate(clients, stats) != [] && Eligible(clients, stats) != []
  {
    hide RatioOf, AverageRatio, LatestOf;
    var metered := Metered(clients, stats);
    var latest := MaxLatest(metered, stats);
    var u :| u in metered && LatestOf(stats, u) == latest;
    var us := UpToDate(clients, stats);
    FilterMembers(metered, (w: Url) => LatestOf(stats, w) == latest, u);
    assert us != [];
    SomeoneAtMostAverage(us, stats);
    var i :| 0 <= i < |us| && RatioOf(stats, us[i]) <= AverageRatio(us, stats);
    var average := AverageRatio(us, stats);
    FilterMembers(us, (w: Url) => RatioOf(stats, w) <= average, us[i]);
  }

  /** What being among the best means: everyone left out scores no better than anyone chosen. */
  lemma BestAreBest(us: seq<Url>, chosen: seq<Url>, key: Url -> real, limit: nat)
    requires BestOf(us, chosen, key, limit)
    ensures SortedBy(chosen, key)
    ensures |chosen| == if limit < |us| then limit else |us|
    ensures multiset(chosen) <= multiset(us)
    ensures forall u, c :: u in multiset(us) - multiset(chosen) && c in chosen ==> key(c) <= key(u)
  {
    hide SortedBy;
    var sorted :| SortOf(us, sorted, key) && chosen == sorted[..if limit < |sorted| then limit else |sorted|];
    SameLength(us, sorted);
    var k := |chosen|;
    SplitMultiset(sorted, k);
    PrefixSorted(sorted, k, key);
    forall u, c | u in multiset(us) - multiset(chosen) && c in chosen
      ensures key(c) <= key(u)
    {
      assert u in multiset(sorted[k..]);
      PrefixBelow(sorted, key, k, c, u);
    }
  }

  lemma SplitMultiset<T>(s: seq<T>, k: nat)
    requires k <= |s|
    ensures multiset(s) == multiset(s[..k]) + multiset(s[k..])
    ensures multiset(s) - multiset(s[..k]) == multiset(s[k..])
  {
    assert s == s[..k] + s[k..];
  }

  lemma PrefixBelow<T(!new)>(s: seq<T>, key: T -> real, k: nat, c: T, u: T)
    requires k <= |s| && SortedBy(s, key) && c in s[..k] && u in s[k..]
    ensures key(c) <= key(u)
  {
    var j :| 0 <= j < k && s[..k][j] == c;
    var i :| 0 <= i < |s| - k && s[k..][i] == u;
    assert s[j] == c && s[k + i] == u;
  }

  // ---- The pipeline ------------------------------------------------------------------------

  /**
   * Sorts by error ratio, cuts at the first above average, sorts by score, takes the first few.
   * That selects the best of exactly the eligible clients, and it panics exactly when two or
   * more are up to date and one of them has neither a sample nor an error.
   */
  method ChooseLeaders(clients: seq<Url>, stats: map<Url, Stats>, score: Stats -> real, limit: nat)
    returns (choice: Choice)
    ensures choice == NoneMetered <==> Metered(clients, stats) == []
    ensures choice == Panicked <==> RatiosPanic(UpToDate(clients, stats), stats)
    ensures choice.Leaders? ==> BestOf(Eligible(clients, stats), choice.chosen, ScoreOf(stats, score), limit)
    ensures choice.Leaders? && limit >= 1 ==> choice.chosen != []
  {
    hide RatioOf, Ratio, AverageRatio, FloatAverage, LatestOf, Measured, SortedBy;
    var metered := Metered(clients, stats);
    if metered == [] {
      NobodyUpToDate(clients, stats);
      return NoneMetered;
    }
    var late := UpToDate(clients, stats);
    EligibleNonEmpty(clients, stats);
    var average := FloatAverage(late, stats);
    var atMost := (a: Url, b: Url) => PartialAtMost(Ratio(stats, a), Ratio(stats, b));
    var sorted := TrySort(late, atMost);
    RatiosSorted(late, stats, atMost);
    if sorted.None? {
      return Panicked;
    }
    var byRatio := sorted.value;
    var above := FirstIndex(byRatio, (u: Url) => Greater(Ratio(stats, u), average));
    var cut := match above case Some(i) => i case None => |byRatio|;
    var kept := byRatio[..cut];
    CutIsCut(late, stats, byRatio, cut);
    KeptAreEligible(clients, stats, byRatio, cut);
    var byScore := Sort(kept, ScoreOf(stats, score));
    assert SortOf(Eligible(clients, stats), byScore, ScoreOf(stats, score));
    SameLength(Eligible(clients, stats), byScore);
    var taken := byScore[..if limit < |byScore| then limit else |byScore|];
    return Leaders(taken);
  }

  /** Sorting by ratio panics exactly if a ratio to be compared is not a number, and else sorts. */
  lemma RatiosSorted(us: seq<Url>, stats: map<Url, Stats>, atMost: (Url, Url) -> Option<bool>)
    requires forall a, b :: atMost(a, b) == PartialAtMost(Ratio(stats, a), Ratio(stats, b))
    ensures TrySort(us, atMost).None? <==> RatiosPanic(us, stats)
    ensures TrySort(us, atMost).Some? ==> SortOf(us, TrySort(us, atMost).value, RatioKey(stats))
  {
    var has := (u: Url) => Measured(stats, u);
    TrySortFails(us, atMost, has, RatioKey(stats));
    if TrySort(us, atMost).Some? {
      if |us| >= 2 {
        TrySortWorks(us, atMost, has, RatioKey(stats));
      } else if |us| == 1 {
        assert us[..0] == [];
      }
    }
  }

  /** While all ratios are numbers the computed average is the average; else it is not a number. */
  lemma {:induction false} FloatSumExact(us: seq<Url>, stats: map<Url, Stats>)
    ensures FloatSum(us, stats) ==
            if forall i :: 0 <= i < |us| ==> Measured(stats, us[i]) then Num(RatioSum(us, stats)) else NaN
    decreases |us|
  {
    if us != [] {
      var n := |us| - 1;
      FloatSumExact(us[..n], stats);
      assert forall i :: 0 <= i < n ==> us[..n][i] == us[i];
    }
  }

  /** Cutting at the first computed ratio above the computed average is cutting at the first above average. */
  lemma CutIsCut(us: seq<Url>, stats: map<Url, Stats>, byRatio: seq<Url>, cut: nat)
    requires !RatiosPanic(us, stats) && multiset(byRatio) == multiset(us) && us != []
    requires cut == match FirstIndex(byRatio, (u: Url) => Greater(Ratio(stats, u), FloatAverage(us, stats)))
                    case Some(i) => i case None => |byRatio|
    ensures cut <= |byRatio|
    ensures forall i :: 0 <= i < cut ==> RatioOf(stats, byRatio[i]) <= AverageRatio(us, stats)
    ensures cut < |byRatio| ==> RatioOf(stats, byRatio[cut]) > AverageRatio(us, stats)
  {
    hide RatioSum;
    FloatSumExact(us, stats);
    SameLength(us, byRatio);
    assert forall u :: u in byRatio <==> u in multiset(byRatio);
    assert forall u :: u in us <==> u in multiset(us);
    if forall i :: 0 <= i < |us| ==> Measured(stats, us[i]) {
      assert FloatAverage(us, stats) == Num(AverageRatio(us, stats));
      assert forall i :: 0 <= i < |byRatio| ==> byRatio[i] in us;
    } else {
      assert |us| == 1 && byRatio[0] in us;
      SingleAverage(us, stats);
    }
  }

  lemma SingleAverage(us: seq<Url>, stats: map<Url, Stats>)
    requires |us| == 1
    ensures AverageRatio(us, stats) == RatioOf(stats, us[0])
  {
    assert RatioSum(us[..0], stats) == 0.0;
  }

  lemma NobodyUpToDate(clients: seq<Url>, stats: map<Url, Stats>)
    requires Metered(clients, stats) == []
    ensures UpToDate(clients, stats) == []
  {
  }

  /** The truncated ratio-sorted list is a permutation of the eligible clients. */
  lemma KeptAreEligible(clients: seq<Url>, stats: map<Url, Stats>, byRatio: seq<Url>, cut: nat)
    requires SortOf(UpToDate(clients, stats), byRatio, RatioKey(stats)) && cut <= |byRatio|
    requires var average := AverageRatio(UpToDate(clients, stats), stats);
             && (forall i :: 0 <= i < cut ==> RatioOf(stats, byRatio[i]) <= average)
             && (cut < |byRatio| ==> RatioOf(stats, byRatio[cut]) > average)
    ensures multiset(byRatio[..cut]) == multiset(Eligible(clients, stats))
  {
    hide RatioOf, AverageRatio, SortedBy;
    var us := UpToDate(clients, stats);
    var average := AverageRatio(us, stats);
    var keep := (x: Url) => RatioKey(stats)(x) <= average;
    TruncateIsFilter(byRatio, RatioKey(stats), average, cut);
    FilterPermutes(us, byRatio, keep);
    SameFilter(us, keep, (u: Url) => RatioOf(stats, u) <= average);
  }

  lemma {:induction false} SameFilter<T(!new)>(s: seq<T>, f: T -> bool, g: T -> bool)
    requires forall x :: f(x) == g(x)
    ensures Filter(s, f) == Filter(s, g)
    decreases |s|
  {
    if s != [] {
      SameFilter(s[..|s| - 1], f, g);
    }
  }
}
