/**
 * The statistics the results page's `loader` computes
 * (app/routes/survey.results/route.tsx): one entry per registry choice, in
 * registry order, each with a count drawn at random from 1..100, and their
 * total. The random source is an input: `draws[i]` stands for
 * `Math.floor(Math.random() * 100)`, which lies in 0..99.
 */
module ResultsRoute {
  import opened Choices

  /** `CityStatEntry`. */
  datatype CityStatEntry = CityStatEntry(value: string, labelText: string, count: int)

  /** `CityStats`: the entries and the total of their counts. */
  datatype CityStats = CityStats(entries: seq<CityStatEntry>, count: int)

  /**
   * `entries.reduce((acc, { count }) => acc + count, acc)`: a left fold, which
   * adds `acc` to the total of the counts.
   */
  function FoldCounts(entries: seq<CityStatEntry>, acc: int): (r: int)
    ensures r == acc + Total(entries)
  {
    if entries == [] then acc
    else
      TotalOfCons(entries);
      FoldCounts(entries[1..], acc + entries[0].count)
  }

  /** The sum of the counts, as a reference independent of the fold's order. */
  function Total(entries: seq<CityStatEntry>): int {
    if entries == [] then 0 else entries[|entries| - 1].count + Total(entries[..|entries| - 1])
  }

  /** The draws the random source can give: one per choice, each in 0..99. */
  predicate ValidDraws(draws: seq<int>) {
    |draws| == |Registry| && forall i :: 0 <= i < |draws| ==> 0 <= draws[i] < 100
  }

  /** `loader`'s `cityStats`, before the timer and the deferred promise. */
  function Loader(draws: seq<int>): (stats: CityStats)
    requires ValidDraws(draws)
    ensures |stats.entries| == NChoices()
    ensures forall i :: 0 <= i < |stats.entries| ==>
      && stats.entries[i].value == Registry[i].value
      && stats.entries[i].labelText == Registry[i].labelText
      && 1 <= stats.entries[i].count <= 100
      && stats.entries[i].count == draws[i] + 1
    ensures stats.count == Total(stats.entries)
  {
    var entries := seq(|Registry|, i requires 0 <= i < |Registry| =>
      CityStatEntry(Registry[i].value, Registry[i].labelText, draws[i] + 1));
    CityStats(entries, FoldCounts(entries, 0))
  }

  /** Taking the first entry off lowers the total by its count. */
  lemma {:induction false} TotalOfCons(entries: seq<CityStatEntry>)
    requires entries != []
    ensures Total(entries) == entries[0].count + Total(entries[1..])
  {
    if |entries| > 1 {
      var init := entries[..|entries| - 1];
      TotalOfCons(init);
      assert init[1..] == entries[1..][..|entries[1..]| - 1];
    }
  }

  /** Counts of at least one make a total of at least the number of entries, and no count exceeds it. */
  lemma {:induction false} TotalBounds(entries: seq<CityStatEntry>)
    requires forall i :: 0 <= i < |entries| ==> entries[i].count >= 1
    ensures Total(entries) >= |entries|
    ensures forall i :: 0 <= i < |entries| ==> entries[i].count <= Total(entries)
  {
    if entries != [] {
      var init := entries[..|entries| - 1];
      TotalBounds(init);
      forall i | 0 <= i < |entries| ensures entries[i].count <= Total(entries) {
        if i < |init| {
          assert entries[i] == init[i];
        }
      }
    }
  }

  /**
   * The width of entry `i`'s bar is `count * 100 / total` percent: the total
   * is at least four, so the divisor is never zero, and `count * 100` never
   * exceeds `total * 100`, so no bar is wider than 100%.
   */
  lemma BarWidthBounded(draws: seq<int>, i: int)
    requires ValidDraws(draws)
    requires 0 <= i < NChoices()
    ensures Loader(draws).count >= 4
    ensures 0 < Loader(draws).entries[i].count * 100 <= Loader(draws).count * 100
  {
    TotalBounds(Loader(draws).entries);
  }
}
