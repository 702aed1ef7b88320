/**
 * The rows the seed script hands to the database (prisma/seed.ts): one `City`
 * row per city with ids 1..n, and for each city a block of `Survey` rows, its
 * size drawn at random from 1..100, all blocks concatenated in city order.
 * `draws[i]` stands for `Math.floor(Math.random() * 100)`.
 */
module Seed {
  import opened Choices

  /** The seed script's own copy of the city list. */
  const Cities: seq<Choice> := [
    Choice("warszawa", "Warszawa"),
    Choice("krakow", "Kraków"),
    Choice("wroclaw", "Wrocław"),
    Choice("gdansk", "Gdańsk")
  ]

  /** A `City` row to insert. */
  datatype CityInput = CityInput(name: string, labelText: string, id: int)

  /** One city's slug and how many answers to seed for it. */
  datatype SeedEntry = SeedEntry(name: string, count: int)

  /** A `Survey` row to insert. */
  datatype SurveyInput = SurveyInput(cityId: int)

  /** The seed script's cities are the registry's, in the same order. */
  lemma CitiesAreRegistry()
    ensures Cities == Registry
  {
  }

  /**
   * `citiesInput`: city `i` becomes a row with id `i + 1`, so there is one row
   * per city, the ids are exactly 1..n, and no two rows share one.
   */
  function CreateCities(cities: seq<Choice>): (rows: seq<CityInput>)
    ensures |rows| == |cities|
    ensures forall id :: id in Ids(rows) <==> 1 <= id <= |cities|
    ensures forall i, j :: 0 <= i < j < |rows| ==> rows[i].id != rows[j].id
  {
    var rows := seq(|cities|, i requires 0 <= i < |cities| => CityInput(cities[i].value, cities[i].labelText, i + 1));
    NumberedIds(rows);
    rows
  }

  /** Rows numbered `i + 1` by position have exactly the ids 1..n. */
  lemma NumberedIds(rows: seq<CityInput>)
    requires forall i :: 0 <= i < |rows| ==> rows[i].id == i + 1
    ensures forall id :: id in Ids(rows) <==> 1 <= id <= |rows|
  {
    forall k | 1 <= k <= |rows| ensures k in Ids(rows) {
      assert rows[k - 1] in rows;
    }
    forall r | r in rows ensures 1 <= r.id <= |rows| {
      var i :| 0 <= i < |rows| && rows[i] == r;
    }
  }

  /** The ids of a list of city rows. */
  function Ids(rows: seq<CityInput>): set<int> {
    set r | r in rows :: r.id
  }

  /** Row `i` carries city `i`'s slug and label and the id `i + 1`. */
  lemma CityIds(cities: seq<Choice>)
    ensures forall i :: 0 <= i < |cities| ==>
      && CreateCities(cities)[i].name == cities[i].value
      && CreateCities(cities)[i].labelText == cities[i].labelText
      && CreateCities(cities)[i].id == i + 1
  {
  }

  /** The registry's slugs name one seeded city each. */
  lemma CityNamesDistinct()
    ensures forall i, j :: 0 <= i < j < |Cities| ==> CreateCities(Cities)[i].name != CreateCities(Cities)[j].name
  {
  }

  /** The draws the random source can give: one per city, each in 0..99. */
  predicate ValidDraws(cities: seq<Choice>, draws: seq<int>) {
    |draws| == |cities| && forall i :: 0 <= i < |draws| ==> 0 <= draws[i] < 100
  }

  /** `seed`: each city's slug and a count from 1..100. */
  function Seeds(cities: seq<Choice>, draws: seq<int>): (seed: seq<SeedEntry>)
    requires ValidDraws(cities, draws)
    ensures |seed| == |cities|
    ensures forall i :: 0 <= i < |seed| ==> seed[i].name == cities[i].value && 1 <= seed[i].count <= 100
  {
    seq(|cities|, i requires 0 <= i < |cities| => SeedEntry(cities[i].value, draws[i] + 1))
  }

  /** `n` copies of `x`: `Array.from({ length: n }).map(_ => x)`. */
  function Repeat<T>(n: nat, x: T): (r: seq<T>)
    ensures |r| == n && forall y :: y in r ==> y == x
  {
    seq(n, _ => x)
  }

  /**
   * `.flat()`: the blocks concatenated in order. It keeps every row of every
   * block and adds none.
   */
  function Flatten<T>(blocks: seq<seq<T>>): (rows: seq<T>)
    ensures |rows| == SumLengths(blocks)
    ensures forall x :: x in rows ==> exists k :: 0 <= k < |blocks| && x in blocks[k]
  {
    if blocks == [] then []
    else
      var rest := Flatten(blocks[1..]);
      ShiftBlockIndex(blocks, rest);
      blocks[0] + rest
  }

  /** What comes from a block of `blocks[1..]` comes from a block of `blocks`. */
  lemma ShiftBlockIndex<T>(blocks: seq<seq<T>>, rest: seq<T>)
    requires blocks != []
    requires forall x :: x in rest ==> exists k :: 0 <= k < |blocks[1..]| && x in blocks[1..][k]
    ensures forall x :: x in blocks[0] + rest ==> exists k :: 0 <= k < |blocks| && x in blocks[k]
  {
  }

  /**
   * The per-city blocks: city `i`'s block holds `count` rows tagged `i + 1`
   * (`Array.from` reads a negative length as zero).
   */
  function Blocks(seed: seq<SeedEntry>): (blocks: seq<seq<SurveyInput>>)
    ensures |blocks| == |seed|
    ensures forall i :: 0 <= i < |seed| ==> |blocks[i]| == (if seed[i].count < 0 then 0 else seed[i].count)
    ensures forall i, r :: 0 <= i < |seed| && r in blocks[i] ==> r.cityId == i + 1
  {
    seq(|seed|, i requires 0 <= i < |seed| =>
      Repeat(if seed[i].count < 0 then 0 else seed[i].count, SurveyInput(i + 1)))
  }

  /**
   * `surveysInput`: as many rows as the (non-negative) counts add up to, each
   * tagged with the id of one of the cities.
   */
  function CreateSurveys(seed: seq<SeedEntry>): (rows: seq<SurveyInput>)
    ensures (forall i :: 0 <= i < |seed| ==> seed[i].count >= 0) ==> |rows| == SumCounts(seed)
    ensures forall r :: r in rows ==> 1 <= r.cityId <= |seed|
  {
    var blocks := Blocks(seed);
    if forall i :: 0 <= i < |seed| ==> seed[i].count >= 0 then
      SumLengthsOfBlocks(seed, blocks);
      Flatten(blocks)
    else
      Flatten(blocks)
  }

  /** The total length of a list of blocks. */
  function SumLengths<T>(blocks: seq<seq<T>>): nat {
    if blocks == [] then 0 else |blocks[0]| + SumLengths(blocks[1..])
  }

  /** The sum of the seed counts. */
  function SumCounts(seed: seq<SeedEntry>): int {
    if seed == [] then 0 else seed[0].count + SumCounts(seed[1..])
  }

  /** How many rows carry `cityId == id`. */
  function CountCity(rows: seq<SurveyInput>, id: int): nat {
    if rows == [] then 0 else (if rows[0].cityId == id then 1 else 0) + CountCity(rows[1..], id)
  }

  /** Block `i` sits, unchanged, right after the blocks before it. */
  lemma {:induction false} FlattenBlockAt<T>(blocks: seq<seq<T>>, i: nat)
    requires i < |blocks|
    ensures SumLengths(blocks[..i]) + |blocks[i]| <= |Flatten(blocks)|
    ensures Flatten(blocks)[SumLengths(blocks[..i]) .. SumLengths(blocks[..i]) + |blocks[i]|] == blocks[i]
  {
    var rest := Flatten(blocks[1..]);
    assert Flatten(blocks) == blocks[0] + rest;
    if i == 0 {
      assert blocks[..0] == [];
    } else {
      FlattenBlockAt(blocks[1..], i - 1);
      assert blocks[..i][1..] == blocks[1..][..i - 1];
      var off := SumLengths(blocks[1..][..i - 1]);
      assert SumLengths(blocks[..i]) == |blocks[0]| + off;
      assert (blocks[0] + rest)[|blocks[0]| + off .. |blocks[0]| + off + |blocks[i]|]
          == rest[off .. off + |blocks[i]|];
    }
  }

  lemma {:induction false} CountAppend(a: seq<SurveyInput>, b: seq<SurveyInput>, id: int)
    ensures CountCity(a + b, id) == CountCity(a, id) + CountCity(b, id)
  {
    if a == [] {
      assert a + b == b;
    } else {
      assert (a + b)[1..] == a[1..] + b;
      CountAppend(a[1..], b, id);
    }
  }

  lemma {:induction false} CountUniform(block: seq<SurveyInput>, tag: int, id: int)
    requires forall r :: r in block ==> r.cityId == tag
    ensures CountCity(block, id) == if tag == id then |block| else 0
  {
    if block != [] {
      assert block[0] in block;
      CountUniform(block[1..], tag, id);
    }
  }

  /**
   * When block `k` holds only rows tagged `base + k + 1`, the flattened list
   * has `|blocks[id - base - 1]|` rows tagged `id` for a tag in range and
   * none for any other.
   */
  lemma {:induction false} CountTagged(blocks: seq<seq<SurveyInput>>, base: int, id: int)
    requires forall k, r :: 0 <= k < |blocks| && r in blocks[k] ==> r.cityId == base + k + 1
    ensures CountCity(Flatten(blocks), id) == if base < id <= base + |blocks| then |blocks[id - base - 1]| else 0
  {
    if blocks != [] {
      CountAppend(blocks[0], Flatten(blocks[1..]), id);
      CountUniform(blocks[0], base + 1, id);
      assert forall k, r :: 0 <= k < |blocks[1..]| && r in blocks[1..][k] ==> r.cityId == base + 1 + k + 1 by {
        forall k, r | 0 <= k < |blocks[1..]| && r in blocks[1..][k] ensures r.cityId == base + 1 + k + 1 {
          assert r in blocks[k + 1];
        }
      }
      CountTagged(blocks[1..], base + 1, id);
      if base + 1 < id <= base + |blocks| {
        assert blocks[1..][id - (base + 1) - 1] == blocks[id - base - 1];
      }
    }
  }

  lemma {:induction false} SumLengthsOfBlocks(seed: seq<SeedEntry>, blocks: seq<seq<SurveyInput>>)
    requires |blocks| == |seed|
    requires forall i :: 0 <= i < |seed| ==> seed[i].count >= 0 && |blocks[i]| == seed[i].count
    ensures SumLengths(blocks) == SumCounts(seed)
  {
    if seed != [] {
      SumLengthsOfBlocks(seed[1..], blocks[1..]);
    }
  }

  /** Exactly `count_i` rows carry `cityId == i + 1`, and no row carries another id. */
  lemma SurveyRowsPerCity(draws: seq<int>, id: int)
    requires ValidDraws(Cities, draws)
    ensures var seed := Seeds(Cities, draws);
      CountCity(CreateSurveys(seed), id) == if 1 <= id <= |seed| then seed[id - 1].count else 0
  {
    var seed := Seeds(Cities, draws);
    CountTagged(Blocks(seed), 0, id);
  }

  /**
   * The rows are the per-city blocks laid end to end in city order: city
   * `i`'s `count_i` rows tagged `i + 1` start where the rows of the cities
   * before it end.
   */
  lemma SurveyRowsContiguous(draws: seq<int>, i: int)
    requires ValidDraws(Cities, draws)
    requires 0 <= i < |Cities|
    ensures var seed := Seeds(Cities, draws);
      var start := SumCounts(seed[..i]);
      && 0 <= start
      && start + seed[i].count <= |CreateSurveys(seed)|
      && CreateSurveys(seed)[start .. start + seed[i].count] == Repeat(seed[i].count, SurveyInput(i + 1))
  {
    var seed := Seeds(Cities, draws);
    var blocks := Blocks(seed);
    FlattenBlockAt(blocks, i);
    SumLengthsOfBlocks(seed[..i], blocks[..i]);
  }

  /**
   * Every survey row points at a city row the seed creates: the row of the
   * very city whose block it belongs to.
   */
  lemma SurveyCityIdsExist(draws: seq<int>)
    requires ValidDraws(Cities, draws)
    ensures var seed := Seeds(Cities, draws);
      forall r :: r in CreateSurveys(seed) ==>
        exists k :: 0 <= k < |seed| && CreateCities(Cities)[k].id == r.cityId && CreateCities(Cities)[k].name == seed[k].name
  {
  }
}
