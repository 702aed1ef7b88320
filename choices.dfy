/**
 * The fixed choice registry of app/lib/choices.ts: the four Polish cities a
 * survey answer may name, each a value (slug) paired with a display label.
 */
module Choices {
  import opened Wrappers

  /** One entry of the registry: the slug sent by the form (`value`) and its display label (`label`). */
  datatype Choice = Choice(value: string, labelText: string)

  /** The registry, in the order the form and the results page show it. */
  const Registry: seq<Choice> := [
    Choice("warszawa", "Warszawa"),
    Choice("krakow", "Kraków"),
    Choice("wroclaw", "Wrocław"),
    Choice("gdansk", "Gdańsk")
  ]

  /** `nChoices`: the length of the registry, which holds four cities. */
  function NChoices(): (n: nat)
    ensures n == 4
  {
    |Registry|
  }

  /** The slugs of a list of choices, in order. */
  function Values(cs: seq<Choice>): (vs: seq<string>)
    ensures |vs| == |cs|
    ensures forall i :: 0 <= i < |cs| ==> vs[i] == cs[i].value
  {
    seq(|cs|, i requires 0 <= i < |cs| => cs[i].value)
  }

  /** No two entries share a slug. */
  predicate DistinctValues(cs: seq<Choice>) {
    forall i, j :: 0 <= i < j < |cs| ==> cs[i].value != cs[j].value
  }

  /** Some entry of the registry has slug `v`. */
  predicate IsChoiceValue(v: string) {
    exists c :: c in Registry && c.value == v
  }

  /**
   * `cs.find(({ value }) => value === v)`: the first entry whose slug is `v`,
   * or `undefined` when there is none.
   */
  function Find(cs: seq<Choice>, v: string): (r: Option<Choice>)
    ensures r.Some? ==> r.value in cs && r.value.value == v
    ensures r.None? <==> forall c :: c in cs ==> c.value != v
    ensures r.Some? ==> exists i :: 0 <= i < |cs| && cs[i] == r.value &&
                                    forall j :: 0 <= j < i ==> cs[j].value != v
  {
    if cs == [] then None
    else if cs[0].value == v then Some(cs[0])
    else
      var rest := Find(cs[1..], v);
      assert forall c :: c in cs ==> c == cs[0] || c in cs[1..];
      if rest.Some? then
        ghost var k :| 0 <= k < |cs[1..]| && cs[1..][k] == rest.value &&
                       forall j :: 0 <= j < k ==> cs[1..][j].value != v;
        assert cs[k + 1] == rest.value;
        rest
      else rest
  }

  /**
   * `new Map(cs.map(({ value, label }) => [value, label]))`: entries are
   * inserted in order, so a later entry with a slug already present replaces
   * the earlier label. The map has a key exactly for each slug of `cs`.
   */
  function MapOf(cs: seq<Choice>): (m: map<string, string>)
    ensures m.Keys == set c | c in cs :: c.value
  {
    if cs == [] then map[]
    else
      var init, last := cs[..|cs| - 1], cs[|cs| - 1];
      assert cs == init + [last];
      MapOf(init)[last.value := last.labelText]
  }

  /**
   * For slugs that are pairwise distinct, the map pairs every slug with its
   * own label and has one key per entry.
   */
  lemma {:induction false} MapOfDistinct(cs: seq<Choice>)
    requires DistinctValues(cs)
    ensures forall c :: c in cs ==> c.value in MapOf(cs) && MapOf(cs)[c.value] == c.labelText
    ensures |MapOf(cs)| == |cs|
  {
    if cs != [] {
      var init, last := cs[..|cs| - 1], cs[|cs| - 1];
      MapOfDistinct(init);
      assert last.value !in MapOf(init) by {
        forall c | c in init ensures c.value != last.value {
          var i :| 0 <= i < |init| && init[i] == c;
          assert cs[i] == c;
        }
      }
      forall c | c in cs ensures MapOf(cs)[c.value] == c.labelText {
        var i :| 0 <= i < |cs| && cs[i] == c;
        if i < |cs| - 1 {
          assert init[i] == c;
        }
      }
    }
  }

  /** The registry's slugs, in order, are warszawa, krakow, wroclaw, gdansk. */
  lemma RegistryShape()
    ensures Values(Registry) == ["warszawa", "krakow", "wroclaw", "gdansk"]
  {
  }

  /** The registry's slugs are pairwise distinct, and none is the empty string. */
  lemma RegistryDistinct()
    ensures DistinctValues(Registry)
    ensures !IsChoiceValue("")
  {
  }

  /** A slug is a choice value exactly when it is one of the four city slugs. */
  lemma ChoiceValues(v: string)
    ensures IsChoiceValue(v) <==> v in {"warszawa", "krakow", "wroclaw", "gdansk"}
  {
  }

  /**
   * `choicesMap`: it has a key exactly for each choice value, maps each to
   * that choice's label, and so has `nChoices` keys.
   */
  function ChoicesMap(): (m: map<string, string>)
    ensures m.Keys == set c | c in Registry :: c.value
    ensures forall c :: c in Registry ==> m[c.value] == c.labelText
    ensures |m| == NChoices()
  {
    RegistryDistinct();
    MapOfDistinct(Registry);
    MapOf(Registry)
  }

  /** `find` over the registry succeeds exactly on the choice values. */
  lemma FindInRegistry(v: string)
    ensures Find(Registry, v).Some? <==> IsChoiceValue(v)
  {
  }
}
