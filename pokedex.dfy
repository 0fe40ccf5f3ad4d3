/** The catalogue page (pages/index.tsx): the list shown under the search box and
    the type selector, and the choices offered by the type selector.

    `toLowerCase` is passed in as `lower`; nothing is assumed about it beyond what a
    lemma states in its own precondition. */
module Pokedex {
  import opened Pokedata
  import opened Seqs
  import Text

  type Lower = string -> string

  /** The placeholder entry the page never lists. */
  const MissingNo: string := "MissingNo."

  /** `s.includes(term)`. */
  predicate Includes(s: string, term: string)
  {
    exists i: nat | i + |term| <= |s| :: Text.OccursAt(s, term, i)
  }

  /** The first filter: `pokemon.name.fr !== "MissingNo."`. */
  predicate Listed(p: Creature)
  {
    p.name != MissingNo
  }

  /** `matchesName`: the lower-cased name contains the lower-cased search term. */
  predicate MatchesName(p: Creature, searchTerm: string, lower: Lower)
  {
    Includes(lower(p.name), lower(searchTerm))
  }

  /** `matchesType`: with no type selected every entry passes; otherwise the entry
      needs a first type whose lower-cased name is the lower-cased selection. */
  predicate MatchesType(p: Creature, selectedType: string, lower: Lower)
  {
    selectedType != "" ==> |p.types| > 0 && lower(p.types[0]) == lower(selectedType)
  }

  /** The second filter. */
  predicate Shown(p: Creature, searchTerm: string, selectedType: string, lower: Lower)
  {
    MatchesName(p, searchTerm, lower) && MatchesType(p, selectedType, lower)
  }

  /** `filteredPokemons`: nothing while the data is absent, otherwise the two
      filters one after the other. */
  function FilteredPokemons(pokemons: Option<seq<Creature>>, searchTerm: string, selectedType: string, lower: Lower): (r: seq<Creature>)
    ensures pokemons.None? ==> r == []
    ensures forall k :: 0 <= k < |r| ==> r[k].name != MissingNo
    ensures forall k :: 0 <= k < |r| ==> Shown(r[k], searchTerm, selectedType, lower)
    ensures selectedType != "" ==>
      forall k :: 0 <= k < |r| ==> |r[k].types| > 0 && lower(r[k].types[0]) == lower(selectedType)
  {
    if pokemons.None? then []
    else Filter(Filter(pokemons.value, Listed), p => Shown(p, searchTerm, selectedType, lower))
  }

  /** The result lists exactly the entries that pass both tests, and keeps them in
      the order of the data. */
  lemma FilteredPokemonsExactly(pokemons: seq<Creature>, searchTerm: string, selectedType: string, lower: Lower)
    ensures var r := FilteredPokemons(Some(pokemons), searchTerm, selectedType, lower);
      && IsSubsequence(r, pokemons)
      && r == Filter(pokemons, p => Listed(p) && Shown(p, searchTerm, selectedType, lower))
      && forall p :: p in r <==> p in pokemons && Listed(p) && Shown(p, searchTerm, selectedType, lower)
  {
    var shown := p => Shown(p, searchTerm, selectedType, lower);
    var both := p => Listed(p) && Shown(p, searchTerm, selectedType, lower);
    FilterFilter(pokemons, Listed, shown, both);
    FilterIsSubsequence(pokemons, both);
    var r := Filter(pokemons, both);
    forall p | p in pokemons && both(p)
      ensures p in r
    {
      var k :| 0 <= k < |pokemons| && pokemons[k] == p;
    }
  }

  /** Every string includes the empty string. */
  lemma IncludesEmpty(s: string)
    ensures Includes(s, "")
  {
    assert Text.OccursAt(s, "", 0);
  }

  /** With an empty search box and no type selected, every entry but the
      placeholder is listed, in order (`"".toLowerCase()` is `""`). */
  lemma EmptyQueryListsAll(pokemons: seq<Creature>, lower: Lower)
    requires lower("") == ""
    ensures FilteredPokemons(Some(pokemons), "", "", lower) == Filter(pokemons, Listed)
  {
    var listed := Filter(pokemons, Listed);
    forall k | 0 <= k < |listed|
      ensures Shown(listed[k], "", "", lower)
    {
      IncludesEmpty(lower(listed[k].name));
    }
    FilterKeepsAll(listed, p => Shown(p, "", "", lower));
  }

  // ---------------------------------------------------------------------------
  // The type selector
  // ---------------------------------------------------------------------------

  /** `pokemon.types && pokemon.types[0]?.name`: a first type with a non-empty
      name. */
  predicate HasFirstType(p: Creature)
  {
    |p.types| > 0 && p.types[0] != ""
  }

  /** The names the `forEach` adds to the set, in the order it adds them. */
  function FirstTypes(pokemons: seq<Creature>): (names: seq<string>)
    ensures |names| <= |pokemons|
    ensures forall t :: t in names <==> exists k :: 0 <= k < |pokemons| && HasFirstType(pokemons[k]) && pokemons[k].types[0] == t
    decreases |pokemons|
  {
    if pokemons == [] then []
    else
      var init := pokemons[..|pokemons| - 1];
      var p := pokemons[|pokemons| - 1];
      var names := FirstTypes(init) + (if HasFirstType(p) then [p.types[0]] else []);
      assert forall k :: 0 <= k < |init| ==> init[k] == pokemons[k];
      names
  }

  /** `allTypes`: the set filled by the loop, read back in insertion order. The
      set is kept as the sequence of its elements in the order they were added. */
  method AllTypes(pokemons: Option<seq<Creature>>) returns (types: seq<string>)
    ensures types == Distinct(FirstTypes(if pokemons.Some? then pokemons.value else []))
  {
    types := [];
    if pokemons.None? {
      return;
    }
    var ps := pokemons.value;
    for i := 0 to |ps|
      invariant types == Distinct(FirstTypes(ps[..i]))
    {
      var pokemon := ps[i];
      ghost var seen := FirstTypes(ps[..i]);
      assert ps[..i + 1][..i] == ps[..i];
      if HasFirstType(pokemon) {
        var name := pokemon.types[0];
        assert (seen + [name])[..|seen|] == seen;
        if name !in types {
          types := types + [name];
        }
      } else {
        assert seen + [] == seen;
      }
    }
    assert ps[..|ps|] == ps;
  }

  /** The type selector offers each first-type name of the data exactly once, and
      nothing else, listed by first occurrence. */
  lemma AllTypesContents(pokemons: seq<Creature>)
    ensures var types := Distinct(FirstTypes(pokemons));
      && NoDuplicates(types)
      && (forall t :: t in types <==> exists k :: 0 <= k < |pokemons| && HasFirstType(pokemons[k]) && pokemons[k].types[0] == t)
      && forall i, j :: 0 <= i < j < |types| ==>
        FirstIndex(FirstTypes(pokemons), types[i]) < FirstIndex(FirstTypes(pokemons), types[j])
  {
    var names := FirstTypes(pokemons);
    DistinctFirstOccurrenceOrder(names);
    var types := Distinct(names);
    forall t | t in names
      ensures t in types
    {
      var k :| 0 <= k < |names| && names[k] == t;
    }
  }
}
