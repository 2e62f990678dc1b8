/** The search box above the species list: a case-insensitive substring filter over three fields. */
module SpeciesSearch {
  import opened Optional
  import opened Text
  import opened Records

  /** `r` is `s` with some elements left out, the rest in their original order. */
  ghost predicate IsSubsequence<T>(r: seq<T>, s: seq<T>)
    decreases |s|
  {
    r == [] || (s != [] && ((r[0] == s[0] && IsSubsequence(r[1..], s[1..])) || IsSubsequence(r, s[1..])))
  }

  lemma {:induction false} SubsequenceReflexive<T>(s: seq<T>)
    ensures IsSubsequence(s, s)
    decreases |s|
  {
    if s != [] { SubsequenceReflexive(s[1..]); }
  }

  /** The search text as compared: trimmed, then lowercased. */
  function NormaliseQuery(search: string): (q: string)
    ensures q == [] <==> AllSpace(search)
    ensures IsLower(q) && NoEdgeSpace(q)
  {
    LowerIdempotent(Trim(search));
    LowerTrimCommute(Trim(search));
    TrimIdempotent(Trim(search));
    Lower(Trim(search))
  }

  /**
   * A record matches when the query is a substring of its lowercased
   * scientific name, common name or description; a null field contributes no match.
   */
  predicate Matches(s: Species, query: string)
  {
    || Contains(Lower(s.scientificName), query)
    || (s.commonName.Some? && Contains(Lower(s.commonName.value), query))
    || (s.description.Some? && Contains(Lower(s.description.value), query))
  }

  /**
   * A null common name or description never makes a record match: the record
   * then matches on its other fields alone, and on its scientific name alone
   * when both are null.
   */
  lemma NullFieldsNeverMatch(s: Species, query: string)
    ensures s.commonName.None? ==>
      (Matches(s, query) <==>
        (exists i :: OccursAt(Lower(s.scientificName), query, i))
        || (s.description.Some? && exists i :: OccursAt(Lower(s.description.value), query, i)))
    ensures s.description.None? ==>
      (Matches(s, query) <==>
        (exists i :: OccursAt(Lower(s.scientificName), query, i))
        || (s.commonName.Some? && exists i :: OccursAt(Lower(s.commonName.value), query, i)))
    ensures s.commonName.None? && s.description.None? ==>
      (Matches(s, query) <==> exists i :: OccursAt(Lower(s.scientificName), query, i))
  {
    ContainsIff(Lower(s.scientificName), query);
    if s.commonName.Some? { ContainsIff(Lower(s.commonName.value), query); }
    if s.description.Some? { ContainsIff(Lower(s.description.value), query); }
  }

  /** `species.filter(s => Matches(s, query))`. */
  function KeepMatching(species: seq<Species>, query: string): (r: seq<Species>)
    ensures |r| <= |species|
    ensures forall x :: x in r ==> x in species && Matches(x, query)
    ensures forall x :: x in species && Matches(x, query) ==> x in r
    ensures forall x :: multiset(r)[x] == if Matches(x, query) then multiset(species)[x] else 0
    ensures IsSubsequence(r, species)
    decreases |species|
  {
    if species == [] then []
    else
      var rest := KeepMatching(species[1..], query);
      assert species == [species[0]] + species[1..];
      if Matches(species[0], query) then
        assert ([species[0]] + rest)[1..] == rest;
        [species[0]] + rest
      else rest
  }

  /** `filteredSpecies`: a blank search shows every record, otherwise only the matching ones. */
  function FilterSpecies(species: seq<Species>, search: string): (r: seq<Species>)
    ensures AllSpace(search) ==> r == species
    ensures IsSubsequence(r, species) && |r| <= |species|
    ensures forall x :: x in r ==> x in species
    ensures !AllSpace(search) ==> forall x :: x in r ==> Matches(x, NormaliseQuery(search))
    ensures forall x :: x in species && Matches(x, NormaliseQuery(search)) ==> x in r
    ensures forall x :: multiset(r)[x] == (if Matches(x, NormaliseQuery(search)) then multiset(species)[x] else 0)
  {
    var query := NormaliseQuery(search);
    if query == [] then
      SubsequenceReflexive(species);
      assert forall x :: Matches(x, query) by {
        forall x ensures Matches(x, query) { assert Lower(x.scientificName)[..0] == query; }
      }
      species
    else KeepMatching(species, query)
  }

  /** Filtering a filtered list again with the same query changes nothing. */
  lemma {:induction false} KeepMatchingIdempotent(species: seq<Species>, query: string)
    ensures KeepMatching(KeepMatching(species, query), query) == KeepMatching(species, query)
    decreases |species|
  {
    if species != [] {
      KeepMatchingIdempotent(species[1..], query);
    }
  }

  lemma FilterSpeciesIdempotent(species: seq<Species>, search: string)
    ensures FilterSpecies(FilterSpecies(species, search), search) == FilterSpecies(species, search)
  {
    if !AllSpace(search) {
      KeepMatchingIdempotent(species, NormaliseQuery(search));
    }
  }

  /** Leading and trailing whitespace in the search box does not change the result. */
  lemma FilterIgnoresPadding(species: seq<Species>, a: string, search: string, b: string)
    requires AllSpace(a) && AllSpace(b)
    ensures FilterSpecies(species, a + search + b) == FilterSpecies(species, search)
  {
    TrimIgnoresPadding(a, search, b);
  }

  /** Searches that differ only in letter case give the same result. */
  lemma FilterIgnoresCase(species: seq<Species>, x: string, y: string)
    requires Lower(x) == Lower(y)
    ensures FilterSpecies(species, x) == FilterSpecies(species, y)
  {
    LowerTrimCommute(x);
    LowerTrimCommute(y);
  }
}
