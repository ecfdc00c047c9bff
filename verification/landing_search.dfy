/** The search button of the basic landing page in the application shell:
    the first record, in list order, whose name contains the term. */
module LandingSearch {
  import opened Wrappers
  import opened Seqs
  import opened Text
  import opened Diseases

  /** The name test of the search button (names only, unlike the suggestion filter). */
  predicate NameMatches(d: Disease, term: string)
  {
    Includes(Lower(d.name), Lower(term))
  }

  /** The record selected by a search, or `None` (JavaScript `null`) when no name matches. */
  function HandleSearch(data: seq<Disease>, term: string): (r: Option<Disease>)
    ensures r.Some? ==> exists i :: 0 <= i < |data| && data[i] == r.value && NameMatches(data[i], term)
                                     && forall j :: 0 <= j < i ==> !NameMatches(data[j], term)
    ensures r.None? <==> forall d :: d in data ==> !NameMatches(d, term)
  {
    match FirstWhere(data, d => NameMatches(d, term))
    case None => None
    case Some(i) => Some(data[i])
  }

  /** The results panel is rendered exactly when a record is selected. */
  predicate ResultsShown(selected: Option<Disease>)
  {
    selected.Some?
  }

  /** The empty term is a substring of every name, so it selects the first record. */
  lemma EmptyTermSelectsFirst(data: seq<Disease>)
    requires |data| > 0
    ensures HandleSearch(data, "") == Some(data[0])
  {
    IncludesEmpty(Lower(data[0].name));
  }

  /** On the shell's own list an empty search shows "Diabetes Mellitus". */
  lemma EmptySearchShowsDiabetes()
    ensures HandleSearch(AppDiseases, "").Some?
    ensures HandleSearch(AppDiseases, "").value.name == "Diabetes Mellitus"
  {
    EmptyTermSelectsFirst(AppDiseases);
  }

  /** When no name matches, nothing is selected and no results are rendered. */
  lemma NoMatchHidesResults(data: seq<Disease>, term: string)
    requires forall d :: d in data ==> !NameMatches(d, term)
    ensures !ResultsShown(HandleSearch(data, term))
  {
  }

  /** The selected record is the head of the full filtered list: a search is "first of filter". */
  lemma SearchIsHeadOfFilter(data: seq<Disease>, term: string)
    ensures HandleSearch(data, term).None? <==> Keep(data, d => NameMatches(d, term)) == []
    ensures HandleSearch(data, term).Some? ==> HandleSearch(data, term).value == Keep(data, d => NameMatches(d, term))[0]
  {
    FirstWhereIsHeadOfKeep(data, d => NameMatches(d, term));
  }

  /** Searching for a listed record's own name always selects something (an earlier record whose name contains it, or the record itself). */
  lemma OwnNameFound(data: seq<Disease>, i: nat)
    requires i < |data|
    ensures HandleSearch(data, data[i].name).Some?
  {
    IncludesSelf(Lower(data[i].name));
  }
}
