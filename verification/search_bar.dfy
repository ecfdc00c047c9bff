/** The suggestion search bar of the landing pages: a term, the filtered
    suggestions, the selected record and the dropdown flag. The same component
    is written twice, over the eight-record and the four-record lists; the
    model takes the list as a parameter. */
module SearchBar {
  import opened Wrappers
  import opened Seqs
  import opened Text
  import opened Diseases

  datatype SearchBar = SearchBar(
    searchTerm: string,
    suggestions: seq<Disease>,
    selected: Option<Disease>,
    showSuggestions: bool)

  const Initial := SearchBar("", [], None, false)

  /** At most this many suggestions are rendered. */
  const MaxRows: nat := 5

  /** The effect that re-filters whenever the term changes. */
  function RunEffect(data: seq<Disease>, st: SearchBar): (r: SearchBar)
    ensures r.searchTerm == st.searchTerm && r.selected == st.selected
    ensures st.searchTerm == "" ==> r.suggestions == [] && !r.showSuggestions
    ensures st.searchTerm != "" ==> r.showSuggestions
    ensures forall d :: d in r.suggestions <==> st.searchTerm != "" && d in data && Matches(d, st.searchTerm)
    ensures IsSubsequence(r.suggestions, data)
  {
    if |st.searchTerm| > 0 then st.(suggestions := Suggestions(data, st.searchTerm), showSuggestions := true)
    else st.(suggestions := [], showSuggestions := false)
  }

  /** Typing into the input. Setting an equal term is a no-op for React, so the effect only runs on a change. */
  function Type(data: seq<Disease>, st: SearchBar, term: string): (r: SearchBar)
    ensures r.searchTerm == term && r.selected == st.selected
    ensures term != st.searchTerm ==> r == RunEffect(data, st.(searchTerm := term))
  {
    if term == st.searchTerm then st else RunEffect(data, st.(searchTerm := term))
  }

  /** The rows of the dropdown: nothing unless it is shown and non-empty, then the first five suggestions. */
  function Dropdown(st: SearchBar): (r: seq<Disease>)
    ensures |r| <= MaxRows && |r| <= |st.suggestions|
    ensures r == st.suggestions[..|r|]
    ensures r != [] <==> st.showSuggestions && st.suggestions != []
    ensures st.showSuggestions ==> |r| == if |st.suggestions| <= MaxRows then |st.suggestions| else MaxRows
  {
    if st.showSuggestions && |st.suggestions| > 0 then Take(st.suggestions, MaxRows) else []
  }

  /** The selection handler alone: select the record, copy its name into the input, hide the dropdown. */
  function OnSelect(st: SearchBar, d: Disease): (r: SearchBar)
    ensures r.selected == Some(d) && r.searchTerm == d.name && !r.showSuggestions
    ensures r.suggestions == st.suggestions
  {
    st.(selected := Some(d), searchTerm := d.name, showSuggestions := false)
  }

  /** Selecting a suggestion as the component is written: the handler runs, and
      because it changed the term the filtering effect runs afterwards. */
  function SelectAsWritten(data: seq<Disease>, st: SearchBar, d: Disease): (r: SearchBar)
    ensures r.selected == Some(d) && r.searchTerm == d.name
    ensures d.name == st.searchTerm ==> !r.showSuggestions
    ensures d.name != "" ==> (!r.showSuggestions <==> d.name == st.searchTerm)
  {
    var handled := OnSelect(st, d);
    if d.name == st.searchTerm then handled else RunEffect(data, handled)
  }

  /** Selecting a suggestion as intended: the list is re-filtered for the new term but the dropdown stays closed. */
  function Select(data: seq<Disease>, st: SearchBar, d: Disease): (r: SearchBar)
    ensures r.selected == Some(d) && r.searchTerm == d.name
    ensures Dropdown(r) == []
    ensures d in data && d.name != "" ==> d in r.suggestions
  {
    var r := RunEffect(data, OnSelect(st, d)).(showSuggestions := false);
    if d in data then OwnNameSuggested(data, d); r else r
  }

  /** The states the component can reach: the suggestions are always the filter of the current term,
      and an empty term never shows the dropdown. */
  ghost predicate Consistent(data: seq<Disease>, st: SearchBar)
  {
    && st.suggestions == (if st.searchTerm == "" then [] else Suggestions(data, st.searchTerm))
    && (st.searchTerm == "" ==> !st.showSuggestions)
  }

  lemma InitialConsistent(data: seq<Disease>)
    ensures Consistent(data, Initial)
  {
  }

  lemma TypePreservesConsistent(data: seq<Disease>, st: SearchBar, term: string)
    requires Consistent(data, st)
    ensures Consistent(data, Type(data, st, term))
  {
  }

  lemma SelectPreservesConsistent(data: seq<Disease>, st: SearchBar, d: Disease)
    requires Consistent(data, st)
    ensures Consistent(data, Select(data, st, d))
  {
  }

  /** An empty term shows no rows, whatever the record list. */
  lemma EmptyTermShowsNothing(data: seq<Disease>, st: SearchBar)
    requires Consistent(data, st) && st.searchTerm == ""
    ensures st.suggestions == [] && Dropdown(st) == []
  {
  }

  /** A non-empty term with no match still sets the dropdown flag, but no rows are rendered. */
  lemma NoMatchFlagWithoutRows(data: seq<Disease>, st: SearchBar, term: string)
    requires term != st.searchTerm && term != ""
    requires forall d :: d in data ==> !Matches(d, term)
    ensures Type(data, st, term).showSuggestions
    ensures Dropdown(Type(data, st, term)) == []
  {
  }

  /** Typing terms that are equal after lower-casing yields the same dropdown. */
  lemma TypeIgnoresCase(data: seq<Disease>, st: SearchBar, t1: string, t2: string)
    requires Lower(t1) == Lower(t2)
    requires t1 != st.searchTerm && t2 != st.searchTerm
    ensures Type(data, st, t1).suggestions == Type(data, st, t2).suggestions
    ensures Dropdown(Type(data, st, t1)) == Dropdown(Type(data, st, t2))
  {
    SuggestionsIgnoreCase(data, t1, t2);
    assert t1 == "" <==> t2 == "";
  }

  /** With four records the five-row cap never cuts the list: every suggestion is rendered. */
  lemma SimpleLandingNeverTruncates(st: SearchBar)
    requires Consistent(SimpleLandingDiseases, st) && st.showSuggestions
    ensures Dropdown(st) == st.suggestions
  {
  }

  /** The rendered rows carry pairwise distinct NAMASTE keys. */
  lemma DropdownKeysDistinct(data: seq<Disease>, st: SearchBar)
    requires NamasteKeysDistinct(data) && Consistent(data, st)
    ensures NamasteKeysDistinct(Dropdown(st))
  {
    if st.searchTerm != "" {
      SuggestionKeysDistinct(data, st.searchTerm);
    }
  }

  /** As written, choosing a suggestion whose name differs from the typed term
      leaves the dropdown open, listing the chosen record again. */
  lemma SelectAsWrittenReopens(data: seq<Disease>, st: SearchBar, d: Disease)
    requires d in data && d.name != "" && d.name != st.searchTerm
    ensures SelectAsWritten(data, st, d).showSuggestions
    ensures d in SelectAsWritten(data, st, d).suggestions
    ensures Dropdown(SelectAsWritten(data, st, d)) != []
  {
    OwnNameSuggested(data, d);
  }

  /** Typing "diab" and choosing "Diabetes Mellitus" reopens the dropdown. */
  lemma SelectAfterTypingReopens()
    ensures Dropdown(SelectAsWritten(SearchBarDiseases, Type(SearchBarDiseases, Initial, "diab"), SearchBarDiseases[0])) != []
  {
    SelectAsWrittenReopens(SearchBarDiseases, Type(SearchBarDiseases, Initial, "diab"), SearchBarDiseases[0]);
  }
}
