/** The search endpoint of the Flask server: a case-insensitive filter on the English
    name and a case-sensitive one on the Ayurveda name, over the rows loaded at start-up. */
module FlaskSearch {
  import opened Wrappers
  import opened Seqs
  import opened Text

  /** One row of the loaded table, reduced to the columns the endpoint and the page use. */
  datatype DiseaseRow = DiseaseRow(name: string, ayurvedaName: string, namaste: string, icd11: string)

  /** An error answer: the HTTP status and the `error` message. */
  datatype SearchError = SearchError(status: nat, message: string)

  const QueryRequired := "Query parameter required"

  /** The row test: the lowered query occurs in the lowered name, or in the Ayurveda name as stored. */
  predicate RowMatches(row: DiseaseRow, query: string)
  {
    Includes(Lower(row.name), query) || Includes(row.ayurvedaName, query)
  }

  /** The endpoint; `q` is the query parameter, `None` when it is missing. */
  function SearchDisease(rows: seq<DiseaseRow>, q: Option<string>): (r: Result<seq<DiseaseRow>, SearchError>)
    ensures r.Err? <==> (q.None? || q.value == "")
    ensures r.Err? ==> r.error == SearchError(400, QueryRequired)
    ensures r.Ok? ==> IsSubsequence(r.value, rows) && |r.value| <= |rows|
    ensures r.Ok? ==> forall row :: row in r.value <==> row in rows && RowMatches(row, Lower(q.value))
    ensures r.Ok? ==> forall row :: multiset(r.value)[row] == if RowMatches(row, Lower(q.value)) then multiset(rows)[row] else 0
  {
    var query := match q case Some(s) => Lower(s) case None => "";
    if query == "" then Err(SearchError(400, QueryRequired))
    else Ok(Keep(rows, (row: DiseaseRow) => RowMatches(row, query)))
  }

  /** The query is lowered first, so its case never matters. */
  lemma SearchIgnoresQueryCase(rows: seq<DiseaseRow>, q1: string, q2: string)
    requires Lower(q1) == Lower(q2)
    ensures SearchDisease(rows, Some(q1)) == SearchDisease(rows, Some(q2))
  {
  }

  /** A match inside the stored Ayurveda name covers no upper-case letter, since the query is lowered and that name is not. */
  lemma AyurvedaMatchHasNoUpper(row: DiseaseRow, q: string, i: int)
    requires OccursAt(row.ayurvedaName, Lower(q), i)
    ensures forall k :: i <= k < i + |q| ==> !IsUpper(row.ayurvedaName[k])
  {
    forall k | i <= k < i + |q|
      ensures !IsUpper(row.ayurvedaName[k])
    {
      assert row.ayurvedaName[i..i + |q|][k - i] == row.ayurvedaName[k];
    }
  }

  /** A row whose Ayurveda name is written in capitals is found only through its English name. */
  lemma UpperAyurvedaNeverMatches(rows: seq<DiseaseRow>, q: string, row: DiseaseRow)
    requires q != "" && row in rows
    requires forall i :: 0 <= i < |row.ayurvedaName| ==> IsUpper(row.ayurvedaName[i])
    ensures SearchDisease(rows, Some(q)).Ok?
    ensures row in SearchDisease(rows, Some(q)).value <==> Includes(Lower(row.name), Lower(q))
  {
    UpperCaseNeverIncludesLower(row.ayurvedaName, Lower(q));
  }

  /** Every row is found by its own (non-empty) English name, in any case. */
  lemma RowFoundByName(rows: seq<DiseaseRow>, row: DiseaseRow, q: string)
    requires row in rows && q != "" && Lower(q) == Lower(row.name)
    ensures SearchDisease(rows, Some(q)).Ok? && row in SearchDisease(rows, Some(q)).value
  {
    IncludesSelf(Lower(row.name));
  }

  /** Distinct rows give distinct results: no row is reported twice. */
  lemma ResultsDistinct(rows: seq<DiseaseRow>, q: string)
    requires Distinct(rows) && q != ""
    ensures SearchDisease(rows, Some(q)).Ok? && Distinct(SearchDisease(rows, Some(q)).value)
  {
    KeepDistinct(rows, (row: DiseaseRow) => RowMatches(row, Lower(q)));
  }

  /** The JSON body the endpoint sends: an `error` member, or a `results` array. */
  datatype SearchBody = SearchBody(error: Option<string>, results: seq<DiseaseRow>)

  function SearchResponse(rows: seq<DiseaseRow>, q: Option<string>): (r: SearchBody)
    ensures r.error.Some? <==> SearchDisease(rows, q).Err?
    ensures r.error.None? ==> r.results == SearchDisease(rows, q).value
  {
    match SearchDisease(rows, q)
    case Err(e) => SearchBody(Some(e.message), [])
    case Ok(found) => SearchBody(None, found)
  }
}
