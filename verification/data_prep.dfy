/** The one-off data preparation script: it lower-cases the Ayurveda names, cuts each
    one before its first " (" and drops the ICD-11 column. Spreadsheet and CSV I/O are
    not modelled; a table is a column list plus one map per row. */
module DataPrep {
  import opened Wrappers
  import opened Seqs
  import opened Text

  /** The separator the names are split on (a regular expression matching the two characters " ("). */
  const Cut := " ("

  /** One name: lower-cased, then everything from the first " (" on removed. */
  function Normalise(s: string): (r: string)
    ensures |r| <= |s| && r == Lower(s)[..|r|]
    ensures IndexOf(Lower(s), Cut).None? ==> r == Lower(s)
    ensures IndexOf(Lower(s), Cut).Some? ==> |r| == IndexOf(Lower(s), Cut).value
  {
    var lowered := Lower(s);
    match IndexOf(lowered, Cut)
    case None => lowered
    case Some(i) => lowered[..i]
  }

  /** An occurrence inside a prefix is an occurrence in the whole text. */
  lemma OccursInPrefix(s: string, p: string, n: nat, j: int)
    requires n <= |s| && OccursAt(s[..n], p, j)
    ensures OccursAt(s, p, j)
  {
    assert s[..n][j..j + |p|] == s[j..j + |p|];
  }

  /** The normalised name never contains the separator. */
  lemma NormaliseHasNoCut(s: string)
    ensures !Includes(Normalise(s), Cut)
  {
    var lowered := Lower(s);
    var r := Normalise(s);
    if j :| OccursAt(r, Cut, j) {
      OccursInPrefix(lowered, Cut, |r|, j);
      assert false;
    }
  }

  /** Only a space lowers to a space, and only an opening parenthesis to one. */
  lemma CutAt(s: string, i: int)
    requires OccursAt(Lower(s), Cut, i)
    ensures OccursAt(s, Cut, i)
  {
    var l := Lower(s);
    assert l[i] == l[i..i + 2][0] == ' ';
    assert l[i + 1] == l[i..i + 2][1] == '(';
    assert s[i..i + 2] == [s[i], s[i + 1]];
  }

  /** Lower-casing never creates the separator. */
  lemma LowerKeepsCut(s: string)
    ensures Includes(Lower(s), Cut) ==> Includes(s, Cut)
  {
    if Includes(Lower(s), Cut) {
      var i :| OccursAt(Lower(s), Cut, i);
      CutAt(s, i);
    }
  }

  /** A name without the separator is only lower-cased. */
  lemma NoCutOnlyLowers(s: string)
    requires !Includes(s, Cut)
    ensures Normalise(s) == Lower(s)
  {
    LowerKeepsCut(s);
  }

  /** The normalised name is lower-case. */
  lemma NormaliseIsLowerCase(s: string)
    ensures IsLowerCase(Normalise(s))
  {
    var r := Normalise(s);
    assert forall k :: 0 <= k < |r| ==> r[k] == Lower(s)[k];
  }

  /** Normalising twice is normalising once. */
  lemma NormaliseIdempotent(s: string)
    ensures Normalise(Normalise(s)) == Normalise(s)
  {
    var r := Normalise(s);
    NormaliseIsLowerCase(s);
    NormaliseHasNoCut(s);
    LowerOfLowerCase(r);
  }

  // ---- The table ----

  /** A table: its column names and one map per row from column name to cell. */
  datatype Table = Table(columns: seq<string>, rows: seq<map<string, string>>)

  /** Every row has exactly the table's columns. */
  ghost predicate WellFormed(t: Table)
  {
    forall i :: 0 <= i < |t.rows| ==> t.rows[i].Keys == set c | c in t.columns
  }

  /** The error pandas raises when a named column is missing. */
  datatype PrepError = KeyError(column: string)

  const NameColumn := "Ayurveda_Name"
  const DroppedColumn := "icd11"

  /** Normalising one column of every row; a missing column is a key error. */
  function NormaliseColumn(t: Table, col: string): (r: Result<Table, PrepError>)
    requires WellFormed(t)
    ensures r.Err? <==> col !in t.columns
    ensures r.Err? ==> r.error == KeyError(col)
    ensures r.Ok? ==> r.value.columns == t.columns && |r.value.rows| == |t.rows| && WellFormed(r.value)
    ensures r.Ok? ==> forall i :: 0 <= i < |t.rows| ==>
              r.value.rows[i][col] == Normalise(t.rows[i][col])
              && forall c :: c in t.rows[i] && c != col ==> r.value.rows[i][c] == t.rows[i][c]
  {
    if col !in t.columns then Err(KeyError(col))
    else
      Ok(Table(t.columns, Map(t.rows, (row: map<string, string>) =>
        if col in row then row[col := Normalise(row[col])] else row)))
  }

  /** Dropping a column: every other column and cell is kept; a missing column is a key error. */
  function DropColumn(t: Table, col: string): (r: Result<Table, PrepError>)
    requires WellFormed(t)
    ensures r.Err? <==> col !in t.columns
    ensures r.Err? ==> r.error == KeyError(col)
    ensures r.Ok? ==> r.value.columns == Keep(t.columns, (c: string) => c != col) && WellFormed(r.value)
    ensures r.Ok? ==> |r.value.rows| == |t.rows| && forall i :: 0 <= i < |t.rows| ==>
              r.value.rows[i].Keys == t.rows[i].Keys - {col}
              && forall c :: c in r.value.rows[i] ==> r.value.rows[i][c] == t.rows[i][c]
  {
    if col !in t.columns then Err(KeyError(col))
    else
      Ok(Table(Keep(t.columns, (c: string) => c != col), Map(t.rows, (row: map<string, string>) => row - {col})))
  }

  /** The whole script on a loaded table. */
  function Prepare(t: Table): (r: Result<Table, PrepError>)
    requires WellFormed(t)
    ensures r.Ok? <==> NameColumn in t.columns && DroppedColumn in t.columns
    ensures r.Ok? ==> WellFormed(r.value) && |r.value.rows| == |t.rows|
    ensures r.Ok? ==> DroppedColumn !in r.value.columns && NameColumn in r.value.columns
    ensures r.Ok? ==> r.value.columns == Keep(t.columns, (c: string) => c != DroppedColumn)
    ensures r.Ok? ==> forall i, c :: 0 <= i < |t.rows| && c in t.rows[i] && c != NameColumn && c != DroppedColumn ==>
              c in r.value.rows[i] && r.value.rows[i][c] == t.rows[i][c]
    ensures r.Err? ==> r.error == KeyError(if NameColumn in t.columns then DroppedColumn else NameColumn)
  {
    match NormaliseColumn(t, NameColumn)
    case Err(e) => Err(e)
    case Ok(named) => DropColumn(named, DroppedColumn)
  }

  /** In the prepared table every Ayurveda name is normalised, so normalising again changes nothing. */
  lemma PreparedNamesAreNormal(t: Table, i: nat)
    requires WellFormed(t) && Prepare(t).Ok? && i < |t.rows|
    ensures NameColumn in Prepare(t).value.rows[i]
    ensures Prepare(t).value.rows[i][NameColumn] == Normalise(t.rows[i][NameColumn])
    ensures Normalise(Prepare(t).value.rows[i][NameColumn]) == Prepare(t).value.rows[i][NameColumn]
  {
    NormaliseIdempotent(t.rows[i][NameColumn]);
  }
}
