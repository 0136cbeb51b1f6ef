/** The case table handled by `transform()` in data.py: the raw rows, the
    cells pandas hands out by column name, column selection (`df[cols]`)
    and column renaming (`df.rename(columns = ...)`). */
module Table {
  import opened Base

  /** One row of the raw case table, restricted to the nine columns the
      transform reads. Nullable cells are `Option`s. */
  datatype Row = Row(
    placeType: string,
    state: string,
    city: string,
    cityIbgeCode: Option<int>,
    date: string,
    estimatedPopulation: Option<int>,
    orderForPlace: Option<int>,
    newConfirmed: Option<int>,
    newDeaths: Option<int>)

  /** A cell: a nullable number or a text. */
  datatype Value = Num(n: Option<int>) | Text(s: string)

  /** A table with named columns; every row holds one cell per column. */
  datatype Frame = Frame(columns: seq<string>, rows: seq<seq<Value>>)

  /** The exceptions the transform can raise: `max()` of an empty sequence
      (ValueError) and a selection naming unknown columns (KeyError). */
  datatype Error = EmptyArgument | KeyError(missing: seq<string>)

  /** The columns of the raw table that the model knows. */
  const RawColumns: seq<string> :=
    ["place_type", "state", "city", "city_ibge_code", "date",
     "estimated_population", "order_for_place", "new_confirmed", "new_deaths"]

  /** The columns kept by the transform, in the order it selects them. */
  const SourceColumns: seq<string> :=
    ["city_ibge_code", "date", "city", "state",
     "estimated_population", "order_for_place", "new_confirmed", "new_deaths"]

  /** The rename dictionary, as its literal lists it. */
  const RenamePairs: seq<(string, string)> :=
    [("city_ibge_code", "ID_LOCAL"),
     ("date", "DT_REGISTRO"),
     ("city", "NM_CIDADE"),
     ("state", "NM_ESTADO"),
     ("estimated_population", "VL_POPULACAO_ESTIMADA"),
     ("order_for_place", "COD_SEQUENCIA_POR_LOCAL"),
     ("new_confirmed", "VL_CONFIRMADOS"),
     ("new_deaths", "VL_MORTOS")]

  /** The schema of the trusted table. */
  const TargetColumns: seq<string> :=
    ["ID_LOCAL", "DT_REGISTRO", "NM_CIDADE", "NM_ESTADO",
     "VL_POPULACAO_ESTIMADA", "COD_SEQUENCIA_POR_LOCAL", "VL_CONFIRMADOS", "VL_MORTOS"]

  /** The cell of `r` in the named column; `None` when there is no such column. */
  function Cell(r: Row, column: string): (v: Option<Value>)
    ensures v.Some? <==> column in RawColumns
  {
    if column == "place_type" then Some(Text(r.placeType))
    else if column == "state" then Some(Text(r.state))
    else if column == "city" then Some(Text(r.city))
    else if column == "city_ibge_code" then Some(Num(r.cityIbgeCode))
    else if column == "date" then Some(Text(r.date))
    else if column == "estimated_population" then Some(Num(r.estimatedPopulation))
    else if column == "order_for_place" then Some(Num(r.orderForPlace))
    else if column == "new_confirmed" then Some(Num(r.newConfirmed))
    else if column == "new_deaths" then Some(Num(r.newDeaths))
    else None
  }

  /** The requested columns that the table does not have, in request order. */
  function Missing(cols: seq<string>): (m: seq<string>)
    ensures forall c :: c in m <==> c in cols && c !in RawColumns
  {
    if cols == [] then []
    else if cols[0] in RawColumns then Missing(cols[1..])
    else [cols[0]] + Missing(cols[1..])
  }

  /** The cells of `r` in the columns `cols`, in that order. */
  function Project(r: Row, cols: seq<string>): seq<Value>
    requires forall c :: c in cols ==> c in RawColumns
  {
    seq(|cols|, j requires 0 <= j < |cols| => Cell(r, cols[j]).value)
  }

  /** `df[cols]`: the table restricted to `cols`, in that order, or a
      KeyError naming every requested column the table lacks. */
  function Select(rows: seq<Row>, cols: seq<string>): (r: Result<Frame, Error>)
    ensures r.Err? <==> exists c :: c in cols && c !in RawColumns
    ensures r.Err? ==> r.error == KeyError(Missing(cols))
    ensures r.Ok? ==> r.value.columns == cols && |r.value.rows| == |rows|
    ensures r.Ok? ==> forall i :: 0 <= i < |rows| ==> |r.value.rows[i]| == |cols|
    ensures r.Ok? ==> forall i, j :: 0 <= i < |rows| && 0 <= j < |cols| ==>
      Cell(rows[i], cols[j]) == Some(r.value.rows[i][j])
  {
    var missing := Missing(cols);
    if missing != [] then
      assert missing[0] in cols && missing[0] !in RawColumns;
      Err(KeyError(missing))
    else
      Ok(Frame(cols, seq(|rows|, i requires 0 <= i < |rows| => Project(rows[i], cols))))
  }

  /** The new name of `key` in a dictionary given by its pairs. This takes
      the first pair with that key, whereas a Python dict literal with a
      repeated key keeps the last one; the two agree on dictionaries whose
      keys are distinct, as the transform's is (`RenamePairsOneToOne`). */
  function Lookup(pairs: seq<(string, string)>, key: string): (r: Option<string>)
    ensures r.Some? ==> (key, r.value) in pairs
    ensures r.None? <==> forall p :: p in pairs ==> p.0 != key
  {
    if pairs == [] then None
    else if pairs[0].0 == key then Some(pairs[0].1)
    else Lookup(pairs[1..], key)
  }

  /** A column keeps its name unless the dictionary renames it. */
  function RenameColumn(pairs: seq<(string, string)>, column: string): string {
    match Lookup(pairs, column)
    case Some(name) => name
    case None => column
  }

  /** The renamed column list: a column the dictionary knows takes the
      new name of one of its pairs, any other column keeps its name. */
  function RenameColumns(pairs: seq<(string, string)>, cols: seq<string>): (r: seq<string>)
    ensures |r| == |cols|
    ensures forall i :: 0 <= i < |cols| && Lookup(pairs, cols[i]).None? ==> r[i] == cols[i]
    ensures forall i :: 0 <= i < |cols| && Lookup(pairs, cols[i]).Some? ==> (cols[i], r[i]) in pairs
  {
    seq(|cols|, i requires 0 <= i < |cols| => RenameColumn(pairs, cols[i]))
  }

  /** `df.rename(columns = ...)`: new column names, the same cells. */
  function RenameFrame(f: Frame, pairs: seq<(string, string)>): (r: Frame)
    ensures r.rows == f.rows
    ensures |r.columns| == |f.columns|
    ensures forall i :: 0 <= i < |f.columns| && Lookup(pairs, f.columns[i]).None? ==>
      r.columns[i] == f.columns[i]
    ensures forall i :: 0 <= i < |f.columns| && Lookup(pairs, f.columns[i]).Some? ==>
      (f.columns[i], r.columns[i]) in pairs
  {
    Frame(RenameColumns(pairs, f.columns), f.rows)
  }

  /** The dictionary read backwards. */
  function Swapped(pairs: seq<(string, string)>): (r: seq<(string, string)>)
    ensures |r| == |pairs|
  {
    seq(|pairs|, i requires 0 <= i < |pairs| => (pairs[i].1, pairs[i].0))
  }

  /** Neither an old name nor a new name appears twice. */
  predicate OneToOne(pairs: seq<(string, string)>) {
    forall i, j :: 0 <= i < j < |pairs| ==>
      pairs[i].0 != pairs[j].0 && pairs[i].1 != pairs[j].1
  }

  lemma {:induction false} LookupAt(pairs: seq<(string, string)>, k: nat)
    requires OneToOne(pairs) && k < |pairs|
    ensures Lookup(pairs, pairs[k].0) == Some(pairs[k].1)
  {
    if k > 0 {
      assert pairs[0].0 != pairs[k].0;
      assert pairs[1..][k - 1] == pairs[k];
      LookupAt(pairs[1..], k - 1);
    }
  }

  /** Renaming by a one-to-one dictionary is undone by renaming with the
      swapped dictionary, so no two columns are renamed to the same name. */
  lemma RenameRoundTrip(pairs: seq<(string, string)>, cols: seq<string>)
    requires OneToOne(pairs)
    requires forall c :: c in cols ==> Lookup(pairs, c).Some?
    ensures RenameColumns(Swapped(pairs), RenameColumns(pairs, cols)) == cols
  {
    var back := Swapped(pairs);
    assert OneToOne(back);
    forall i | 0 <= i < |cols|
      ensures RenameColumn(back, RenameColumn(pairs, cols[i])) == cols[i]
    {
      var v := Lookup(pairs, cols[i]).value;
      var k :| 0 <= k < |pairs| && pairs[k] == (cols[i], v);
      LookupAt(back, k);
    }
  }

  /** Renaming by a one-to-one dictionary keeps distinct columns distinct. */
  lemma RenameKeepsDistinct(pairs: seq<(string, string)>, cols: seq<string>)
    requires OneToOne(pairs) && NoDuplicates(cols)
    requires forall c :: c in cols ==> Lookup(pairs, c).Some?
    ensures NoDuplicates(RenameColumns(pairs, cols))
  {
    var renamed := RenameColumns(pairs, cols);
    RenameRoundTrip(pairs, cols);
    forall i, j | 0 <= i < j < |renamed| ensures renamed[i] != renamed[j] {
      var back := RenameColumns(Swapped(pairs), renamed);
      assert back[i] == cols[i] && back[j] == cols[j];
    }
  }

  /** The rename dictionary of the transform is one to one. */
  lemma RenamePairsOneToOne()
    ensures OneToOne(RenamePairs)
  {
  }

  lemma ColumnsArePairs()
    ensures |SourceColumns| == |TargetColumns| == |RenamePairs| == 8
    ensures forall i :: 0 <= i < 8 ==>
      SourceColumns[i] == RenamePairs[i].0 && TargetColumns[i] == RenamePairs[i].1
  {
  }

  /** The eight selected source columns are renamed, one to one and in
      order, to the eight columns of the trusted schema. */
  lemma SourceRenamesToTarget()
    ensures OneToOne(RenamePairs)
    ensures RenameColumns(RenamePairs, SourceColumns) == TargetColumns
    ensures |TargetColumns| == 8 && NoDuplicates(TargetColumns)
  {
    RenamePairsOneToOne();
    ColumnsArePairs();
    var renamed := RenameColumns(RenamePairs, SourceColumns);
    forall i | 0 <= i < 8 ensures renamed[i] == TargetColumns[i] {
      LookupAt(RenamePairs, i);
    }
  }

  /** The eight-cell record the transform keeps of a raw row. */
  function Kept(r: Row): seq<Value> {
    [Num(r.cityIbgeCode), Text(r.date), Text(r.city), Text(r.state),
     Num(r.estimatedPopulation), Num(r.orderForPlace), Num(r.newConfirmed), Num(r.newDeaths)]
  }

  lemma {:induction false} CellOfSourceColumn(r: Row, j: nat)
    requires j < 8
    ensures Cell(r, SourceColumns[j]) == Some(Kept(r)[j])
  {
    if j == 0 { assert SourceColumns[j] == "city_ibge_code"; }
    else if j == 1 { assert SourceColumns[j] == "date"; }
    else if j == 2 { assert SourceColumns[j] == "city"; }
    else if j == 3 { assert SourceColumns[j] == "state"; }
    else if j == 4 { assert SourceColumns[j] == "estimated_population"; }
    else if j == 5 { assert SourceColumns[j] == "order_for_place"; }
    else if j == 6 { assert SourceColumns[j] == "new_confirmed"; }
    else { assert SourceColumns[j] == "new_deaths"; }
  }

  lemma SourceColumnsKnown()
    ensures forall c :: c in SourceColumns ==> c in RawColumns
  {
    forall c | c in SourceColumns ensures c in RawColumns {
      var j :| 0 <= j < 8 && SourceColumns[j] == c;
      CellOfSourceColumn(Row("", "", "", None, "", None, None, None, None), j);
    }
  }

  /** The eight source cells of a row are the cells of `Kept`. */
  lemma ProjectSourceColumns(r: Row)
    requires forall c :: c in SourceColumns ==> c in RawColumns
    ensures Project(r, SourceColumns) == Kept(r)
  {
    forall j | 0 <= j < 8 ensures Project(r, SourceColumns)[j] == Kept(r)[j] {
      CellOfSourceColumn(r, j);
    }
  }

  /** Selecting known columns yields the rows' projections. */
  lemma SelectKnownColumns(rows: seq<Row>, cols: seq<string>, projected: seq<seq<Value>>)
    requires forall c :: c in cols ==> c in RawColumns
    requires |projected| == |rows|
    requires forall i :: 0 <= i < |rows| ==> projected[i] == Project(rows[i], cols)
    ensures Select(rows, cols) == Ok(Frame(cols, projected))
  {
    var selected := seq(|rows|, i requires 0 <= i < |rows| => Project(rows[i], cols));
    assert selected == projected;
  }

  /** Selecting the source columns never fails, keeps every row in place
      and keeps exactly the eight cells of `Kept`, in that order. */
  lemma SelectSourceColumns(rows: seq<Row>)
    ensures Select(rows, SourceColumns).Ok?
    ensures Select(rows, SourceColumns).value ==
      Frame(SourceColumns, seq(|rows|, i requires 0 <= i < |rows| => Kept(rows[i])))
  {
    SourceColumnsKnown();
    var expected := seq(|rows|, i requires 0 <= i < |rows| => Kept(rows[i]));
    forall i | 0 <= i < |rows| ensures expected[i] == Project(rows[i], SourceColumns) {
      ProjectSourceColumns(rows[i]);
    }
    SelectKnownColumns(rows, SourceColumns, expected);
  }
}
