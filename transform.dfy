/** `transform()` of data.py without its input and output: pick the newest
    raw snapshot, keep the city rows, patch missing location codes with
    synthetic state identifiers, keep and rename eight columns, and name
    the trusted file after the time of writing. */
module Transform {
  import opened Base
  import opened Table
  import opened CityFilter
  import opened StateIds
  import opened CodePatch
  import opened LatestFile
  import opened FileNames

  /** The trusted file the run writes: its path and its table. */
  datatype Output = Output(path: string, table: Frame)

  /** The table steps of `transform()`, from the raw rows of one snapshot
      to the renamed eight-column table. The selection of the source
      columns cannot raise here, since every row carries them
      (`SelectSourceColumns`). */
  function TrustedTable(raw: seq<Row>): (t: Frame)
    ensures t.columns == TargetColumns
    ensures |t.rows| == |FilterCities(raw)|
  {
    var cities := FilterCities(raw);
    var patched := Patched(cities, StateIdMap(States(cities)));
    SelectSourceColumns(patched);
    SourceRenamesToTarget();
    RenameFrame(Select(patched, SourceColumns).value, RenamePairs)
  }

  /** The run of `transform()`. The listing of the raw directory with the
      ctimes, the reading of a snapshot (`read`) and the time of
      writing (`now`) are given; a failing `max()` is returned as the
      exception it raises. The selection of the eight source columns
      cannot fail on rows that carry them (`SelectSourceColumns`). */
  method Transform(files: seq<RawFile>, read: string -> seq<Row>, now: DateTime)
    returns (r: Result<Output, Error>)
    requires ValidDateTime(now)
    ensures files == [] <==> r.Err?
    ensures r.Err? ==> r.error == EmptyArgument
    ensures r.Ok? ==> r.value.path == TrustedDir + TrustedFileName(now)
    ensures r.Ok? ==> r.value.table == TrustedTable(read(RawPath(Latest(files).value)))
    ensures r.Ok? ==> r.value.table.columns == TargetColumns
  {
    var latest :- Latest(files);
    var raw := read(RawPath(latest));
    var cities := FilterCities(raw);
    var ids := StateIdMap(States(cities));
    var table := new Row[|cities|](i requires 0 <= i < |cities| => cities[i]);
    assert table[..] == cities;
    PatchMissingCodes(table, ids);
    SelectSourceColumns(table[..]);
    var selected := Select(table[..], SourceColumns).value;
    SourceRenamesToTarget();
    r := Ok(Output(TrustedDir + TrustedFileName(now), RenameFrame(selected, RenamePairs)));
  }

  /** Each row of the trusted table is the kept part of a patched city row. */
  lemma TrustedTableRows(raw: seq<Row>)
    ensures forall i :: 0 <= i < |FilterCities(raw)| ==>
      TrustedTable(raw).rows[i] ==
        Kept(PatchRow(FilterCities(raw)[i], StateIdMap(States(FilterCities(raw)))))
  {
    var cities := FilterCities(raw);
    var patched := Patched(cities, StateIdMap(States(cities)));
    SelectSourceColumns(patched);
  }

  /** The kept cells of a patched row: the code cell is the row's code or,
      when missing, its state's identifier; the other seven are copied. */
  lemma KeptPatchedRow(r: Row, ids: map<string, int>)
    requires r.state in ids
    ensures |Kept(PatchRow(r, ids))| == 8
    ensures Kept(PatchRow(r, ids))[1..] == Kept(r)[1..]
    ensures Kept(PatchRow(r, ids))[0] ==
      if r.cityIbgeCode.Some? then Num(r.cityIbgeCode) else Num(Some(ids[r.state]))
  {
  }

  /** What the trusted table holds: the eight target columns, one row per
      city row of the snapshot in snapshot order, every kept cell copied
      from its row except a missing location code, which becomes the
      identifier of the row's state; so no location code is missing. */
  lemma TrustedTableContents(raw: seq<Row>)
    ensures TrustedTable(raw).columns == TargetColumns
    ensures |TrustedTable(raw).rows| == |FilterCities(raw)|
    ensures forall i :: 0 <= i < |FilterCities(raw)| ==>
      |TrustedTable(raw).rows[i]| == 8 &&
      TrustedTable(raw).rows[i][1..] == Kept(FilterCities(raw)[i])[1..]
    ensures forall i :: 0 <= i < |FilterCities(raw)| && FilterCities(raw)[i].cityIbgeCode.Some? ==>
      TrustedTable(raw).rows[i][0] == Num(FilterCities(raw)[i].cityIbgeCode)
    ensures forall i :: 0 <= i < |FilterCities(raw)| && FilterCities(raw)[i].cityIbgeCode.None? ==>
      FilterCities(raw)[i].state in StateIdMap(States(FilterCities(raw))) &&
      TrustedTable(raw).rows[i][0] ==
        Num(Some(StateIdMap(States(FilterCities(raw)))[FilterCities(raw)[i].state]))
    ensures forall i :: 0 <= i < |FilterCities(raw)| ==>
      TrustedTable(raw).rows[i][0].Num? && TrustedTable(raw).rows[i][0].n.Some?
  {
    var cities := FilterCities(raw);
    var states := States(cities);
    var ids := StateIdMap(states);
    var t := TrustedTable(raw);
    TrustedTableRows(raw);
    forall i | 0 <= i < |cities|
      ensures |t.rows[i]| == 8 && t.rows[i][1..] == Kept(cities[i])[1..]
      ensures cities[i].state in ids
      ensures t.rows[i][0] ==
        if cities[i].cityIbgeCode.Some? then Num(cities[i].cityIbgeCode) else Num(Some(ids[cities[i].state]))
    {
      assert states[i] == cities[i].state;
      KeptPatchedRow(cities[i], ids);
    }
  }

  /** A city row without a location code and a state-level row of the same
      state: only the city row is kept, and it gets identifier 0, the
      identifier of the first state seen. */
  lemma SingleCityScenario(city: Row, aggregate: Row)
    requires city.placeType == "city" && city.state == "SP" && city.cityIbgeCode.None?
    requires aggregate.placeType == "state" && aggregate.state == "SP"
    ensures |TrustedTable([city, aggregate]).rows| == 1
    ensures TrustedTable([city, aggregate]).rows[0][0] == Num(Some(0))
    ensures TrustedTable([city, aggregate]).rows[0][1..] == Kept(city)[1..]
  {
    assert FilterCities([aggregate]) == [];
    assert FilterCities([city, aggregate]) == [city];
    TrustedTableContents([city, aggregate]);
    StateIdCountsEarlier(States([city]), "SP");
  }
}
