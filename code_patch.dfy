/** The location-code patch of `transform()`: every row whose
    `city_ibge_code` is missing receives the synthetic identifier of its
    state, written into the table in place. */
module CodePatch {
  import opened Base
  import opened Table
  import opened StateIds

  /** The patch on one row. `Series.map(dict)` yields NaN for a state the
      dictionary lacks, so such a row keeps its missing code. */
  function PatchRow(r: Row, ids: map<string, int>): (p: Row)
    ensures r.cityIbgeCode.Some? ==> p == r
    ensures r.cityIbgeCode.None? && r.state in ids ==> p.cityIbgeCode == Some(ids[r.state])
    ensures p.cityIbgeCode.None? <==> r.cityIbgeCode.None? && r.state !in ids
    ensures p.(cityIbgeCode := r.cityIbgeCode) == r
  {
    if r.cityIbgeCode.Some? then r
    else if r.state in ids then r.(cityIbgeCode := Some(ids[r.state]))
    else r
  }

  /** The table after the patch, row by row. */
  function Patched(rows: seq<Row>, ids: map<string, int>): (p: seq<Row>)
    ensures |p| == |rows|
    ensures forall i :: 0 <= i < |rows| && rows[i].cityIbgeCode.Some? ==> p[i] == rows[i]
    ensures forall i :: 0 <= i < |rows| && rows[i].cityIbgeCode.None? && rows[i].state in ids ==>
      p[i].cityIbgeCode == Some(ids[rows[i].state])
    ensures forall i :: 0 <= i < |rows| ==> p[i].(cityIbgeCode := rows[i].cityIbgeCode) == rows[i]
  {
    seq(|rows|, i requires 0 <= i < |rows| => PatchRow(rows[i], ids))
  }

  /** `df.loc[df['city_ibge_code'].isna(), 'city_ibge_code'] = ...map(ids)`:
      the masked assignment, done in place on the rows of the table. */
  method PatchMissingCodes(table: array<Row>, ids: map<string, int>)
    modifies table
    ensures table[..] == Patched(old(table[..]), ids)
  {
    for i := 0 to table.Length
      invariant forall k :: 0 <= k < i ==> table[k] == PatchRow(old(table[k]), ids)
      invariant forall k :: i <= k < table.Length ==> table[k] == old(table[k])
    {
      if table[i].cityIbgeCode.None? && table[i].state in ids {
        table[i] := table[i].(cityIbgeCode := Some(ids[table[i].state]));
      }
    }
  }

  /** Patching a patched table changes nothing. */
  lemma PatchedIdempotent(rows: seq<Row>, ids: map<string, int>)
    ensures Patched(Patched(rows, ids), ids) == Patched(rows, ids)
  {
    var once := Patched(rows, ids);
    forall i | 0 <= i < |rows| ensures PatchRow(once[i], ids) == once[i] {
      assert once[i] == PatchRow(rows[i], ids);
    }
  }

  /** With the identifiers built from the table's own state column, no row
      is left without a location code, and the patch changes only the
      rows whose code was missing. */
  lemma PatchWithOwnStateIds(rows: seq<Row>)
    ensures forall i :: 0 <= i < |rows| ==>
      Patched(rows, StateIdMap(States(rows)))[i].cityIbgeCode.Some?
    ensures forall i :: 0 <= i < |rows| && rows[i].cityIbgeCode.None? ==>
      Patched(rows, StateIdMap(States(rows)))[i].cityIbgeCode ==
        Some(StateIdMap(States(rows))[rows[i].state])
    ensures forall i :: 0 <= i < |rows| && rows[i].cityIbgeCode.Some? ==>
      Patched(rows, StateIdMap(States(rows)))[i] == rows[i]
  {
    var states := States(rows);
    var ids := StateIdMap(states);
    StateIdMapShape(states);
    forall i | 0 <= i < |rows| ensures rows[i].state in ids {
      assert states[i] == rows[i].state;
    }
  }
}
