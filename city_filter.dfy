/** The first step of `transform()`: keep only city-level rows, dropping
    the state- and country-level aggregates. */
module CityFilter {
  import opened Table

  const CityPlace := "city"

  /** `df.loc[df['place_type'] == 'city']`. */
  function FilterCities(rows: seq<Row>): (kept: seq<Row>)
    ensures |kept| <= |rows|
    ensures forall r :: r in kept <==> r in rows && r.placeType == CityPlace
  {
    if rows == [] then []
    else if rows[0].placeType == CityPlace then [rows[0]] + FilterCities(rows[1..])
    else FilterCities(rows[1..])
  }

  /** Filtering a concatenation filters each part, so the kept rows stay
      in their input order. */
  lemma {:induction false} FilterCitiesAppend(a: seq<Row>, b: seq<Row>)
    ensures FilterCities(a + b) == FilterCities(a) + FilterCities(b)
  {
    if a != [] {
      assert (a + b)[1..] == a[1..] + b;
      FilterCitiesAppend(a[1..], b);
    } else {
      assert a + b == b;
    }
  }

  /** Every city row is kept as often as it occurs; no other row is. */
  lemma {:induction false} FilterCitiesCounts(rows: seq<Row>, r: Row)
    ensures multiset(FilterCities(rows))[r] ==
      if r.placeType == CityPlace then multiset(rows)[r] else 0
  {
    if rows != [] {
      assert rows == [rows[0]] + rows[1..];
      FilterCitiesCounts(rows[1..], r);
    }
  }

  /** Filtering twice changes nothing. */
  lemma {:induction false} FilterCitiesIdempotent(rows: seq<Row>)
    ensures FilterCities(FilterCities(rows)) == FilterCities(rows)
  {
    if rows != [] {
      FilterCitiesIdempotent(rows[1..]);
      if rows[0].placeType == CityPlace {
        var kept := FilterCities(rows);
        assert kept[0] == rows[0] && kept[1..] == FilterCities(rows[1..]);
      }
    }
  }
}
