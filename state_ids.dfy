/** The synthetic state identifiers of `transform()`: each distinct state
    of the city rows gets a zero-based number, in order of first
    appearance (`drop_duplicates().reset_index(drop = True)` followed by
    `pd.Series(index, index = values).to_dict()`). */
module StateIds {
  import opened Base
  import opened Table

  /** The `state` column. */
  function States(rows: seq<Row>): seq<string> {
    seq(|rows|, i requires 0 <= i < |rows| => rows[i].state)
  }

  /** `drop_duplicates()`: every distinct value once, at the place of its
      first occurrence. */
  function DropDuplicates(s: seq<string>): (d: seq<string>)
    ensures NoDuplicates(d)
    ensures forall x :: x in d <==> x in s
    ensures |d| <= |s|
    decreases |s|
  {
    if s == [] then []
    else
      var d := DropDuplicates(s[..|s| - 1]);
      if s[|s| - 1] in d then d else d + [s[|s| - 1]]
  }

  /** The position of the first occurrence of `x` in `s`. */
  function FirstIndex(s: seq<string>, x: string): (i: nat)
    requires x in s
    ensures i < |s| && s[i] == x
    ensures forall j :: 0 <= j < i ==> s[j] != x
  {
    if s[0] == x then 0 else 1 + FirstIndex(s[1..], x)
  }

  /** `pd.Series(d.index, index = d.values).to_dict()` after
      `reset_index(drop = True)`: each value of `d` maps to its position. */
  function PositionMap(d: seq<string>): (m: map<string, int>)
    requires NoDuplicates(d)
    ensures m.Keys == set x | x in d
    ensures forall i :: 0 <= i < |d| ==> m[d[i]] == i
  {
    map i | 0 <= i < |d| :: d[i] := i
  }

  /** The state-to-identifier dictionary built from the state column. */
  function StateIdMap(states: seq<string>): (m: map<string, int>)
    ensures m.Keys == set x | x in states
    ensures forall x :: x in m ==> 0 <= m[x] < |DropDuplicates(states)|
  {
    PositionMap(DropDuplicates(states))
  }

  lemma {:induction false} FirstIndexPrefix(s: seq<string>, t: seq<string>, x: string)
    requires x in s
    ensures x in s + t && FirstIndex(s + t, x) == FirstIndex(s, x)
  {
    if s[0] != x {
      assert (s + t)[1..] == s[1..] + t;
      FirstIndexPrefix(s[1..], t, x);
    }
  }

  /** `drop_duplicates()` lists the distinct values in order of first
      appearance. */
  lemma {:induction false} DropDuplicatesFirstOrder(s: seq<string>)
    ensures forall i, j :: 0 <= i < j < |DropDuplicates(s)| ==>
      FirstIndex(s, DropDuplicates(s)[i]) < FirstIndex(s, DropDuplicates(s)[j])
  {
    if s != [] {
      var n := |s|;
      var p := s[..n - 1];
      assert s == p + [s[n - 1]];
      DropDuplicatesFirstOrder(p);
      var dp := DropDuplicates(p);
      forall x | x in p ensures FirstIndex(s, x) == FirstIndex(p, x) {
        FirstIndexPrefix(p, [s[n - 1]], x);
      }
      if s[n - 1] !in dp {
        assert s[n - 1] !in p;
        assert FirstIndex(s, s[n - 1]) == n - 1;
      }
    }
  }

  /** The distinct values of a prefix are a prefix of the distinct values. */
  lemma {:induction false} DropDuplicatesPrefix(s: seq<string>, k: nat)
    requires k <= |s|
    ensures DropDuplicates(s[..k]) <= DropDuplicates(s)
    decreases |s| - k
  {
    if k < |s| {
      var p := s[..|s| - 1];
      assert p[..k] == s[..k];
      DropDuplicatesPrefix(p, k);
    } else {
      assert s[..k] == s;
    }
  }

  /** A value stands in the distinct values right after those of the
      prefix before its first occurrence. */
  lemma {:induction false} DropDuplicatesAtFirstIndex(states: seq<string>, x: string)
    requires x in states
    ensures |DropDuplicates(states[..FirstIndex(states, x)])| < |DropDuplicates(states)|
    ensures DropDuplicates(states)[|DropDuplicates(states[..FirstIndex(states, x)])|] == x
  {
    var f := FirstIndex(states, x);
    var before := DropDuplicates(states[..f]);
    var p := states[..f + 1];
    assert p[..|p| - 1] == states[..f] && p[|p| - 1] == x;
    assert x !in states[..f];
    assert DropDuplicates(p) == before + [x];
    DropDuplicatesPrefix(states, f + 1);
  }

  /** The identifier of a state is the number of distinct states seen
      before its first appearance; the first state gets 0. */
  lemma StateIdCountsEarlier(states: seq<string>, x: string)
    requires x in states
    ensures x in StateIdMap(states)
    ensures StateIdMap(states)[x] == |DropDuplicates(states[..FirstIndex(states, x)])|
    ensures x == states[0] ==> StateIdMap(states)[x] == 0
  {
    var k := |DropDuplicates(states[..FirstIndex(states, x)])|;
    DropDuplicatesAtFirstIndex(states, x);
    var d := DropDuplicates(states);
    assert PositionMap(d)[d[k]] == k;
    if x == states[0] {
      assert states[..0] == [];
    }
  }

  /** The dictionary's keys are exactly the distinct states, its values
      exactly 0 up to their number minus one, and no two states share an
      identifier. */
  lemma StateIdMapShape(states: seq<string>)
    ensures StateIdMap(states).Keys == set x | x in states
    ensures forall v :: v in StateIdMap(states).Values <==> 0 <= v < |DropDuplicates(states)|
    ensures forall a, b :: a in StateIdMap(states) && b in StateIdMap(states) && a != b ==>
      StateIdMap(states)[a] != StateIdMap(states)[b]
  {
    var d := DropDuplicates(states);
    var m := StateIdMap(states);
    forall v | v in m.Values ensures 0 <= v < |d| {
      var x :| x in m && m[x] == v;
      var i :| 0 <= i < |d| && d[i] == x;
    }
    forall v | 0 <= v < |d| ensures v in m.Values {
      assert m[d[v]] == v;
    }
    forall a, b | a in m && b in m && a != b ensures m[a] != m[b] {
      var i :| 0 <= i < |d| && d[i] == a;
      var j :| 0 <= j < |d| && d[j] == b;
    }
  }

  /** State `a` gets a smaller identifier than state `b` exactly when `a`
      first appears before `b`. */
  lemma StateIdOrder(states: seq<string>, a: string, b: string)
    requires a in states && b in states
    ensures a in StateIdMap(states) && b in StateIdMap(states)
    ensures StateIdMap(states)[a] < StateIdMap(states)[b] <==>
      FirstIndex(states, a) < FirstIndex(states, b)
  {
    var d := DropDuplicates(states);
    DropDuplicatesFirstOrder(states);
    var i :| 0 <= i < |d| && d[i] == a;
    var j :| 0 <= j < |d| && d[j] == b;
    if i < j {
      assert FirstIndex(states, d[i]) < FirstIndex(states, d[j]);
    } else if j < i {
      assert FirstIndex(states, d[j]) < FirstIndex(states, d[i]);
    }
  }
}
