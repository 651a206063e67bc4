/** The DataFrame the extractor fills: one row per retained filing, addressed
    by position, and its finalisation (lines 300-308 of the source). */
module Table {
  import opened Results

  /** One DataFrame row: the cells that hold a value (a cell never written is
      NaN, and absent here) and the `'Required Data Point?'` flag, unset
      (NaN) until the row is committed. */
  datatype Row = Row(cells: map<string, string>, flag: Option<string>)

  const FlagColumn := "Required Data Point?"
  const Yes := "yes"

  predicate Flagged(r: Row)
  {
    r.flag == Some(Yes)
  }

  /** The positions, from `from` on, of the rows flagged `'yes'`, in
      ascending order. */
  function FlaggedPositions(rows: seq<Row>, from: nat): (ps: seq<nat>)
    requires from <= |rows|
    ensures forall i :: 0 <= i < |ps| ==> from <= ps[i] < |rows|
    decreases |rows| - from
  {
    if from == |rows| then []
    else if Flagged(rows[from]) then [from] + FlaggedPositions(rows, from + 1)
    else FlaggedPositions(rows, from + 1)
  }

  /** Every listed position holds a flagged row. */
  lemma {:induction false} FlaggedPositionsFlagged(rows: seq<Row>, from: nat)
    requires from <= |rows|
    ensures forall i :: 0 <= i < |FlaggedPositions(rows, from)| ==> Flagged(rows[FlaggedPositions(rows, from)[i]])
    decreases |rows| - from
  {
    if from < |rows| {
      FlaggedPositionsFlagged(rows, from + 1);
      var rest := FlaggedPositions(rows, from + 1);
      if Flagged(rows[from]) {
        var ps := [from] + rest;
        assert FlaggedPositions(rows, from) == ps;
        forall i | 1 <= i < |ps|
          ensures Flagged(rows[ps[i]])
        {
          assert ps[i] == rest[i - 1];
        }
      }
    }
  }

  /** The positions are listed in ascending order, each once. */
  lemma {:induction false} FlaggedPositionsAscending(rows: seq<Row>, from: nat)
    requires from <= |rows|
    ensures Ascending(FlaggedPositions(rows, from))
    decreases |rows| - from
  {
    if from < |rows| {
      FlaggedPositionsAscending(rows, from + 1);
      var rest := FlaggedPositions(rows, from + 1);
      if Flagged(rows[from]) {
        var ps := [from] + rest;
        assert FlaggedPositions(rows, from) == ps;
        forall i, j | 0 <= i < j < |ps|
          ensures ps[i] < ps[j]
        {
          assert ps[j] == rest[j - 1];
          if i > 0 {
            assert ps[i] == rest[i - 1];
          }
        }
      }
    }
  }

  /** Every flagged row from `from` on is listed. */
  lemma {:induction false} FlaggedPositionsComplete(rows: seq<Row>, from: nat)
    requires from <= |rows|
    ensures forall k :: from <= k < |rows| && Flagged(rows[k]) ==> k in FlaggedPositions(rows, from)
    decreases |rows| - from
  {
    if from < |rows| {
      FlaggedPositionsComplete(rows, from + 1);
      var rest := FlaggedPositions(rows, from + 1);
      if Flagged(rows[from]) {
        assert FlaggedPositions(rows, from) == [from] + rest;
      }
    }
  }

  predicate Ascending(ps: seq<nat>)
  {
    forall i, j :: 0 <= i < j < |ps| ==> ps[i] < ps[j]
  }

  function FinalizeFrom(rows: seq<Row>, from: nat): (table: seq<map<string, string>>)
    requires from <= |rows|
    ensures |table| <= |rows| - from
    decreases |rows| - from
  {
    if from == |rows| then []
    else (if Flagged(rows[from]) then [rows[from].cells] else []) + FinalizeFrom(rows, from + 1)
  }

  /** Keep the rows flagged `'yes'`, drop the flag column and renumber the
      rows from 0: the result's positions are the new index. */
  function Finalize(rows: seq<Row>): seq<map<string, string>>
  {
    FinalizeFrom(rows, 0)
  }

  /** The finalised table holds exactly the flagged rows' cells, in their
      original relative order: entry `i` is the row at the `i`-th flagged
      position. */
  lemma FinalizeSelects(rows: seq<Row>)
    ensures var ps := FlaggedPositions(rows, 0);
      |Finalize(rows)| == |ps| && forall i :: 0 <= i < |ps| ==> Finalize(rows)[i] == rows[ps[i]].cells
  {
    FinalizeFromSelects(rows, 0);
  }

  lemma {:induction false} FinalizeFromSelects(rows: seq<Row>, from: nat)
    requires from <= |rows|
    ensures var ps := FlaggedPositions(rows, from);
      |FinalizeFrom(rows, from)| == |ps|
      && forall i :: 0 <= i < |ps| ==> FinalizeFrom(rows, from)[i] == rows[ps[i]].cells
    decreases |rows| - from
  {
    if from < |rows| {
      FinalizeFromSelects(rows, from + 1);
      var rest := FinalizeFrom(rows, from + 1);
      var ps' := FlaggedPositions(rows, from + 1);
      if Flagged(rows[from]) {
        var t := [rows[from].cells] + rest;
        var ps := [from] + ps';
        assert FinalizeFrom(rows, from) == t;
        assert FlaggedPositions(rows, from) == ps;
        forall i | 0 <= i < |ps|
          ensures t[i] == rows[ps[i]].cells
        {
          if i > 0 {
            assert t[i] == rest[i - 1] && ps[i] == ps'[i - 1];
          }
        }
      } else {
        assert FinalizeFrom(rows, from) == [] + rest;
        assert [] + rest == rest;
      }
    }
  }
}
