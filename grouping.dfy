/** The cursor loops of the schema comparer read catalog rows sorted so that the
    rows of one object are adjacent, and start a new object at each row that
    opens one (column number 0, key sequence 1). This module states which rows
    end up together: the runs of a row stream, each running from a row that
    opens an object up to the next such row. */
module Grouping {

  /** The runs of `rows`: a new run starts at every row for which `start`
      holds; rows before the first such row form a run of their own. */
  function Groups<R>(rows: seq<R>, start: R -> bool): (gs: seq<seq<R>>)
    ensures |gs| <= |rows| && (gs == [] <==> rows == [])
    ensures forall i :: 0 <= i < |gs| ==> gs[i] != []
    decreases |rows|
  {
    if rows == [] then []
    else
      var gs := Groups(rows[..|rows| - 1], start);
      var r := rows[|rows| - 1];
      if start(r) || gs == [] then gs + [[r]]
      else gs[..|gs| - 1] + [gs[|gs| - 1] + [r]]
  }

  /** The runs put back together. */
  function Flatten<R>(gs: seq<seq<R>>): seq<R>
  {
    if gs == [] then [] else Flatten(gs[..|gs| - 1]) + gs[|gs| - 1]
  }

  /** Put back together, the runs are the rows. */
  lemma {:induction false} GroupsFlatten<R>(rows: seq<R>, start: R -> bool)
    ensures Flatten(Groups(rows, start)) == rows
    decreases |rows|
  {
    if rows != [] {
      var init := rows[..|rows| - 1];
      var gs := Groups(init, start);
      var r := rows[|rows| - 1];
      GroupsFlatten(init, start);
      assert rows == init + [r];
      if start(r) || gs == [] {
        assert (gs + [[r]])[..|gs|] == gs;
        assert Flatten(gs + [[r]]) == Flatten(gs) + [r];
      } else {
        var last := gs[|gs| - 1];
        var gs' := gs[..|gs| - 1] + [last + [r]];
        assert gs'[..|gs'| - 1] == gs[..|gs| - 1];
        assert Flatten(gs) == Flatten(gs[..|gs| - 1]) + last;
        assert Flatten(gs') == Flatten(gs[..|gs| - 1]) + (last + [r]);
        assert Flatten(gs') == Flatten(gs) + [r];
        assert Groups(rows, start) == gs';
      }
    }
  }

  /** Every run after the first starts at a row that opens an object, and no
      run holds such a row anywhere but at its start; the first run starts
      with the first row. */
  lemma {:induction false} GroupsStarts<R>(rows: seq<R>, start: R -> bool)
    ensures var gs := Groups(rows, start);
      (forall i :: 0 < i < |gs| ==> start(gs[i][0]))
      && (forall i, j :: 0 <= i < |gs| && 0 < j < |gs[i]| ==> !start(gs[i][j]))
      && (rows != [] ==> gs[0][0] == rows[0])
    decreases |rows|
  {
    if rows != [] {
      var init := rows[..|rows| - 1];
      var gs := Groups(init, start);
      var r := rows[|rows| - 1];
      GroupsStarts(init, start);
      if start(r) || gs == [] {
        if gs == [] {
          assert init == [];
        }
      } else {
        var last := gs[|gs| - 1];
        var gs' := gs[..|gs| - 1] + [last + [r]];
        forall i, j | 0 <= i < |gs'| && 0 < j < |gs'[i]|
          ensures !start(gs'[i][j])
        {
          if i == |gs'| - 1 && j == |last| {
            assert gs'[i][j] == r;
          } else if i == |gs'| - 1 {
            assert gs'[i][j] == last[j];
          } else {
            assert gs'[i] == gs[i];
          }
        }
        if |gs| == 1 {
          assert gs'[0][0] == last[0];
        } else {
          assert gs'[0] == gs[0];
        }
      }
    }
  }

  /** One more row either opens a run of its own or joins the last run. */
  lemma GroupsStep<R>(rows: seq<R>, r: R, start: R -> bool)
    ensures var gs := Groups(rows, start);
      Groups(rows + [r], start) ==
        if start(r) || gs == [] then gs + [[r]] else gs[..|gs| - 1] + [gs[|gs| - 1] + [r]]
  {
    assert (rows + [r])[..|rows|] == rows;
  }
}
