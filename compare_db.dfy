/** The snapshot of a database the schema comparer builds (CompareDB/DB.py):
    the tables, in load order, and a dictionary from (schema, table) to the
    table, both filled by cursor loops over catalog rows; then the indexes,
    candidate keys, foreign keys and check constraints of each table.

    The catalog queries are not part of this model: each arrives as its
    sequence of rows, in the order the query sorts them. A table object is
    shared between the table list and the dictionary; the model keeps the
    tables in one sequence and lets the dictionary hold each table's position
    in it, so that changing a table through the dictionary changes the listed
    table, as it does in the source. */
module CompareDb {
  import opened Wrappers
  import opened Text
  import opened Grouping
  import opened CompareObjects

  type Key2 = (string, string)

  function Key(t: Table): Key2
  {
    (t.tabschema, t.tabname)
  }

  // ---------------------------------------------------------------------------
  // The table dictionary
  // ---------------------------------------------------------------------------

  /** The dictionary after storing every table of `ts` in order: each key maps
      to the position of the last table stored under it. */
  function Positions(ts: seq<Table>): map<Key2, nat>
  {
    if ts == [] then map[]
    else Positions(ts[..|ts| - 1])[Key(ts[|ts| - 1]) := |ts| - 1]
  }

  /** A key is in the dictionary exactly when some table has it. */
  lemma {:induction false} PositionsDomain(ts: seq<Table>)
    ensures forall k :: k in Positions(ts) <==> exists i :: 0 <= i < |ts| && Key(ts[i]) == k
    decreases |ts|
  {
    if ts != [] {
      var init := ts[..|ts| - 1];
      PositionsDomain(init);
      forall k | exists i :: 0 <= i < |ts| && Key(ts[i]) == k
        ensures k in Positions(ts)
      {
        var i :| 0 <= i < |ts| && Key(ts[i]) == k;
        if i < |ts| - 1 {
          assert Key(init[i]) == k;
        }
      }
      forall k | k in Positions(ts)
        ensures exists i :: 0 <= i < |ts| && Key(ts[i]) == k
      {
        if k != Key(ts[|ts| - 1]) {
          assert k in Positions(init);
          var i :| 0 <= i < |init| && Key(init[i]) == k;
          assert Key(ts[i]) == k;
        }
      }
    }
  }

  /** The table found under a key has that key, and no later table has it. */
  lemma {:induction false} PositionsLast(ts: seq<Table>)
    ensures forall k :: k in Positions(ts) ==>
      Positions(ts)[k] < |ts| && Key(ts[Positions(ts)[k]]) == k
      && forall j :: Positions(ts)[k] < j < |ts| ==> Key(ts[j]) != k
    decreases |ts|
  {
    if ts != [] {
      var init := ts[..|ts| - 1];
      PositionsLast(init);
      forall k | k in Positions(ts) && k != Key(ts[|ts| - 1])
        ensures Positions(ts)[k] < |ts| && Key(ts[Positions(ts)[k]]) == k
          && forall j :: Positions(ts)[k] < j < |ts| ==> Key(ts[j]) != k
      {
        assert k in Positions(init) && Positions(ts)[k] == Positions(init)[k];
        forall j | Positions(ts)[k] < j < |ts|
          ensures Key(ts[j]) != k
        {
          if j < |ts| - 1 {
            assert ts[j] == init[j];
          }
        }
      }
    }
  }

  /** Only the keys matter: tables with the same keys at the same positions
      give the same dictionary. */
  lemma {:induction false} PositionsKeys(ts: seq<Table>, us: seq<Table>)
    requires |ts| == |us| && forall i :: 0 <= i < |ts| ==> Key(ts[i]) == Key(us[i])
    ensures Positions(ts) == Positions(us)
    decreases |ts|
  {
    if ts != [] {
      PositionsKeys(ts[..|ts| - 1], us[..|us| - 1]);
    }
  }

  /** Every position in the dictionary is a position of `ts`. */
  predicate InRange(dict: map<Key2, nat>, n: nat)
  {
    forall k :: k in dict ==> dict[k] < n
  }

  // ---------------------------------------------------------------------------
  // Tables
  // ---------------------------------------------------------------------------

  /** A row of the table query: a column and the attributes of its table. */
  datatype TableRow = TableRow(
    tabschema: string, tabname: string, colno: int, column: Column,
    tbspace: string, indexTbspace: Option<string>, longTbspace: Option<string>, appendMode: string,
    compression: string, rowcompmode: string, tableorg: string, tableComment: Option<string>)

  /** The first column of a table opens it. */
  predicate OpensTable(r: TableRow)
  {
    r.colno == 0
  }

  /** The table a row opens, with no columns yet. */
  function RowTable(r: TableRow): Table
  {
    NewTable(r.tabschema, r.tabname, r.tbspace, r.indexTbspace, r.longTbspace, r.appendMode,
             r.compression, r.rowcompmode, r.tableorg, r.tableComment)
  }

  /** The state of the table loop: the tables stored so far and the current one. */
  datatype TableScan = TableScan(done: seq<Table>, cur: Option<Table>)

  /** The body of the table loop over `rows`, row by row: a row that opens a
      table stores the current one and starts a new one; every row adds its
      column to the current table, which fails when there is none yet. */
  function ScanTables(rows: seq<TableRow>): Result<TableScan>
    decreases |rows|
  {
    if rows == [] then Success(TableScan([], None))
    else
      match ScanTables(rows[..|rows| - 1])
      case Failure(e) => Failure(e)
      case Success(st) =>
        var r := rows[|rows| - 1];
        if OpensTable(r) then
          var done := st.done + (if st.cur.Some? then [st.cur.value] else []);
          Success(TableScan(done, Some(AddTableColumn(RowTable(r), r.column))))
        else if st.cur.None? then Failure("AttributeError: column before any table")
        else Success(TableScan(st.done, Some(AddTableColumn(st.cur.value, r.column))))
  }

  /** `_read_tables_`: the loop, then its `else` branch storing the last table. */
  function LoadTables(rows: seq<TableRow>): Result<seq<Table>>
  {
    match ScanTables(rows)
    case Failure(e) => Failure(e)
    case Success(st) => Success(st.done + (if st.cur.Some? then [st.cur.value] else []))
  }

  /** The columns of a run of rows, in row order. */
  function ColumnsOf(g: seq<TableRow>): (cs: seq<Column>)
    ensures |cs| == |g| && forall i :: 0 <= i < |g| ==> cs[i] == g[i].column
  {
    seq(|g|, i requires 0 <= i < |g| => g[i].column)
  }

  /** The table a run of rows describes: the attributes of its first row and
      the columns of all its rows. */
  function TableFrom(g: seq<TableRow>): Table
    requires g != []
  {
    RowTable(g[0]).(columns := ColumnsOf(g))
  }

  function TablesFrom(gs: seq<seq<TableRow>>): (ts: seq<Table>)
    requires forall i :: 0 <= i < |gs| ==> gs[i] != []
    ensures |ts| == |gs| && forall i :: 0 <= i < |gs| ==> ts[i] == TableFrom(gs[i])
  {
    seq(|gs|, i requires 0 <= i < |gs| && gs[i] != [] => TableFrom(gs[i]))
  }

  lemma TablesFromSnoc(gs: seq<seq<TableRow>>, g: seq<TableRow>)
    requires g != [] && forall i :: 0 <= i < |gs| ==> gs[i] != []
    ensures TablesFrom(gs + [g]) == TablesFrom(gs) + [TableFrom(g)]
  {
  }

  /** One more row of a run adds its column to the run's table. */
  lemma TableFromExtend(g: seq<TableRow>, r: TableRow)
    requires g != []
    ensures TableFrom(g + [r]) == AddTableColumn(TableFrom(g), r.column)
  {
    assert (g + [r])[0] == g[0];
    assert ColumnsOf(g + [r]) == ColumnsOf(g) + [r.column];
  }

  lemma TableFromOne(r: TableRow)
    ensures TableFrom([r]) == AddTableColumn(RowTable(r), r.column)
  {
    assert ColumnsOf([r]) == [r.column];
  }

  /** The table loop fails exactly when the first row does not open a table;
      after any row there is a current table. */
  lemma {:induction false} ScanTablesOk(rows: seq<TableRow>)
    ensures ScanTables(rows).Success? <==> rows == [] || OpensTable(rows[0])
    ensures ScanTables(rows).Success? ==> (ScanTables(rows).value.cur.Some? <==> rows != [])
    decreases |rows|
  {
    if rows != [] {
      var init := rows[..|rows| - 1];
      ScanTablesOk(init);
      if init != [] {
        assert rows[0] == init[0];
      }
    }
  }

  /** What the table loop holds after the rows of the runs `gs`: the tables of
      all runs but the last stored, the table of the last run current. */
  predicate HoldsRuns(st: TableScan, gs: seq<seq<TableRow>>)
    requires gs != [] && forall i :: 0 <= i < |gs| ==> gs[i] != []
  {
    st.done == TablesFrom(gs[..|gs| - 1]) && st.cur == Some(TableFrom(gs[|gs| - 1]))
  }

  /** A row that opens a table stores the current one and starts a run. */
  lemma OpenStep(st: TableScan, init: seq<TableRow>, r: TableRow)
    requires init != [] && HoldsRuns(st, Groups(init, OpensTable))
    requires OpensTable(r)
    ensures HoldsRuns(TableScan(st.done + [st.cur.value], Some(AddTableColumn(RowTable(r), r.column))),
                      Groups(init + [r], OpensTable))
  {
    var gs := Groups(init, OpensTable);
    GroupsStep(init, r, OpensTable);
    var gs' := gs + [[r]];
    assert gs'[..|gs'| - 1] == gs;
    assert gs == gs[..|gs| - 1] + [gs[|gs| - 1]];
    TablesFromSnoc(gs[..|gs| - 1], gs[|gs| - 1]);
    TableFromOne(r);
  }

  /** Any other row adds its column to the table of the last run. */
  lemma ColumnStep(st: TableScan, init: seq<TableRow>, r: TableRow)
    requires init != [] && HoldsRuns(st, Groups(init, OpensTable))
    requires !OpensTable(r)
    ensures HoldsRuns(TableScan(st.done, Some(AddTableColumn(st.cur.value, r.column))),
                      Groups(init + [r], OpensTable))
  {
    var gs := Groups(init, OpensTable);
    GroupsStep(init, r, OpensTable);
    var gs' := gs[..|gs| - 1] + [gs[|gs| - 1] + [r]];
    assert gs'[..|gs'| - 1] == gs[..|gs| - 1];
    TableFromExtend(gs[|gs| - 1], r);
  }

  /** The table loop keeps the tables of all runs but the last stored, and the
      table of the last run current. */
  lemma {:induction false} ScanTablesRuns(rows: seq<TableRow>)
    requires rows != [] && OpensTable(rows[0])
    ensures ScanTables(rows).Success? && HoldsRuns(ScanTables(rows).value, Groups(rows, OpensTable))
    decreases |rows|
  {
    ScanTablesOk(rows);
    var init := rows[..|rows| - 1];
    var r := rows[|rows| - 1];
    assert init + [r] == rows;
    if init == [] {
      GroupsStep(init, r, OpensTable);
      TableFromOne(r);
    } else {
      assert init[0] == rows[0];
      ScanTablesRuns(init);
      ScanTablesOk(init);
      var st := ScanTables(init).value;
      if OpensTable(r) {
        OpenStep(st, init, r);
        assert ScanTables(rows) == Success(TableScan(st.done + [st.cur.value], Some(AddTableColumn(RowTable(r), r.column))));
      } else {
        ColumnStep(st, init, r);
        assert ScanTables(rows) == Success(TableScan(st.done, Some(AddTableColumn(st.cur.value, r.column))));
      }
    }
  }

  /** Table loading succeeds exactly when the first row opens a table, and then
      yields one table per run of rows, in row order: the run's first row gives
      the table's attributes, and every row of the run one column, in order. */
  lemma TablesGrouped(rows: seq<TableRow>)
    ensures LoadTables(rows).Success? <==> rows == [] || OpensTable(rows[0])
    ensures LoadTables(rows).Success? ==> LoadTables(rows).value == TablesFrom(Groups(rows, OpensTable))
  {
    ScanTablesOk(rows);
    if rows != [] && OpensTable(rows[0]) {
      ScanTablesRuns(rows);
      var gs := Groups(rows, OpensTable);
      assert gs == gs[..|gs| - 1] + [gs[|gs| - 1]];
      TablesFromSnoc(gs[..|gs| - 1], gs[|gs| - 1]);
    }
  }

  // ---------------------------------------------------------------------------
  // Indexes
  // ---------------------------------------------------------------------------

  /** A row of the index query: one column of an index and the index's
      attributes. `colseq` counts the index's columns from 1. */
  datatype IndexRow = IndexRow(
    tabschema: string, tabname: string, indschema: string, indname: string,
    uniquerule: string, indextype: string, reverseScans: string, collectStatistics: string,
    compression: string, colname: string, colorder: string, colseq: int, comment: Option<string>,
    nullkeys: string, typemodel: string, xmlType: string, length: int, pattern: string)

  /** The first column of an index opens it. */
  predicate OpensIndex(r: IndexRow)
  {
    r.colseq == 1
  }

  function IndexKey(r: IndexRow): Key2
  {
    (r.tabschema, r.tabname)
  }

  /** The index a row opens, with no columns yet. */
  function RowIndex(r: IndexRow): Index
  {
    Index(r.tabschema, r.tabname, r.indschema, r.indname, r.uniquerule, r.indextype, r.reverseScans,
          r.collectStatistics, r.compression, r.comment, r.nullkeys, r.typemodel, r.xmlType,
          r.length, r.pattern, [], [])
  }

  /** Ascending and descending columns belong to the key; any other column
      order marks an included column. */
  predicate IsKeyColumn(r: IndexRow)
  {
    r.colorder == "A" || r.colorder == "D"
  }

  /** The key column as written in the index: descending ones marked `DESC`. */
  function KeyColumnName(r: IndexRow): (s: string)
    ensures r.colorder == "D" ==> s == r.colname + " DESC"
    ensures r.colorder != "D" ==> s == r.colname
  {
    if r.colorder == "D" then r.colname + " DESC" else r.colname
  }

  /** The index an opening row creates: its column joins the key when it is a
      key column, and is dropped otherwise. */
  function FirstIndex(r: IndexRow): Index
  {
    if IsKeyColumn(r) then AddIndexColumn(RowIndex(r), KeyColumnName(r)) else RowIndex(r)
  }

  /** A later row adds a key column or an included column. */
  function NextIndex(i: Index, r: IndexRow): Index
  {
    if IsKeyColumn(r) then AddIndexColumn(i, KeyColumnName(r)) else AddInclude(i, r.colname)
  }

  /** Changes the most recently added index of a table by a later row. */
  function ExtendLastIndex(t: Table, r: IndexRow): (u: Table)
    requires t.indexes != []
    ensures |u.indexes| == |t.indexes| && u.(indexes := t.indexes) == t
  {
    t.(indexes := t.indexes[..|t.indexes| - 1] + [NextIndex(t.indexes[|t.indexes| - 1], r)])
  }

  /** The state of the index loop: the tables, and the position of the table
      whose last index the loop is filling (`None` before the first index). */
  datatype IndexScan = IndexScan(tables: seq<Table>, cur: Option<nat>)

  /** The index loop over `rows`, from the tables `ts` and the dictionary
      `dict`. An opening row looks its table up, which fails for a table that
      was not loaded, and adds the new index to it at once; a later row changes
      that index in place, which fails when no index was opened yet. */
  function ScanIndexes(ts: seq<Table>, dict: map<Key2, nat>, rows: seq<IndexRow>): (r: Result<IndexScan>)
    requires InRange(dict, |ts|)
    ensures r.Success? ==> |r.value.tables| == |ts|
    ensures r.Success? ==> forall j :: 0 <= j < |ts| ==> r.value.tables[j].(indexes := ts[j].indexes) == ts[j]
    ensures r.Success? ==> forall j :: 0 <= j < |ts| ==> Key(r.value.tables[j]) == Key(ts[j])
    ensures r.Success? && r.value.cur.Some? ==>
      r.value.cur.value < |ts| && r.value.tables[r.value.cur.value].indexes != []
    decreases |rows|
  {
    if rows == [] then Success(IndexScan(ts, None))
    else
      match ScanIndexes(ts, dict, rows[..|rows| - 1])
      case Failure(e) => Failure(e)
      case Success(st) =>
        var r := rows[|rows| - 1];
        if OpensIndex(r) then
          if IndexKey(r) !in dict then Failure("KeyError: index of a table that was not loaded")
          else
            var p := dict[IndexKey(r)];
            Success(IndexScan(st.tables[p := AddIndex(st.tables[p], FirstIndex(r))], Some(p)))
        else if st.cur.None? then Failure("AttributeError: index column before any index")
        else
          var p := st.cur.value;
          Success(IndexScan(st.tables[p := ExtendLastIndex(st.tables[p], r)], Some(p)))
  }

  /** The index a run of rows describes, built row by row. */
  function IndexFrom(g: seq<IndexRow>): Index
    requires g != []
    decreases |g|
  {
    if |g| == 1 then FirstIndex(g[0]) else NextIndex(IndexFrom(g[..|g| - 1]), g[|g| - 1])
  }

  /** The key columns of `g`, in order. */
  function KeyColumnsOf(g: seq<IndexRow>): (cs: seq<string>)
    ensures |cs| <= |g|
  {
    if g == [] then []
    else KeyColumnsOf(g[..|g| - 1]) + (if IsKeyColumn(g[|g| - 1]) then [KeyColumnName(g[|g| - 1])] else [])
  }

  /** The columns of `g` that are not key columns, in order. */
  function IncludesOf(g: seq<IndexRow>): (cs: seq<string>)
    ensures |cs| <= |g|
  {
    if g == [] then []
    else IncludesOf(g[..|g| - 1]) + (if IsKeyColumn(g[|g| - 1]) then [] else [g[|g| - 1].colname])
  }

  /** The index of a run: the attributes of its first row; the key columns of
      all its rows in row order; and, as included columns, the other columns of
      all rows but the first (whose non-key column is dropped). */
  lemma {:induction false} IndexFromSpec(g: seq<IndexRow>)
    requires g != []
    ensures IndexFrom(g) == RowIndex(g[0]).(columns := KeyColumnsOf(g), includes := IncludesOf(g[1..]))
    decreases |g|
  {
    if |g| == 1 {
      assert g[..0] == [] && g[1..] == [];
    } else {
      var init := g[..|g| - 1];
      IndexFromSpec(init);
      assert init[0] == g[0];
      assert g[1..][..|g[1..]| - 1] == init[1..];
    }
  }

  /** The indexes of the runs `gs` added, run after run, each to the table its
      first row names; fails on a run whose table was not loaded. */
  function AttachIndexes(ts: seq<Table>, dict: map<Key2, nat>, gs: seq<seq<IndexRow>>): (r: Result<seq<Table>>)
    requires InRange(dict, |ts|)
    requires forall i :: 0 <= i < |gs| ==> gs[i] != []
    ensures r.Success? ==> |r.value| == |ts|
    decreases |gs|
  {
    if gs == [] then Success(ts)
    else
      match AttachIndexes(ts, dict, gs[..|gs| - 1])
      case Failure(e) => Failure(e)
      case Success(us) =>
        var k := IndexKey(gs[|gs| - 1][0]);
        if k !in dict then Failure("KeyError: index of a table that was not loaded")
        else Success(us[dict[k] := AddIndex(us[dict[k]], IndexFrom(gs[|gs| - 1]))])
  }

  /** What the index loop holds after the rows of the runs `gs`: the indexes of
      all runs attached, and the table of the last run current. */
  predicate HoldsIndexRuns(ts: seq<Table>, dict: map<Key2, nat>, st: IndexScan, gs: seq<seq<IndexRow>>)
    requires InRange(dict, |ts|)
    requires gs != [] && forall i :: 0 <= i < |gs| ==> gs[i] != []
  {
    var a := AttachIndexes(ts, dict, gs);
    a.Success? && st.tables == a.value && IndexKey(gs[|gs| - 1][0]) in dict
    && st.cur == Some(dict[IndexKey(gs[|gs| - 1][0])])
  }

  /** A later row changes the index just added. */
  lemma ExtendAdded(t: Table, i: Index, r: IndexRow)
    ensures ExtendLastIndex(AddIndex(t, i), r) == AddIndex(t, NextIndex(i, r))
  {
    assert AddIndex(t, i).indexes[..|t.indexes|] == t.indexes;
  }

  /** An opening row attaches the index of a new run. */
  lemma IndexOpenStep(ts: seq<Table>, dict: map<Key2, nat>, st: IndexScan, init: seq<IndexRow>, r: IndexRow)
    requires InRange(dict, |ts|) && init != []
    requires HoldsIndexRuns(ts, dict, st, Groups(init, OpensIndex))
    requires OpensIndex(r) && IndexKey(r) in dict
    ensures var p := dict[IndexKey(r)];
      p < |st.tables| &&
      HoldsIndexRuns(ts, dict, IndexScan(st.tables[p := AddIndex(st.tables[p], FirstIndex(r))], Some(p)),
                     Groups(init + [r], OpensIndex))
  {
    var gs := Groups(init, OpensIndex);
    GroupsStep(init, r, OpensIndex);
    var gs' := gs + [[r]];
    assert gs'[..|gs'| - 1] == gs;
  }

  /** An opening row whose table was not loaded makes both fail. */
  lemma IndexMissingStep(ts: seq<Table>, dict: map<Key2, nat>, init: seq<IndexRow>, r: IndexRow)
    requires InRange(dict, |ts|) && init != []
    requires OpensIndex(r) && IndexKey(r) !in dict
    ensures AttachIndexes(ts, dict, Groups(init + [r], OpensIndex)).Failure?
  {
    var gs := Groups(init, OpensIndex);
    GroupsStep(init, r, OpensIndex);
    var gs' := gs + [[r]];
    assert gs'[..|gs'| - 1] == gs;
  }

  /** A later row changes the index of the last run. */
  lemma IndexColumnStep(ts: seq<Table>, dict: map<Key2, nat>, st: IndexScan, init: seq<IndexRow>, r: IndexRow)
    requires InRange(dict, |ts|) && init != []
    requires HoldsIndexRuns(ts, dict, st, Groups(init, OpensIndex))
    requires !OpensIndex(r)
    ensures var p := st.cur.value;
      p < |st.tables| && st.tables[p].indexes != [] &&
      HoldsIndexRuns(ts, dict, IndexScan(st.tables[p := ExtendLastIndex(st.tables[p], r)], Some(p)),
                     Groups(init + [r], OpensIndex))
  {
    var gs := Groups(init, OpensIndex);
    GroupsStep(init, r, OpensIndex);
    var last := gs[|gs| - 1];
    var gs' := gs[..|gs| - 1] + [last + [r]];
    assert gs'[..|gs'| - 1] == gs[..|gs| - 1];
    assert (last + [r])[0] == last[0];
    assert (last + [r])[..|last|] == last;
    var us := AttachIndexes(ts, dict, gs[..|gs| - 1]).value;
    var p := st.cur.value;
    ExtendAdded(us[p], IndexFrom(last), r);
  }

  /** A scan that starts with an opening row holds the attached runs, and fails
      exactly when attaching them fails. */
  lemma {:induction false} ScanIndexesRuns(ts: seq<Table>, dict: map<Key2, nat>, rows: seq<IndexRow>)
    requires InRange(dict, |ts|)
    requires rows != [] && OpensIndex(rows[0])
    ensures ScanIndexes(ts, dict, rows).Success? <==> AttachIndexes(ts, dict, Groups(rows, OpensIndex)).Success?
    ensures ScanIndexes(ts, dict, rows).Success? ==>
      HoldsIndexRuns(ts, dict, ScanIndexes(ts, dict, rows).value, Groups(rows, OpensIndex))
    decreases |rows|
  {
    var init := rows[..|rows| - 1];
    var r := rows[|rows| - 1];
    assert init + [r] == rows;
    if init == [] {
      GroupsStep(init, r, OpensIndex);
      assert Groups(rows, OpensIndex) == [[r]];
      assert Groups(rows, OpensIndex)[..0] == [];
    } else {
      assert init[0] == rows[0];
      ScanIndexesRuns(ts, dict, init);
      var gs := Groups(init, OpensIndex);
      if ScanIndexes(ts, dict, init).Failure? {
        IndexFailStep(ts, dict, init, r);
        assert ScanIndexes(ts, dict, rows).Failure?;
      } else {
        var st := ScanIndexes(ts, dict, init).value;
        if OpensIndex(r) {
          if IndexKey(r) in dict {
            var p := dict[IndexKey(r)];
            IndexOpenStep(ts, dict, st, init, r);
            assert ScanIndexes(ts, dict, rows)
                == Success(IndexScan(st.tables[p := AddIndex(st.tables[p], FirstIndex(r))], Some(p)));
          } else {
            IndexMissingStep(ts, dict, init, r);
            assert ScanIndexes(ts, dict, rows).Failure?;
          }
        } else {
          var p := st.cur.value;
          IndexColumnStep(ts, dict, st, init, r);
          assert ScanIndexes(ts, dict, rows)
              == Success(IndexScan(st.tables[p := ExtendLastIndex(st.tables[p], r)], Some(p)));
        }
      }
    }
  }

  /** Once attaching the runs of a prefix fails, attaching those of the longer
      rows fails too. */
  lemma IndexFailStep(ts: seq<Table>, dict: map<Key2, nat>, init: seq<IndexRow>, r: IndexRow)
    requires InRange(dict, |ts|) && init != []
    requires AttachIndexes(ts, dict, Groups(init, OpensIndex)).Failure?
    ensures AttachIndexes(ts, dict, Groups(init + [r], OpensIndex)).Failure?
  {
    var gs := Groups(init, OpensIndex);
    GroupsStep(init, r, OpensIndex);
    if !OpensIndex(r) {
      var last := gs[|gs| - 1];
      var gs' := gs[..|gs| - 1] + [last + [r]];
      assert Groups(init + [r], OpensIndex) == gs';
      assert gs'[..|gs'| - 1] == gs[..|gs| - 1];
      assert gs'[|gs'| - 1][0] == last[0];
      if AttachIndexes(ts, dict, gs[..|gs| - 1]).Success? {
        assert IndexKey(last[0]) !in dict;
      }
    } else {
      var gs' := gs + [[r]];
      assert Groups(init + [r], OpensIndex) == gs';
      assert gs'[..|gs'| - 1] == gs;
    }
  }

  /** A scan that starts with a row that opens no index fails. */
  lemma {:induction false} ScanIndexesStray(ts: seq<Table>, dict: map<Key2, nat>, rows: seq<IndexRow>)
    requires InRange(dict, |ts|)
    requires rows != [] && !OpensIndex(rows[0])
    ensures ScanIndexes(ts, dict, rows).Failure?
    decreases |rows|
  {
    if |rows| > 1 {
      var init := rows[..|rows| - 1];
      assert init[0] == rows[0];
      ScanIndexesStray(ts, dict, init);
    }
  }

  /** Index loading succeeds exactly when the first row opens an index and every
      index names a loaded table; it then adds to each table, in row order, the
      index of every run of rows naming it, and changes nothing else. */
  lemma IndexesGrouped(ts: seq<Table>, dict: map<Key2, nat>, rows: seq<IndexRow>)
    requires InRange(dict, |ts|)
    ensures ScanIndexes(ts, dict, rows).Success? <==>
      (rows == [] || OpensIndex(rows[0])) && AttachIndexes(ts, dict, Groups(rows, OpensIndex)).Success?
    ensures ScanIndexes(ts, dict, rows).Success? ==>
      ScanIndexes(ts, dict, rows).value.tables == AttachIndexes(ts, dict, Groups(rows, OpensIndex)).value
  {
    if rows != [] {
      if OpensIndex(rows[0]) {
        ScanIndexesRuns(ts, dict, rows);
      } else {
        ScanIndexesStray(ts, dict, rows);
      }
    }
  }

  /** A failure of the index loop is final. */
  lemma {:induction false} ScanIndexesFailFinal(ts: seq<Table>, dict: map<Key2, nat>, rows: seq<IndexRow>, i: nat)
    requires InRange(dict, |ts|) && i <= |rows|
    requires ScanIndexes(ts, dict, rows[..i]).Failure?
    ensures ScanIndexes(ts, dict, rows).Failure?
    decreases |rows| - i
  {
    if i < |rows| {
      assert rows[..i + 1][..i] == rows[..i];
      ScanIndexesFailFinal(ts, dict, rows, i + 1);
    } else {
      assert rows[..i] == rows;
    }
  }

  // ---------------------------------------------------------------------------
  // Candidate and foreign keys
  // ---------------------------------------------------------------------------

  /** The candidate-key loop and the foreign-key loop are one loop over
      different rows: a row that opens a key (key column 1) stores the pending
      key in the table it was read for, looks up the table of the new key and
      starts that key; every row then adds its columns to the pending key; the
      `else` branch of the loop stores the last pending key. `C` is the kind of
      key being built. */
  datatype KeyLoop<!R, !C> = KeyLoop(
    opens: R -> bool, key: R -> Key2, first: R -> C, next: (C, R) -> C, seal: C -> Constraint)

  /** The state of a key loop: the tables, and the pending key with the
      position of its table. */
  datatype KeyScan<C> = KeyScan(tables: seq<Table>, pending: Option<(nat, C)>)

  /** Stores the pending key, if any, in its table. */
  function Flush<R, C>(st: KeyScan<C>, lp: KeyLoop<R, C>): (ts: seq<Table>)
    requires st.pending.Some? ==> st.pending.value.0 < |st.tables|
    ensures |ts| == |st.tables|
  {
    if st.pending.None? then st.tables
    else
      var p := st.pending.value.0;
      st.tables[p := AddConstraint(st.tables[p], lp.seal(st.pending.value.1))]
  }

  function ScanKeys<R, C>(ts: seq<Table>, dict: map<Key2, nat>, rows: seq<R>, lp: KeyLoop<R, C>): (r: Result<KeyScan<C>>)
    requires InRange(dict, |ts|)
    ensures r.Success? ==> |r.value.tables| == |ts|
    ensures r.Success? ==> forall j :: 0 <= j < |ts| ==> r.value.tables[j].(constraints := ts[j].constraints) == ts[j]
    ensures r.Success? ==> forall j :: 0 <= j < |ts| ==> Key(r.value.tables[j]) == Key(ts[j])
    ensures r.Success? && r.value.pending.Some? ==> r.value.pending.value.0 < |ts|
    decreases |rows|
  {
    if rows == [] then Success(KeyScan(ts, None))
    else
      match ScanKeys(ts, dict, rows[..|rows| - 1], lp)
      case Failure(e) => Failure(e)
      case Success(st) =>
        var r := rows[|rows| - 1];
        if lp.opens(r) then
          if lp.key(r) !in dict then Failure("KeyError: key of a table that was not loaded")
          else Success(KeyScan(Flush(st, lp), Some((dict[lp.key(r)], lp.next(lp.first(r), r)))))
        else if st.pending.None? then Failure("AttributeError: key column before any key")
        else Success(KeyScan(st.tables, Some((st.pending.value.0, lp.next(st.pending.value.1, r)))))
  }

  /** A whole key loop, with its `else` branch. */
  function LoadKeys<R, C>(ts: seq<Table>, dict: map<Key2, nat>, rows: seq<R>, lp: KeyLoop<R, C>): (r: Result<seq<Table>>)
    requires InRange(dict, |ts|)
    ensures r.Success? ==> |r.value| == |ts|
    ensures r.Success? ==> forall j :: 0 <= j < |ts| ==> r.value[j].(constraints := ts[j].constraints) == ts[j]
    ensures r.Success? ==> forall j :: 0 <= j < |ts| ==> Key(r.value[j]) == Key(ts[j])
  {
    match ScanKeys(ts, dict, rows, lp)
    case Failure(e) => Failure(e)
    case Success(st) => Success(Flush(st, lp))
  }

  /** The key a run of rows describes, built row by row. */
  function KeyFrom<R, C>(g: seq<R>, lp: KeyLoop<R, C>): C
    requires g != []
    decreases |g|
  {
    if |g| == 1 then lp.next(lp.first(g[0]), g[0]) else lp.next(KeyFrom(g[..|g| - 1], lp), g[|g| - 1])
  }

  /** The keys of the runs `gs` added, run after run, each to the table its
      first row names; fails on a run whose table was not loaded. */
  function AttachKeys<R, C>(ts: seq<Table>, dict: map<Key2, nat>, gs: seq<seq<R>>, lp: KeyLoop<R, C>): (r: Result<seq<Table>>)
    requires InRange(dict, |ts|)
    requires forall i :: 0 <= i < |gs| ==> gs[i] != []
    ensures r.Success? ==> |r.value| == |ts|
    decreases |gs|
  {
    if gs == [] then Success(ts)
    else
      match AttachKeys(ts, dict, gs[..|gs| - 1], lp)
      case Failure(e) => Failure(e)
      case Success(us) =>
        var k := lp.key(gs[|gs| - 1][0]);
        if k !in dict then Failure("KeyError: key of a table that was not loaded")
        else Success(us[dict[k] := AddConstraint(us[dict[k]], lp.seal(KeyFrom(gs[|gs| - 1], lp)))])
  }

  /** What a key loop holds after the rows of the runs `gs`: the keys of all
      runs but the last stored, the key of the last run pending. */
  ghost predicate HoldsKeyRuns<R, C>(ts: seq<Table>, dict: map<Key2, nat>, st: KeyScan<C>, gs: seq<seq<R>>, lp: KeyLoop<R, C>)
    requires InRange(dict, |ts|)
    requires gs != [] && forall i :: 0 <= i < |gs| ==> gs[i] != []
  {
    var k := lp.key(gs[|gs| - 1][0]);
    AttachKeys(ts, dict, gs, lp).Success? && AttachKeys(ts, dict, gs[..|gs| - 1], lp).Success?
    && st.tables == AttachKeys(ts, dict, gs[..|gs| - 1], lp).value
    && k in dict && st.pending == Some((dict[k], KeyFrom(gs[|gs| - 1], lp)))
  }

  /** An opening row stores the key of the last run and starts a new one. */
  lemma KeyOpenStep<R, C>(ts: seq<Table>, dict: map<Key2, nat>, st: KeyScan<C>, init: seq<R>, r: R, lp: KeyLoop<R, C>)
    requires InRange(dict, |ts|) && init != []
    requires HoldsKeyRuns(ts, dict, st, Groups(init, lp.opens), lp)
    requires lp.opens(r) && lp.key(r) in dict
    ensures st.pending.value.0 < |st.tables|
    ensures HoldsKeyRuns(ts, dict, KeyScan(Flush(st, lp), Some((dict[lp.key(r)], lp.next(lp.first(r), r)))),
                         Groups(init + [r], lp.opens), lp)
  {
    var gs := Groups(init, lp.opens);
    GroupsStep(init, r, lp.opens);
    var gs' := gs + [[r]];
    assert gs'[..|gs'| - 1] == gs;
  }

  /** An opening row whose table was not loaded makes both fail. */
  lemma KeyMissingStep<R, C>(ts: seq<Table>, dict: map<Key2, nat>, init: seq<R>, r: R, lp: KeyLoop<R, C>)
    requires InRange(dict, |ts|) && init != []
    requires lp.opens(r) && lp.key(r) !in dict
    ensures AttachKeys(ts, dict, Groups(init + [r], lp.opens), lp).Failure?
  {
    var gs := Groups(init, lp.opens);
    GroupsStep(init, r, lp.opens);
    var gs' := gs + [[r]];
    assert gs'[..|gs'| - 1] == gs;
  }

  /** A later row adds its columns to the pending key. */
  lemma KeyColumnStep<R, C>(ts: seq<Table>, dict: map<Key2, nat>, st: KeyScan<C>, init: seq<R>, r: R, lp: KeyLoop<R, C>)
    requires InRange(dict, |ts|) && init != []
    requires HoldsKeyRuns(ts, dict, st, Groups(init, lp.opens), lp)
    requires !lp.opens(r)
    ensures HoldsKeyRuns(ts, dict, KeyScan(st.tables, Some((st.pending.value.0, lp.next(st.pending.value.1, r)))),
                         Groups(init + [r], lp.opens), lp)
  {
    var gs := Groups(init, lp.opens);
    GroupsStep(init, r, lp.opens);
    var last := gs[|gs| - 1];
    var gs' := gs[..|gs| - 1] + [last + [r]];
    assert gs'[..|gs'| - 1] == gs[..|gs| - 1];
    assert (last + [r])[0] == last[0];
    assert (last + [r])[..|last|] == last;
  }

  /** Once attaching the runs of a prefix fails, attaching those of the longer
      rows fails too. */
  lemma KeyFailStep<R, C>(ts: seq<Table>, dict: map<Key2, nat>, init: seq<R>, r: R, lp: KeyLoop<R, C>)
    requires InRange(dict, |ts|) && init != []
    requires AttachKeys(ts, dict, Groups(init, lp.opens), lp).Failure?
    ensures AttachKeys(ts, dict, Groups(init + [r], lp.opens), lp).Failure?
  {
    var gs := Groups(init, lp.opens);
    GroupsStep(init, r, lp.opens);
    if !lp.opens(r) {
      var last := gs[|gs| - 1];
      var gs' := gs[..|gs| - 1] + [last + [r]];
      assert Groups(init + [r], lp.opens) == gs';
      assert gs'[..|gs'| - 1] == gs[..|gs| - 1];
      assert gs'[|gs'| - 1][0] == last[0];
      if AttachKeys(ts, dict, gs[..|gs| - 1], lp).Success? {
        assert lp.key(last[0]) !in dict;
      }
    } else {
      var gs' := gs + [[r]];
      assert Groups(init + [r], lp.opens) == gs';
      assert gs'[..|gs'| - 1] == gs;
    }
  }

  lemma {:induction false} ScanKeysRuns<R, C>(ts: seq<Table>, dict: map<Key2, nat>, rows: seq<R>, lp: KeyLoop<R, C>)
    requires InRange(dict, |ts|)
    requires rows != [] && lp.opens(rows[0])
    ensures ScanKeys(ts, dict, rows, lp).Success? <==> AttachKeys(ts, dict, Groups(rows, lp.opens), lp).Success?
    ensures ScanKeys(ts, dict, rows, lp).Success? ==>
      HoldsKeyRuns(ts, dict, ScanKeys(ts, dict, rows, lp).value, Groups(rows, lp.opens), lp)
    decreases |rows|
  {
    var init := rows[..|rows| - 1];
    var r := rows[|rows| - 1];
    assert init + [r] == rows;
    if init == [] {
      GroupsStep(init, r, lp.opens);
      assert Groups(rows, lp.opens) == [[r]];
      assert Groups(rows, lp.opens)[..0] == [];
    } else {
      assert init[0] == rows[0];
      ScanKeysRuns(ts, dict, init, lp);
      if ScanKeys(ts, dict, init, lp).Failure? {
        KeyFailStep(ts, dict, init, r, lp);
        assert ScanKeys(ts, dict, rows, lp).Failure?;
      } else {
        var st := ScanKeys(ts, dict, init, lp).value;
        if lp.opens(r) {
          if lp.key(r) in dict {
            KeyOpenStep(ts, dict, st, init, r, lp);
            assert ScanKeys(ts, dict, rows, lp)
                == Success(KeyScan(Flush(st, lp), Some((dict[lp.key(r)], lp.next(lp.first(r), r)))));
          } else {
            KeyMissingStep(ts, dict, init, r, lp);
            assert ScanKeys(ts, dict, rows, lp).Failure?;
          }
        } else {
          KeyColumnStep(ts, dict, st, init, r, lp);
          assert ScanKeys(ts, dict, rows, lp)
              == Success(KeyScan(st.tables, Some((st.pending.value.0, lp.next(st.pending.value.1, r)))));
        }
      }
    }
  }

  lemma {:induction false} ScanKeysStray<R, C>(ts: seq<Table>, dict: map<Key2, nat>, rows: seq<R>, lp: KeyLoop<R, C>)
    requires InRange(dict, |ts|)
    requires rows != [] && !lp.opens(rows[0])
    ensures ScanKeys(ts, dict, rows, lp).Failure?
    decreases |rows|
  {
    if |rows| > 1 {
      var init := rows[..|rows| - 1];
      assert init[0] == rows[0];
      ScanKeysStray(ts, dict, init, lp);
    }
  }

  /** A key loop succeeds exactly when its first row opens a key and every key
      names a loaded table; it then adds to each table, in row order, the key of
      every run of rows naming it, and changes nothing else. */
  lemma KeysGrouped<R, C>(ts: seq<Table>, dict: map<Key2, nat>, rows: seq<R>, lp: KeyLoop<R, C>)
    requires InRange(dict, |ts|)
    ensures LoadKeys(ts, dict, rows, lp).Success? <==>
      (rows == [] || lp.opens(rows[0])) && AttachKeys(ts, dict, Groups(rows, lp.opens), lp).Success?
    ensures LoadKeys(ts, dict, rows, lp).Success? ==>
      LoadKeys(ts, dict, rows, lp).value == AttachKeys(ts, dict, Groups(rows, lp.opens), lp).value
  {
    if rows != [] {
      if lp.opens(rows[0]) {
        ScanKeysRuns(ts, dict, rows, lp);
      } else {
        ScanKeysStray(ts, dict, rows, lp);
      }
    }
  }

  /** A failure of a key loop is final. */
  lemma {:induction false} ScanKeysFailFinal<R, C>(ts: seq<Table>, dict: map<Key2, nat>, rows: seq<R>, lp: KeyLoop<R, C>, i: nat)
    requires InRange(dict, |ts|) && i <= |rows|
    requires ScanKeys(ts, dict, rows[..i], lp).Failure?
    ensures ScanKeys(ts, dict, rows, lp).Failure?
    decreases |rows| - i
  {
    if i < |rows| {
      assert rows[..i + 1][..i] == rows[..i];
      ScanKeysFailFinal(ts, dict, rows, lp, i + 1);
    } else {
      assert rows[..i] == rows;
    }
  }

  /** A row of the candidate-key query: one column of a primary or unique key. */
  datatype CandidateRow = CandidateRow(
    tabschema: string, tabname: string, constname: string, colname: string, ctype: string,
    enforced: string, queryopt: string, colseq: int, comment: Option<string>)

  type CandidateDraft = c: Constraint | c.CandidateKey? witness CandidateKey("", "", "", "", None, None, None, [])

  predicate OpensCandidate(r: CandidateRow)
  {
    r.colseq == 1
  }

  function CandidateKey2(r: CandidateRow): Key2
  {
    (r.tabschema, r.tabname)
  }

  function CandidateNext(c: CandidateDraft, r: CandidateRow): CandidateDraft
  {
    AddKeyColumn(c, r.colname)
  }

  function SealCandidate(c: CandidateDraft): Constraint
  {
    c
  }

  function CandidateHead(r: CandidateRow): CandidateDraft
  {
    NewCandidateKey(r.tabschema, r.tabname, r.constname, r.ctype, r.enforced, r.queryopt, r.comment)
  }

  /** `_read_candidate_keys_` as a key loop. */
  function CandidateLoop(): KeyLoop<CandidateRow, CandidateDraft>
  {
    KeyLoop(OpensCandidate, CandidateKey2, CandidateHead, CandidateNext, SealCandidate)
  }

  function CandidateColumns(g: seq<CandidateRow>): (cs: seq<string>)
    ensures |cs| == |g| && forall i :: 0 <= i < |g| ==> cs[i] == g[i].colname
  {
    seq(|g|, i requires 0 <= i < |g| => g[i].colname)
  }

  /** The key of a run of candidate-key rows: the attributes of its first row,
      and the columns of all its rows in row order. */
  lemma {:induction false} CandidateKeyColumns(g: seq<CandidateRow>)
    requires g != []
    ensures KeyFrom(g, CandidateLoop()) == CandidateHead(g[0]).(columns := CandidateColumns(g))
    decreases |g|
  {
    if |g| > 1 {
      var init := g[..|g| - 1];
      CandidateKeyColumns(init);
      assert init[0] == g[0];
      assert CandidateColumns(g) == CandidateColumns(init) + [g[|g| - 1].colname];
    }
  }

  /** A row of the foreign-key query: one column of a foreign key and the
      parent column it matches. */
  datatype ForeignRow = ForeignRow(
    tabschema: string, tabname: string, constname: string, refkeyname: string,
    reftabschema: string, reftabname: string, deleteRule: string, updateRule: string,
    colname: string, refcolname: string, enforced: string, queryopt: string, colseq: int,
    ctype: string, comment: Option<string>)

  type ForeignDraft = c: Constraint | c.ForeignKey?
    witness ForeignKey("", "", "", "", "", "", "", "", None, None, None, [], [])

  predicate OpensForeign(r: ForeignRow)
  {
    r.colseq == 1
  }

  function ForeignKey2(r: ForeignRow): Key2
  {
    (r.tabschema, r.tabname)
  }

  function ForeignNext(c: ForeignDraft, r: ForeignRow): ForeignDraft
  {
    AddColumnPair(c, r.colname, r.refcolname)
  }

  function SealForeign(c: ForeignDraft): Constraint
  {
    c
  }

  function ForeignHead(r: ForeignRow): ForeignDraft
  {
    NewForeignKey(r.tabschema, r.tabname, r.constname, r.reftabschema, r.reftabname,
                  r.deleteRule, r.updateRule, r.enforced, r.queryopt, r.ctype, r.comment)
  }

  /** `_read_foreign_keys_` as a key loop. */
  function ForeignLoop(): KeyLoop<ForeignRow, ForeignDraft>
  {
    KeyLoop(OpensForeign, ForeignKey2, ForeignHead, ForeignNext, SealForeign)
  }

  function ForeignColumns(g: seq<ForeignRow>): (cs: seq<string>)
    ensures |cs| == |g| && forall i :: 0 <= i < |g| ==> cs[i] == g[i].colname
  {
    seq(|g|, i requires 0 <= i < |g| => g[i].colname)
  }

  function ReferencedColumns(g: seq<ForeignRow>): (cs: seq<string>)
    ensures |cs| == |g| && forall i :: 0 <= i < |g| ==> cs[i] == g[i].refcolname
  {
    seq(|g|, i requires 0 <= i < |g| => g[i].refcolname)
  }

  /** The key of a run of foreign-key rows: the attributes of its first row, its
      columns and, position by position, the parent columns they match. */
  lemma {:induction false} ForeignKeyColumns(g: seq<ForeignRow>)
    requires g != []
    ensures KeyFrom(g, ForeignLoop()) ==
      ForeignHead(g[0]).(cols := ForeignColumns(g), refcols := ReferencedColumns(g))
    ensures |KeyFrom(g, ForeignLoop()).cols| == |KeyFrom(g, ForeignLoop()).refcols|
    decreases |g|
  {
    if |g| > 1 {
      var init := g[..|g| - 1];
      ForeignKeyColumns(init);
      assert init[0] == g[0];
      assert ForeignColumns(g) == ForeignColumns(init) + [g[|g| - 1].colname];
      assert ReferencedColumns(g) == ReferencedColumns(init) + [g[|g| - 1].refcolname];
    }
  }

  // ---------------------------------------------------------------------------
  // Check constraints
  // ---------------------------------------------------------------------------

  /** A row of the check query. `ctype` is the type of the check itself, `typex`
      that of the table constraint, which the check keeps. */
  datatype CheckRow = CheckRow(
    tabschema: string, tabname: string, constname: string, ctype: string, text: string,
    enforced: string, queryopt: string, typex: string, comment: Option<string>)

  function CheckOf(r: CheckRow): Constraint
  {
    NewCheck(r.tabschema, r.tabname, r.constname, r.text, r.enforced, r.queryopt, r.typex, r.comment)
  }

  /** System-generated checks (type `S`, kept for generated columns) are skipped. */
  predicate Generated(r: CheckRow)
  {
    r.ctype == "S"
  }

  /** `_read_check_constraints_`: every other check goes to its table, which
      fails when the table was not loaded. */
  function LoadChecks(ts: seq<Table>, dict: map<Key2, nat>, rows: seq<CheckRow>): (r: Result<seq<Table>>)
    requires InRange(dict, |ts|)
    ensures r.Success? ==> |r.value| == |ts|
    ensures r.Success? ==> forall j :: 0 <= j < |ts| ==> r.value[j].(constraints := ts[j].constraints) == ts[j]
    ensures r.Success? ==> forall j :: 0 <= j < |ts| ==> Key(r.value[j]) == Key(ts[j])
    decreases |rows|
  {
    if rows == [] then Success(ts)
    else
      match LoadChecks(ts, dict, rows[..|rows| - 1])
      case Failure(e) => Failure(e)
      case Success(us) =>
        var r := rows[|rows| - 1];
        if Generated(r) then Success(us)
        else if (r.tabschema, r.tabname) !in dict then Failure("KeyError: check of a table that was not loaded")
        else
          var p := dict[(r.tabschema, r.tabname)];
          Success(us[p := AddConstraint(us[p], CheckOf(r))])
  }

  /** The checks of `rows` that go to the table at position `j`, in row order. */
  function ChecksFor(dict: map<Key2, nat>, rows: seq<CheckRow>, j: nat): seq<Constraint>
  {
    if rows == [] then []
    else
      var r := rows[|rows| - 1];
      ChecksFor(dict, rows[..|rows| - 1], j) +
        (if !Generated(r) && (r.tabschema, r.tabname) in dict && dict[(r.tabschema, r.tabname)] == j
         then [CheckOf(r)] else [])
  }

  /** Loading checks succeeds exactly when every check not generated by the
      system names a loaded table; it then appends to each table its own checks
      in row order, and changes nothing else. */
  lemma {:induction false} ChecksPerTable(ts: seq<Table>, dict: map<Key2, nat>, rows: seq<CheckRow>)
    requires InRange(dict, |ts|)
    ensures LoadChecks(ts, dict, rows).Success? <==>
      forall i :: 0 <= i < |rows| && !Generated(rows[i]) ==> (rows[i].tabschema, rows[i].tabname) in dict
    ensures LoadChecks(ts, dict, rows).Success? ==> forall j :: 0 <= j < |ts| ==>
      LoadChecks(ts, dict, rows).value[j] ==
        ts[j].(constraints := ts[j].constraints + ChecksFor(dict, rows, j))
    decreases |rows|
  {
    if rows != [] {
      var init := rows[..|rows| - 1];
      var r := rows[|rows| - 1];
      ChecksPerTable(ts, dict, init);
      assert forall i :: 0 <= i < |init| ==> init[i] == rows[i];
      if LoadChecks(ts, dict, init).Success? && !Generated(r) && (r.tabschema, r.tabname) in dict {
        var us := LoadChecks(ts, dict, init).value;
        var p := dict[(r.tabschema, r.tabname)];
        forall j | 0 <= j < |ts|
          ensures LoadChecks(ts, dict, rows).value[j] == ts[j].(constraints := ts[j].constraints + ChecksFor(dict, rows, j))
        {
          if j == p {
            assert ts[j].constraints + ChecksFor(dict, rows, j)
                == ts[j].constraints + ChecksFor(dict, init, j) + [CheckOf(r)];
          }
        }
      }
    }
  }

  /** A failure of the check loop is final. */
  lemma {:induction false} LoadChecksFailFinal(ts: seq<Table>, dict: map<Key2, nat>, rows: seq<CheckRow>, i: nat)
    requires InRange(dict, |ts|) && i <= |rows|
    requires LoadChecks(ts, dict, rows[..i]).Failure?
    ensures LoadChecks(ts, dict, rows).Failure?
    decreases |rows| - i
  {
    if i < |rows| {
      assert rows[..i + 1][..i] == rows[..i];
      LoadChecksFailFinal(ts, dict, rows, i + 1);
    } else {
      assert rows[..i] == rows;
    }
  }

  // ---------------------------------------------------------------------------
  // The whole snapshot
  // ---------------------------------------------------------------------------

  /** The rows the five catalog queries return, each in the order its query
      sorts them. */
  datatype Catalog = Catalog(
    tableRows: seq<TableRow>, indexRows: seq<IndexRow>, candidateRows: seq<CandidateRow>,
    foreignRows: seq<ForeignRow>, checkRows: seq<CheckRow>)

  lemma PositionsInRange(ts: seq<Table>)
    ensures InRange(Positions(ts), |ts|)
  {
    PositionsLast(ts);
  }

  /** `_read_constraints_`: candidate keys, then foreign keys, then checks. */
  function LoadConstraints(ts: seq<Table>, dict: map<Key2, nat>, c: Catalog): (r: Result<seq<Table>>)
    requires InRange(dict, |ts|)
    ensures r.Success? ==> |r.value| == |ts|
    ensures r.Success? ==> forall j :: 0 <= j < |ts| ==> r.value[j].(constraints := ts[j].constraints) == ts[j]
  {
    match LoadKeys(ts, dict, c.candidateRows, CandidateLoop())
    case Failure(e) => Failure(e)
    case Success(us) =>
      match LoadKeys(us, dict, c.foreignRows, ForeignLoop())
      case Failure(e) => Failure(e)
      case Success(vs) => LoadChecks(vs, dict, c.checkRows)
  }

  /** The snapshot `DB(...)` builds: tables, then indexes, then constraints,
      all found through the dictionary the table loop filled. */
  function Build(c: Catalog): (r: Result<seq<Table>>)
  {
    match LoadTables(c.tableRows)
    case Failure(e) => Failure(e)
    case Success(ts) =>
      PositionsInRange(ts);
      match ScanIndexes(ts, Positions(ts), c.indexRows)
      case Failure(e) => Failure(e)
      case Success(st) => LoadConstraints(st.tables, Positions(ts), c)
  }

  /** Building fails exactly when one of its loops does; and the indexes and
      constraints of a snapshot are all the loops after the first change: each
      built table is a loaded table with its indexes and constraints added. */
  lemma BuildKeepsTables(c: Catalog)
    ensures Build(c).Success? ==> LoadTables(c.tableRows).Success?
    ensures Build(c).Success? ==>
      var ts := LoadTables(c.tableRows).value;
      |Build(c).value| == |ts| &&
      forall j :: 0 <= j < |ts| ==> Build(c).value[j].(indexes := [], constraints := []) == ts[j]
  {
    if Build(c).Success? {
      TablesGrouped(c.tableRows);
      var ts := LoadTables(c.tableRows).value;
      PositionsInRange(ts);
      var st := ScanIndexes(ts, Positions(ts), c.indexRows).value;
      var us := Build(c).value;
      forall j | 0 <= j < |ts|
        ensures us[j].(indexes := [], constraints := []) == ts[j]
      {
        assert us[j].(constraints := st.tables[j].constraints) == st.tables[j];
        assert st.tables[j].(indexes := ts[j].indexes) == ts[j];
      }
    }
  }

  // ---------------------------------------------------------------------------
  // Reading the snapshot
  // ---------------------------------------------------------------------------

  /** `DB.get_tables`: the tables of one schema, in load order. */
  function TablesIn(ts: seq<Table>, schema: string): (r: seq<Table>)
    ensures |r| <= |ts|
    ensures forall t :: t in r <==> t in ts && t.tabschema == schema
  {
    if ts == [] then []
    else
      var init := ts[..|ts| - 1];
      var t := ts[|ts| - 1];
      assert ts == init + [t];
      TablesIn(init, schema) + (if t.tabschema == schema then [t] else [])
  }

  /** Selecting a schema's tables from two lists one after the other selects
      from each in turn: the order of the tables is kept. */
  lemma {:induction false} TablesInAppend(a: seq<Table>, b: seq<Table>, schema: string)
    ensures TablesIn(a + b, schema) == TablesIn(a, schema) + TablesIn(b, schema)
    decreases |b|
  {
    if b == [] {
      assert a + b == a;
    } else {
      var b0 := b[..|b| - 1];
      var t := b[|b| - 1];
      var sel := if t.tabschema == schema then [t] else [];
      TablesInAppend(a, b0, schema);
      assert (a + b)[..|a + b| - 1] == a + b0;
      assert (a + b)[|a + b| - 1] == t;
      assert TablesIn(a + b, schema) == TablesIn(a + b0, schema) + sel;
      assert TablesIn(b, schema) == TablesIn(b0, schema) + sel;
    }
  }

  /** `DB.get_schemas`: the schemas that have a table; exactly those whose
      selection is not empty. */
  function Schemas(ts: seq<Table>): (r: set<string>)
    ensures forall s :: s in r <==> TablesIn(ts, s) != []
  {
    var r := set t | t in ts :: t.tabschema;
    assert forall s :: s in r ==> TablesIn(ts, s) != [] by {
      forall s | s in r
        ensures TablesIn(ts, s) != []
      {
        var t :| t in ts && t.tabschema == s;
        assert t in TablesIn(ts, s);
      }
    }
    assert forall s :: TablesIn(ts, s) != [] ==> s in r by {
      forall s | TablesIn(ts, s) != []
        ensures s in r
      {
        var t := TablesIn(ts, s)[0];
        assert t in TablesIn(ts, s);
      }
    }
    r
  }

  /** The texts of all of `xs`, in order; fails when one of them fails. */
  function RenderAll<T>(xs: seq<T>, render: T -> Result<string>): (r: Result<seq<string>>)
    ensures r.Success? <==> forall i :: 0 <= i < |xs| ==> render(xs[i]).Success?
    ensures r.Success? ==>
      |r.value| == |xs| && forall i :: 0 <= i < |xs| ==> r.value[i] == render(xs[i]).value
  {
    if xs == [] then Success([])
    else match render(xs[0])
      case Failure(e) => Failure(e)
      case Success(s) =>
        match RenderAll(xs[1..], render)
        case Failure(e) => Failure(e)
        case Success(rest) => Success([s] + rest)
  }

  /** The texts of all of `xs` separated by blank lines. */
  function Paragraphs<T>(xs: seq<T>, render: T -> Result<string>): Result<string>
  {
    match RenderAll(xs, render)
    case Failure(e) => Failure(e)
    case Success(texts) => Success(Join("\n\n", texts))
  }

  /** Rendering fails exactly when one of the parts fails, and one more part
      adds a blank line and its text to the end. */
  lemma ParagraphsSnoc<T>(xs: seq<T>, x: T, render: T -> Result<string>)
    requires xs != []
    ensures Paragraphs(xs + [x], render).Success? <==> Paragraphs(xs, render).Success? && render(x).Success?
    ensures Paragraphs(xs + [x], render).Success? ==>
      Paragraphs(xs + [x], render).value == Paragraphs(xs, render).value + "\n\n" + render(x).value
  {
    var ys := xs + [x];
    assert forall i :: 0 <= i < |xs| ==> ys[i] == xs[i];
    assert ys[|xs|] == x;
    if Paragraphs(ys, render).Success? {
      var texts := RenderAll(xs, render).value;
      assert RenderAll(ys, render).value == texts + [render(x).value];
      JoinSnoc("\n\n", texts, render(x).value);
    }
  }

  /** `DB.__str__`: the tables' DDL separated by blank lines; it fails when a
      table cannot be rendered. */
  function DbText(ts: seq<Table>): Result<string>
  {
    Paragraphs(ts, TableText)
  }

  // ---------------------------------------------------------------------------
  // The snapshot object
  // ---------------------------------------------------------------------------

  /** `DB`: the table list and the table dictionary. */
  class DB {
    var tables: seq<Table>
    var tabledict: map<Key2, nat>

    /** The dictionary maps each key to the last listed table with that key. */
    ghost predicate Valid()
      reads this
    {
      tabledict == Positions(tables) && InRange(tabledict, |tables|)
    }

    constructor ()
      ensures tables == [] && tabledict == map[] && Valid()
    {
      tables := [];
      tabledict := map[];
    }

    /** Lists a table and stores it in the dictionary under its key. */
    method Store(t: Table)
      requires Valid()
      modifies this
      ensures Valid()
      ensures tables == old(tables) + [t] && tabledict == old(tabledict)[Key(t) := |old(tables)|]
    {
      tables := tables + [t];
      tabledict := tabledict[Key(t) := |tables| - 1];
      assert tables[..|tables| - 1] == old(tables);
    }

    /** Replaces the table at position `p` by one with the same key, as a change
        to a table object reached through the dictionary does. */
    method Update(p: nat, t: Table)
      requires Valid() && p < |tables| && Key(t) == Key(tables[p])
      modifies this
      ensures Valid()
      ensures tables == old(tables)[p := t] && tabledict == old(tabledict)
    {
      ghost var before := tables;
      tables := tables[p := t];
      PositionsKeys(tables, before);
    }

    /** `_read_tables_`: false when the source would raise. */
    method ReadTables(rows: seq<TableRow>) returns (ok: bool)
      requires Valid()
      modifies this
      ensures Valid()
      ensures ok <==> LoadTables(rows).Success?
      ensures ok ==> tables == old(tables) + LoadTables(rows).value
    {
      ScanTablesOk(rows);
      var cur: Option<Table> := None;
      var i := 0;
      while i < |rows|
        invariant 0 <= i <= |rows|
        invariant Valid()
        invariant ScanTables(rows[..i]).Success?
        invariant tables == old(tables) + ScanTables(rows[..i]).value.done
        invariant cur == ScanTables(rows[..i]).value.cur
        invariant i > 0 ==> cur.Some?
      {
        var r := rows[i];
        assert rows[..i + 1][..i] == rows[..i];
        if r.colno == 0 {
          if cur.Some? {
            Store(cur.value);
          }
          cur := Some(AddTableColumn(RowTable(r), r.column));
        } else {
          if cur.None? {
            return false;
          }
          cur := Some(AddTableColumn(cur.value, r.column));
        }
        i := i + 1;
      }
      assert rows[..i] == rows;
      if cur.Some? {
        Store(cur.value);
      }
      ok := true;
    }

    /** `_read_indexes_`: false when the source would raise. */
    method ReadIndexes(rows: seq<IndexRow>) returns (ok: bool)
      requires Valid()
      modifies this
      ensures Valid() && tabledict == old(tabledict)
      ensures ok <==> ScanIndexes(old(tables), old(tabledict), rows).Success?
      ensures ok ==> tables == ScanIndexes(old(tables), old(tabledict), rows).value.tables
    {
      ghost var ts := tables;
      var cur: Option<nat> := None;
      var i := 0;
      while i < |rows|
        invariant 0 <= i <= |rows|
        invariant Valid() && tabledict == old(tabledict) && ts == old(tables)
        invariant ScanIndexes(ts, tabledict, rows[..i]).Success?
        invariant tables == ScanIndexes(ts, tabledict, rows[..i]).value.tables
        invariant cur == ScanIndexes(ts, tabledict, rows[..i]).value.cur
      {
        var r := rows[i];
        assert rows[..i + 1][..i] == rows[..i];
        if r.colseq == 1 {
          if (r.tabschema, r.tabname) !in tabledict {
            ScanIndexesFailFinal(ts, tabledict, rows, i + 1);
            return false;
          }
          var p := tabledict[(r.tabschema, r.tabname)];
          var ix := RowIndex(r);
          if r.colorder == "A" {
            ix := AddIndexColumn(ix, r.colname);
          } else if r.colorder == "D" {
            ix := AddIndexColumn(ix, r.colname + " DESC");
          }
          assert ix == FirstIndex(r);
          Update(p, AddIndex(tables[p], ix));
          cur := Some(p);
        } else {
          if cur.None? {
            ScanIndexesFailFinal(ts, tabledict, rows, i + 1);
            return false;
          }
          Update(cur.value, ExtendLastIndex(tables[cur.value], r));
        }
        assert ScanIndexes(ts, tabledict, rows[..i + 1]) == Success(IndexScan(tables, cur));
        i := i + 1;
      }
      assert rows[..i] == rows;
      ok := true;
    }

    /** `_read_candidate_keys_` and `_read_foreign_keys_`: false when the source
        would raise. */
    method ReadKeys<R, C>(rows: seq<R>, lp: KeyLoop<R, C>) returns (ok: bool)
      requires Valid()
      modifies this
      ensures Valid() && tabledict == old(tabledict)
      ensures ok <==> LoadKeys(old(tables), old(tabledict), rows, lp).Success?
      ensures ok ==> tables == LoadKeys(old(tables), old(tabledict), rows, lp).value
    {
      ghost var ts := tables;
      var pending: Option<(nat, C)> := None;
      var i := 0;
      while i < |rows|
        invariant 0 <= i <= |rows|
        invariant Valid() && tabledict == old(tabledict) && ts == old(tables)
        invariant ScanKeys(ts, tabledict, rows[..i], lp).Success?
        invariant tables == ScanKeys(ts, tabledict, rows[..i], lp).value.tables
        invariant pending == ScanKeys(ts, tabledict, rows[..i], lp).value.pending
      {
        var r := rows[i];
        assert rows[..i + 1][..i] == rows[..i];
        ghost var st := ScanKeys(ts, tabledict, rows[..i], lp).value;
        if lp.opens(r) {
          if pending.Some? {
            var p := pending.value.0;
            Update(p, AddConstraint(tables[p], lp.seal(pending.value.1)));
          }
          if lp.key(r) !in tabledict {
            ScanKeysFailFinal(ts, tabledict, rows, lp, i + 1);
            return false;
          }
          pending := Some((tabledict[lp.key(r)], lp.first(r)));
        } else if pending.None? {
          ScanKeysFailFinal(ts, tabledict, rows, lp, i + 1);
          return false;
        }
        pending := Some((pending.value.0, lp.next(pending.value.1, r)));
        i := i + 1;
      }
      assert rows[..i] == rows;
      if pending.Some? {
        var p := pending.value.0;
        Update(p, AddConstraint(tables[p], lp.seal(pending.value.1)));
      }
      ok := true;
    }

    /** `_read_check_constraints_`: false when the source would raise. */
    method ReadChecks(rows: seq<CheckRow>) returns (ok: bool)
      requires Valid()
      modifies this
      ensures Valid() && tabledict == old(tabledict)
      ensures ok <==> LoadChecks(old(tables), old(tabledict), rows).Success?
      ensures ok ==> tables == LoadChecks(old(tables), old(tabledict), rows).value
    {
      ghost var ts := tables;
      var i := 0;
      while i < |rows|
        invariant 0 <= i <= |rows|
        invariant Valid() && tabledict == old(tabledict) && ts == old(tables)
        invariant LoadChecks(ts, tabledict, rows[..i]).Success?
        invariant tables == LoadChecks(ts, tabledict, rows[..i]).value
      {
        var r := rows[i];
        assert rows[..i + 1][..i] == rows[..i];
        if r.ctype != "S" {
          if (r.tabschema, r.tabname) !in tabledict {
            LoadChecksFailFinal(ts, tabledict, rows, i + 1);
            return false;
          }
          var p := tabledict[(r.tabschema, r.tabname)];
          Update(p, AddConstraint(tables[p], CheckOf(r)));
        }
        i := i + 1;
      }
      assert rows[..i] == rows;
      ok := true;
    }

    /** `_read_constraints_`. */
    method ReadConstraints(c: Catalog) returns (ok: bool)
      requires Valid()
      modifies this
      ensures Valid() && tabledict == old(tabledict)
      ensures ok <==> LoadConstraints(old(tables), old(tabledict), c).Success?
      ensures ok ==> tables == LoadConstraints(old(tables), old(tabledict), c).value
    {
      ok := ReadKeys(c.candidateRows, CandidateLoop());
      if ok {
        ok := ReadKeys(c.foreignRows, ForeignLoop());
        if ok {
          ok := ReadChecks(c.checkRows);
        }
      }
    }

    /** The body of `DB(...)` once connected: tables, indexes, constraints.
        False when the source would raise. */
    method Load(c: Catalog) returns (ok: bool)
      requires Valid() && tables == []
      modifies this
      ensures Valid()
      ensures ok <==> Build(c).Success?
      ensures ok ==> tables == Build(c).value
    {
      ok := ReadTables(c.tableRows);
      if ok {
        ghost var ts := tables;
        assert ts == LoadTables(c.tableRows).value;
        ok := ReadIndexes(c.indexRows);
        if ok {
          ghost var us := tables;
          assert us == ScanIndexes(ts, Positions(ts), c.indexRows).value.tables;
          ok := ReadConstraints(c);
          assert ok ==> tables == LoadConstraints(us, Positions(ts), c).value;
        }
      }
    }

    /** `DB.get_table`: the table stored under a key, which is the last loaded
        table with that key; fails (`KeyError`) for a key no table has. */
    function GetTable(schema: string, name: string): (r: Result<Table>)
      requires Valid()
      reads this
      ensures r.Success? <==> exists i :: 0 <= i < |tables| && Key(tables[i]) == (schema, name)
      ensures r.Success? ==> Key(r.value) == (schema, name)
      ensures r.Success? ==>
        exists i :: 0 <= i < |tables| && tables[i] == r.value && forall j :: i < j < |tables| ==> Key(tables[j]) != (schema, name)
    {
      PositionsDomain(tables);
      PositionsLast(tables);
      if (schema, name) in tabledict then Success(tables[tabledict[(schema, name)]])
      else Failure("KeyError: no such table")
    }
  }
}
