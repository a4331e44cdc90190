/** The DDL regenerator's object graph (`DBGraph` in DBParser/DBParser.py):
    the loaders that fill its dictionaries from catalog rows, the merge of the
    dependency rows into an edge map, and the emission pass that renders every
    object in dependency order followed by identity-column restarts.

    The catalog cursors become sequences of rows. A row is given as the object
    the source builds from it: attached lists (columns, key columns,
    parameters) in a row are ignored and start empty, as in the source's
    constructors. */
module DdlGraph {
  import opened Wrappers
  import opened Text
  import opened TopoSort
  import opened DdlObjects

  // ---------------------------------------------------------------------------
  // Nodes and the edge merge
  // ---------------------------------------------------------------------------

  /** A node of the dependency graph: the kind letter (`T`, `I`, `F`, `C`, `X`
      or the placeholder `DUMMIE`), a qualifier (the specific name of a routine,
      the name of a constraint, otherwise `N/A`), a schema and a name. */
  datatype Node = Node(kind: string, qual: string, schema: string, name: string)

  /** A row of the edge query: a dependent node and one of its dependencies,
      each as four columns that may carry padding. */
  datatype EdgeRow = EdgeRow(
    kind1: string, qual1: string, schema1: string, name1: string,
    kind2: string, qual2: string, schema2: string, name2: string)

  function Dependent(r: EdgeRow): Node
  {
    Node(Strip(r.kind1), Strip(r.qual1), Strip(r.schema1), Strip(r.name1))
  }

  function Dependency(r: EdgeRow): Node
  {
    Node(Strip(r.kind2), Strip(r.qual2), Strip(r.schema2), Strip(r.name2))
  }

  /** The (dependent, dependency) pair of each row, with padding stripped. */
  function Stripped(rows: seq<EdgeRow>): (r: seq<(Node, Node)>)
    decreases |rows|
  {
    if rows == [] then []
    else Stripped(rows[..|rows| - 1]) + [(Dependent(rows[|rows| - 1]), Dependency(rows[|rows| - 1]))]
  }

  /** Reading one more row appends its pair. */
  lemma StrippedStep(rows: seq<EdgeRow>, i: nat)
    requires i < |rows|
    ensures Stripped(rows[..i + 1]) == Stripped(rows[..i]) + [(Dependent(rows[i]), Dependency(rows[i]))]
  {
    assert rows[..i + 1][..i] == rows[..i];
  }

  // ---------------------------------------------------------------------------
  // The loaders' dictionary folds
  // ---------------------------------------------------------------------------

  /** `d[key(row)] = val(row)` for each row in turn: a later row with the same
      key replaces the earlier entry. */
  function Store<R, K(==), V>(m: map<K, V>, rows: seq<R>, key: R -> K, val: R -> V): map<K, V>
    decreases |rows|
  {
    if rows == [] then m
    else Store(m, rows[..|rows| - 1], key, val)[key(rows[|rows| - 1]) := val(rows[|rows| - 1])]
  }

  /** The keys are the starting keys and every row's key. */
  lemma {:induction false} StoreKeys<R, K(!new), V>(m: map<K, V>, rows: seq<R>, key: R -> K, val: R -> V)
    ensures forall k :: k in Store(m, rows, key, val) <==> k in m || exists i :: 0 <= i < |rows| && key(rows[i]) == k
    decreases |rows|
  {
    if rows != [] {
      var init := rows[..|rows| - 1];
      StoreKeys(m, init, key, val);
      assert forall i :: 0 <= i < |init| ==> init[i] == rows[i];
    }
  }

  /** The entry under a row's key comes from the last row with that key. */
  lemma {:induction false} StoreLast<R, K, V>(m: map<K, V>, rows: seq<R>, key: R -> K, val: R -> V, i: nat)
    requires i < |rows| && forall j :: i < j < |rows| ==> key(rows[j]) != key(rows[i])
    ensures key(rows[i]) in Store(m, rows, key, val)
    ensures Store(m, rows, key, val)[key(rows[i])] == val(rows[i])
    decreases |rows|
  {
    var init := rows[..|rows| - 1];
    if i < |rows| - 1 {
      assert forall j :: i < j < |init| ==> init[j] == rows[j];
      StoreLast(m, init, key, val, i);
    }
  }

  /** An entry no row's key names keeps its value. */
  lemma {:induction false} StoreKeeps<R, K, V>(m: map<K, V>, rows: seq<R>, key: R -> K, val: R -> V, k: K)
    requires k in m && forall j :: 0 <= j < |rows| ==> key(rows[j]) != k
    ensures k in Store(m, rows, key, val) && Store(m, rows, key, val)[k] == m[k]
    decreases |rows|
  {
    if rows != [] {
      var init := rows[..|rows| - 1];
      assert forall j :: 0 <= j < |init| ==> init[j] == rows[j];
      StoreKeeps(m, init, key, val, k);
    }
  }

  /** The dictionary's insertion order: a key is listed when first stored, and
      replacing its entry later does not move it. */
  function Record<R, K(==)>(order: seq<K>, rows: seq<R>, key: R -> K): seq<K>
    decreases |rows|
  {
    if rows == [] then order
    else
      var r := Record(order, rows[..|rows| - 1], key);
      var k := key(rows[|rows| - 1]);
      if k in r then r else r + [k]
  }

  /** The order lists the starting keys and every row's key, and lists none
      twice when the starting order does not. */
  lemma {:induction false} RecordSpec<R, K(!new)>(order: seq<K>, rows: seq<R>, key: R -> K)
    ensures var r := Record(order, rows, key);
      (forall k :: k in r <==> k in order || exists i :: 0 <= i < |rows| && key(rows[i]) == k)
      && order <= r
      && ((forall a, b :: 0 <= a < b < |order| ==> order[a] != order[b]) ==>
            forall a, b :: 0 <= a < b < |r| ==> r[a] != r[b])
    decreases |rows|
  {
    if rows != [] {
      var init := rows[..|rows| - 1];
      RecordSpec(order, init, key);
      assert forall i :: 0 <= i < |init| ==> init[i] == rows[i];
    }
  }

  /** For each row whose key is present, `d[key(row)]` absorbs the row (the
      loaders' `add_column` and `add_params` calls); rows for a missing key
      are passed over. */
  function Attach<R, K(==), V>(m: map<K, V>, rows: seq<R>, key: R -> K, add: (V, R) -> V): map<K, V>
    decreases |rows|
  {
    if rows == [] then m
    else
      var r := Attach(m, rows[..|rows| - 1], key, add);
      var k := key(rows[|rows| - 1]);
      if k in r then r[k := add(r[k], rows[|rows| - 1])] else r
  }

  /** Attaching rows adds no entry and removes none. */
  lemma {:induction false} AttachKeys<R, K, V>(m: map<K, V>, rows: seq<R>, key: R -> K, add: (V, R) -> V)
    ensures Attach(m, rows, key, add).Keys == m.Keys
    decreases |rows|
  {
    if rows != [] {
      AttachKeys(m, rows[..|rows| - 1], key, add);
    }
  }

  /** The rows whose key is `k`, in row order. */
  function Matching<R, K(==)>(rows: seq<R>, key: R -> K, k: K): seq<R>
    decreases |rows|
  {
    if rows == [] then []
    else
      var init := Matching(rows[..|rows| - 1], key, k);
      var last := rows[|rows| - 1];
      if key(last) == k then init + [last] else init
  }

  /** `add` applied to each row in turn. */
  function AddAll<R, V>(v: V, rows: seq<R>, add: (V, R) -> V): V
    decreases |rows|
  {
    if rows == [] then v else add(AddAll(v, rows[..|rows| - 1], add), rows[|rows| - 1])
  }

  /** Every entry absorbs exactly the rows with its key, in row order. */
  lemma {:induction false} AttachSpec<R, K, V>(m: map<K, V>, rows: seq<R>, key: R -> K, add: (V, R) -> V, k: K)
    requires k in m
    ensures k in Attach(m, rows, key, add)
    ensures Attach(m, rows, key, add)[k] == AddAll(m[k], Matching(rows, key, k), add)
    decreases |rows|
  {
    AttachKeys(m, rows, key, add);
    if rows != [] {
      var init := rows[..|rows| - 1];
      var last := rows[|rows| - 1];
      AttachSpec(m, init, key, add, k);
      var ms := Matching(init, key, k);
      if key(last) == k {
        assert (ms + [last])[..|ms|] == ms;
      }
    }
  }

  // ---------------------------------------------------------------------------
  // The loaded graph
  // ---------------------------------------------------------------------------

  type Key2 = (string, string)
  type Key3 = (string, string, string)

  /** A row of the index-column query. */
  datatype IndexColumnRow = IndexColumnRow(indschema: string, indname: string, colname: string, colorder: string)

  /** The rows of every catalog query the regenerator reads, in fetch order. */
  datatype Catalog = Catalog(
    tableRows: seq<Table>, columnRows: seq<Column>, viewRows: seq<View>,
    indexRows: seq<Index>, indexColumnRows: seq<IndexColumnRow>,
    sqlRoutineRows: seq<Routine>, externalRoutineRows: seq<Routine>, paramRows: seq<Parameter>,
    checkRows: seq<Constraint>, candidateRows: seq<Constraint>, foreignRows: seq<Constraint>,
    triggerRows: seq<Trigger>, edgeRows: seq<EdgeRow>)

  /** The regenerator's dictionaries once loaded, with the insertion order of
      the table dictionary and the ordered node list. */
  datatype Graph = Graph(
    tables: map<Key2, Relation>, tableOrder: seq<Key2>, indexes: map<Key2, Index>,
    routines: map<Key3, Routine>, constraints: map<Key3, Constraint>,
    triggers: map<Key2, Trigger>, edges: map<Node, set<Node>>, ordered: seq<Node>)

  function TableKey(t: Table): Key2 { (t.schema, t.name) }
  function ViewKey(v: View): Key2 { (v.schema, v.name) }
  function ColumnKey(c: Column): Key2 { (c.schema, c.table) }
  function IndexKey(i: Index): Key2 { (i.schema, i.name) }
  function IndexColumnKey(c: IndexColumnRow): Key2 { (c.indschema, c.indname) }
  function RoutineKey(r: Routine): Key3 { (r.specificname, r.schema, r.name) }
  function ParamKey(p: Parameter): Key3 { (p.specificname, p.schema, p.routine) }
  function ConstraintKey(c: Constraint): Key3 { (c.constname, c.schema, c.table) }
  function TriggerKey(t: Trigger): Key2 { (t.schema, t.name) }

  /** A new `DBTable` starts without columns. */
  function NewTable(t: Table): Relation { TableRel(t.(columns := [])) }

  /** A view's text is stored without blank lines. */
  function NewView(v: View): Relation { ViewRel(v.(text := DropBlankLines(v.text))) }

  /** A new `DBIndex` starts without key or include columns. */
  function NewIndex(i: Index): Index { i.(keys := [], includes := []) }

  /** An SQL-bodied routine's text is stored without blank lines; an external
      routine starts without parameters. */
  function NewRoutine(r: Routine): Routine
  {
    match r
    case SqlRoutine(_, _, _, text, _, _) => r.(text := DropBlankLines(text))
    case ExternalRoutine(_, _, _, _, _, _, _, _, _, _, _, _, _, _, _, _, _, _) => r.(params := [])
  }

  /** A check constraint's text is stored without blank lines. */
  function NewConstraint(c: Constraint): Constraint
  {
    if c.CheckConstraint? then c.(text := DropBlankLines(c.text)) else c
  }

  /** A trigger's text is stored without blank lines. */
  function NewTrigger(t: Trigger): Trigger { t.(text := DropBlankLines(t.text)) }

  /** `add_column` on the stored table. Columns are read before any view is
      stored, so the view case does not arise in the loader. */
  function AddColumnTo(rel: Relation, c: Column): Relation
  {
    if rel.TableRel? then TableRel(AddColumn(rel.table, c)) else rel
  }

  function AddIndexColumnRow(i: Index, c: IndexColumnRow): Index
  {
    AddIndexColumn(i, c.colname, c.colorder)
  }

  /** `_read_tables_` on the dictionary `m`: tables, their columns, then
      views, in one dictionary. */
  function LoadTables(m: map<Key2, Relation>, cat: Catalog): map<Key2, Relation>
  {
    var tables := Store(m, cat.tableRows, TableKey, NewTable);
    var withColumns := Attach(tables, cat.columnRows, ColumnKey, AddColumnTo);
    Store(withColumns, cat.viewRows, ViewKey, NewView)
  }

  /** The table dictionary's insertion order after `_read_tables_`. */
  function TableOrder(order: seq<Key2>, cat: Catalog): seq<Key2>
  {
    Record(Record(order, cat.tableRows, TableKey), cat.viewRows, ViewKey)
  }

  /** Every index-column row names a loaded index. */
  predicate IndexesKnown(indexes: map<Key2, Index>, rows: seq<IndexColumnRow>)
  {
    forall i :: 0 <= i < |rows| ==> IndexColumnKey(rows[i]) in indexes
  }

  /** `_read_indexes_` on the dictionary `m`: fails when an index-column row
      names an index that was not read (the dictionary lookup raises). */
  function LoadIndexes(m: map<Key2, Index>, cat: Catalog): Option<map<Key2, Index>>
  {
    var indexes := Store(m, cat.indexRows, IndexKey, NewIndex);
    if IndexesKnown(indexes, cat.indexColumnRows)
    then Some(Attach(indexes, cat.indexColumnRows, IndexColumnKey, AddIndexColumnRow))
    else None
  }

  /** `_read_routines_` on the dictionary `m`: SQL-bodied routines, external
      routines, then the external routines' parameters (a parameter of an
      unknown routine is passed over). */
  function LoadRoutines(m: map<Key3, Routine>, cat: Catalog): map<Key3, Routine>
  {
    var sql := Store(m, cat.sqlRoutineRows, RoutineKey, NewRoutine);
    var all := Store(sql, cat.externalRoutineRows, RoutineKey, NewRoutine);
    Attach(all, cat.paramRows, ParamKey, AddParam)
  }

  /** `_read_constraints_` on the dictionary `m`: checks, candidate keys, then
      foreign keys. */
  function LoadConstraints(m: map<Key3, Constraint>, cat: Catalog): map<Key3, Constraint>
  {
    var checks := Store(m, cat.checkRows, ConstraintKey, NewConstraint);
    var candidates := Store(checks, cat.candidateRows, ConstraintKey, NewConstraint);
    Store(candidates, cat.foreignRows, ConstraintKey, NewConstraint)
  }

  function LoadTriggers(m: map<Key2, Trigger>, cat: Catalog): map<Key2, Trigger>
  {
    Store(m, cat.triggerRows, TriggerKey, NewTrigger)
  }

  /** The `DBGraph` constructor: every loader in turn, then the edges and
      their ordering. It fails on an unknown index and, exactly when the
      dependency rows hold a cycle, on the ordering (`BuildFailsIffCyclic`). */
  function Build(cat: Catalog): (r: Result<Graph>)
    ensures r.Success? <==> LoadIndexes(map[], cat).Some? && OrderedNodes(Stripped(cat.edgeRows)).Some?
  {
    match LoadIndexes(map[], cat)
    case None => Failure("KeyError: index column of an unknown index")
    case Some(indexes) =>
      var ps := Stripped(cat.edgeRows);
      match OrderedNodes(ps)
      case None => Failure("CircularDependencyError")
      case Some(o) =>
        Success(Graph(LoadTables(map[], cat), TableOrder([], cat), indexes, LoadRoutines(map[], cat),
                      LoadConstraints(map[], cat), LoadTriggers(map[], cat), MergeEdges(ps), o))
  }

  /** With the indexes loaded, the constructor fails exactly when the
      dependency rows, self-dependencies dropped, hold a cycle. */
  lemma BuildFailsIffCyclic(cat: Catalog)
    requires LoadIndexes(map[], cat).Some?
    ensures Build(cat).Failure? <==> Cyclic(Stripped(cat.edgeRows))
  {
    OrderedNodesFailsIffCyclic(Stripped(cat.edgeRows));
  }

  /** Attaching column rows to a table appends them in row order. */
  lemma {:induction false} AddColumnsInOrder(t: Table, cs: seq<Column>)
    ensures AddAll(TableRel(t), cs, AddColumnTo) == TableRel(t.(columns := t.columns + cs))
    decreases |cs|
  {
    if cs != [] {
      var init := cs[..|cs| - 1];
      AddColumnsInOrder(t, init);
      assert init + [cs[|cs| - 1]] == cs;
    }
  }

  /** A table that no view replaces holds the last table row under its key,
      with exactly the column rows naming that table, in row order. */
  lemma TableColumnsLoaded(cat: Catalog, i: nat)
    requires i < |cat.tableRows|
    requires forall j :: i < j < |cat.tableRows| ==> TableKey(cat.tableRows[j]) != TableKey(cat.tableRows[i])
    requires forall j :: 0 <= j < |cat.viewRows| ==> ViewKey(cat.viewRows[j]) != TableKey(cat.tableRows[i])
    ensures var k := TableKey(cat.tableRows[i]);
      k in LoadTables(map[], cat)
      && LoadTables(map[], cat)[k] == TableRel(cat.tableRows[i].(columns := Matching(cat.columnRows, ColumnKey, k)))
  {
    var k := TableKey(cat.tableRows[i]);
    var tables := Store(map[], cat.tableRows, TableKey, NewTable);
    StoreLast(map[], cat.tableRows, TableKey, NewTable, i);
    var withColumns := Attach(tables, cat.columnRows, ColumnKey, AddColumnTo);
    AttachSpec(tables, cat.columnRows, ColumnKey, AddColumnTo, k);
    AddColumnsInOrder(cat.tableRows[i].(columns := []), Matching(cat.columnRows, ColumnKey, k));
    AttachKeys(tables, cat.columnRows, ColumnKey, AddColumnTo);
    StoreKeeps(withColumns, cat.viewRows, ViewKey, NewView, k);
  }

  // ---------------------------------------------------------------------------
  // Emission
  // ---------------------------------------------------------------------------

  /** The nodes on which the emission pass stops: an unknown or column-less
      index (`sys.exit` or an index error), an unknown trigger (the lookup
      raises), a table without columns (rendering its first column raises),
      and any kind letter the pass does not know. */
  predicate Fatal(g: Graph, n: Node)
  {
    var k2 := (n.schema, n.name);
    match n.kind
    case "DUMMIE" => false
    case "T" => k2 in g.tables && g.tables[k2].TableRel? && g.tables[k2].table.columns == []
    case "I" => k2 !in g.indexes || g.indexes[k2].keys == []
    case "F" => false
    case "C" => false
    case "X" => k2 !in g.triggers
    case _ => true
  }

  /** The text `__str__` adds for one ordered node. The placeholder root adds
      nothing; a table, routine or constraint that was not loaded is reported
      and adds nothing. */
  function EmitNode(g: Graph, n: Node): (r: Result<string>)
    ensures r.Failure? <==> Fatal(g, n)
    ensures n.kind == "DUMMIE" ==> r == Success("")
    ensures n.kind == "T" && (n.schema, n.name) !in g.tables ==> r == Success("")
    ensures n.kind == "F" && (n.qual, n.schema, n.name) !in g.routines ==> r == Success("")
    ensures n.kind == "C" && (n.qual, n.schema, n.name) !in g.constraints ==> r == Success("")
  {
    var k2 := (n.schema, n.name);
    var k3 := (n.qual, n.schema, n.name);
    match n.kind
    case "DUMMIE" => Success("")
    case "T" =>
      if k2 !in g.tables then Success("")
      else (
        match g.tables[k2]
        case TableRel(t) =>
          if t.columns == [] then Failure("IndexError: table without columns")
          else Success(TableDdl(t) + TableRemarks(t))
        case ViewRel(v) => Success(ViewDdl(v) + ViewRemarks(v)))
    case "I" =>
      if k2 !in g.indexes then Failure("INDEX ERROR")
      else
        var i := g.indexes[k2];
        if i.keys == [] then Failure("IndexError: index without key columns")
        else Success(IndexDdl(i) + IndexRemarks(i))
    case "F" =>
      if k3 !in g.routines then Success("")
      else (
        var r := g.routines[k3];
        match r
        case SqlRoutine(_, _, _, _, _, _) => Success(RoutineText(r.text, r.specificname) + RoutineRemarks(r))
        case ExternalRoutine(_, _, _, _, _, _, _, _, _, _, _, _, _, _, _, _, _, _) =>
          Success(ExternalRoutineDdl(r) + RoutineRemarks(r)))
    case "C" =>
      if k3 !in g.constraints then Success("")
      else Success(ConstraintDdl(g.constraints[k3]) + ConstraintRemarks(g.constraints[k3]))
    case "X" =>
      if k2 !in g.triggers then Failure("KeyError: trigger")
      else Success(TriggerDdl(g.triggers[k2]) + TriggerRemarks(g.triggers[k2]))
    case _ => Failure("UNMATCHED ERROR")
  }

  /** The node texts concatenated in order; the first fatal node stops the pass. */
  function EmitNodes(g: Graph, ns: seq<Node>): Result<string>
    decreases |ns|
  {
    if ns == [] then Success("")
    else
      match EmitNodes(g, ns[..|ns| - 1])
      case Failure(e) => Failure(e)
      case Success(s) =>
        match EmitNode(g, ns[|ns| - 1])
        case Failure(e) => Failure(e)
        case Success(t) => Success(s + t)
  }

  /** The pass fails exactly when some node is fatal. */
  lemma {:induction false} EmitNodesFails(g: Graph, ns: seq<Node>)
    ensures EmitNodes(g, ns).Failure? <==> exists i :: 0 <= i < |ns| && Fatal(g, ns[i])
    decreases |ns|
  {
    if ns != [] {
      var init := ns[..|ns| - 1];
      EmitNodesFails(g, init);
      assert forall i :: 0 <= i < |init| ==> init[i] == ns[i];
      if exists i :: 0 <= i < |ns| && Fatal(g, ns[i]) {
        var i :| 0 <= i < |ns| && Fatal(g, ns[i]);
        if i < |init| {
          assert Fatal(g, init[i]);
        }
      }
    }
  }

  /** Once the pass has failed, later nodes do not matter. */
  lemma {:induction false} EmitNodesStops(g: Graph, ns: seq<Node>, more: seq<Node>)
    requires EmitNodes(g, ns).Failure?
    ensures EmitNodes(g, ns + more) == EmitNodes(g, ns)
    decreases |more|
  {
    if more != [] {
      var init := more[..|more| - 1];
      EmitNodesStops(g, ns, init);
      assert (ns + more)[..|ns + more| - 1] == ns + init;
    } else {
      assert ns + more == ns;
    }
  }

  /** The nodes other than the placeholder root. */
  function WithoutDummie(ns: seq<Node>): (r: seq<Node>)
    ensures forall n :: n in r <==> n in ns && n.kind != "DUMMIE"
    decreases |ns|
  {
    if ns == [] then []
    else
      var init := WithoutDummie(ns[..|ns| - 1]);
      var last := ns[|ns| - 1];
      assert forall n :: n in ns <==> n in ns[..|ns| - 1] || n == last;
      if last.kind == "DUMMIE" then init else init + [last]
  }

  /** Dropping the placeholder nodes does not change what the pass emits. */
  lemma {:induction false} DummieIgnored(g: Graph, ns: seq<Node>)
    ensures EmitNodes(g, WithoutDummie(ns)) == EmitNodes(g, ns)
    decreases |ns|
  {
    if ns != [] {
      var init := ns[..|ns| - 1];
      var last := ns[|ns| - 1];
      DummieIgnored(g, init);
      if last.kind != "DUMMIE" {
        assert ns == init + [last];
        SameEmitSnoc(g, WithoutDummie(init), init, last);
      } else {
        DummieEmitsNothing(g, ns);
      }
    }
  }

  /** Appending one node to two lists that emit the same text keeps them equal. */
  lemma SameEmitSnoc(g: Graph, a: seq<Node>, b: seq<Node>, n: Node)
    requires EmitNodes(g, a) == EmitNodes(g, b)
    ensures EmitNodes(g, a + [n]) == EmitNodes(g, b + [n])
  {
    assert (a + [n])[..|a|] == a;
    assert (b + [n])[..|b|] == b;
  }

  /** A trailing DUMMIE node adds nothing to the emitted text. */
  lemma DummieEmitsNothing(g: Graph, ns: seq<Node>)
    requires ns != [] && ns[|ns| - 1].kind == "DUMMIE"
    ensures EmitNodes(g, ns) == EmitNodes(g, ns[..|ns| - 1])
  {
    assert EmitNode(g, ns[|ns| - 1]) == Success("");
    match EmitNodes(g, ns[..|ns| - 1])
    case Failure(_) =>
    case Success(s) => assert s + "" == s;
  }

  /** The identity-column restart for the table dictionary entry under `k`:
      present exactly for a table (never a view) with an identity column, and
      naming its first identity column. */
  function RestartLine(g: Graph, k: Key2, nextVal: (string, string, string) -> int): (r: string)
    ensures r != "" <==>
      k in g.tables && g.tables[k].TableRel? && IdentityColumn(g.tables[k].table.columns).Some?
    ensures r != "" ==>
      var c := IdentityColumn(g.tables[k].table.columns).value;
      ("\n ALTER TABLE " + c.schema + "." + c.table + " ALTER COLUMN " + c.colname + " RESTART WITH ") <= r
      && EndsWith(r, IntToString(nextVal(c.schema, c.table, c.colname)) + " @\n")
  {
    if k in g.tables && g.tables[k].TableRel? then
      match IdentityColumn(g.tables[k].table.columns)
      case None => ""
      case Some(c) =>
        var head := "\n ALTER TABLE " + c.schema + "." + c.table + " ALTER COLUMN " + c.colname + " RESTART WITH ";
        var tail := IntToString(nextVal(c.schema, c.table, c.colname)) + " @\n";
        Halves(head, tail);
        head + tail
    else ""
  }

  /** The restarts for the dictionary entries in insertion order. */
  function RestartText(g: Graph, order: seq<Key2>, nextVal: (string, string, string) -> int): string
    decreases |order|
  {
    if order == [] then ""
    else RestartText(g, order[..|order| - 1], nextVal) + RestartLine(g, order[|order| - 1], nextVal)
  }

  /** `DBGraph.__str__`: every ordered node's text, then the restarts. */
  function GraphText(g: Graph, nextVal: (string, string, string) -> int): Result<string>
  {
    match EmitNodes(g, g.ordered)
    case Failure(e) => Failure(e)
    case Success(s) => Success(s + RestartText(g, g.tableOrder, nextVal))
  }

  /** A graph holding what every loader reads from empty dictionaries is what
      `Build` returns once the edges are ordered. */
  lemma BuildLoaded(cat: Catalog, g: Graph)
    requires g.tables == LoadTables(map[], cat) && g.tableOrder == TableOrder([], cat)
    requires LoadIndexes(map[], cat) == Some(g.indexes)
    requires g.routines == LoadRoutines(map[], cat)
    requires g.constraints == LoadConstraints(map[], cat)
    requires g.triggers == LoadTriggers(map[], cat)
    requires g.edges == MergeEdges(Stripped(cat.edgeRows))
    ensures Build(cat).Success? <==> OrderedNodes(Stripped(cat.edgeRows)).Some?
    ensures OrderedNodes(Stripped(cat.edgeRows)) == Some(g.ordered) ==> Build(cat) == Success(g)
  {
  }

  // ---------------------------------------------------------------------------
  // The loader loops
  // ---------------------------------------------------------------------------

  /** A fetch loop that stores every row under its key. */
  method StoreRows<R, K(==), V>(m: map<K, V>, rows: seq<R>, key: R -> K, val: R -> V) returns (r: map<K, V>)
    ensures r == Store(m, rows, key, val)
  {
    r := m;
    var i := 0;
    while i < |rows|
      invariant 0 <= i <= |rows|
      invariant r == Store(m, rows[..i], key, val)
    {
      assert rows[..i + 1][..i] == rows[..i];
      r := r[key(rows[i]) := val(rows[i])];
      i := i + 1;
    }
    assert rows[..i] == rows;
  }

  /** A fetch loop that hands every row to the entry under its key, passing
      over rows whose key is missing. */
  method AttachRows<R, K(==), V>(m: map<K, V>, rows: seq<R>, key: R -> K, add: (V, R) -> V) returns (r: map<K, V>)
    ensures r == Attach(m, rows, key, add)
  {
    r := m;
    var i := 0;
    while i < |rows|
      invariant 0 <= i <= |rows|
      invariant r == Attach(m, rows[..i], key, add)
    {
      assert rows[..i + 1][..i] == rows[..i];
      var k := key(rows[i]);
      if k in r {
        r := r[k := add(r[k], rows[i])];
      }
      i := i + 1;
    }
    assert rows[..i] == rows;
  }

  /** The regenerator's object graph. Each dictionary of the source is a map
      field; the table dictionary's insertion order is kept beside it. */
  class DBGraph {
    var tables: map<Key2, Relation>
    var tableOrder: seq<Key2>
    var indexes: map<Key2, Index>
    var routines: map<Key3, Routine>
    var constraints: map<Key3, Constraint>
    var triggers: map<Key2, Trigger>
    var edges: map<Node, set<Node>>
    var ordered: seq<Node>

    function State(): Graph
      reads this
    {
      Graph(tables, tableOrder, indexes, routines, constraints, triggers, edges, ordered)
    }

    constructor ()
      ensures State() == Graph(map[], [], map[], map[], map[], map[], map[], [])
    {
      tables, tableOrder, indexes, routines := map[], [], map[], map[];
      constraints, triggers, edges, ordered := map[], map[], map[], [];
    }

    /** `_read_tables_`: the table rows, their columns, then the view rows. */
    method ReadTables(cat: Catalog)
      modifies this`tables, this`tableOrder
      ensures tables == LoadTables(old(tables), cat)
      ensures tableOrder == TableOrder(old(tableOrder), cat)
    {
      var rows := cat.tableRows;
      var i := 0;
      while i < |rows|
        invariant 0 <= i <= |rows|
        invariant tables == Store(old(tables), rows[..i], TableKey, NewTable)
        invariant tableOrder == Record(old(tableOrder), rows[..i], TableKey)
      {
        assert rows[..i + 1][..i] == rows[..i];
        var k := TableKey(rows[i]);
        tables := tables[k := NewTable(rows[i])];
        if k !in tableOrder {
          tableOrder := tableOrder + [k];
        }
        i := i + 1;
      }
      assert rows[..i] == rows;
      ReadColumns(cat.columnRows);
      var views := cat.viewRows;
      ghost var before := tables;
      ghost var orderBefore := tableOrder;
      i := 0;
      while i < |views|
        invariant 0 <= i <= |views|
        invariant tables == Store(before, views[..i], ViewKey, NewView)
        invariant tableOrder == Record(orderBefore, views[..i], ViewKey)
      {
        assert views[..i + 1][..i] == views[..i];
        var k := ViewKey(views[i]);
        tables := tables[k := NewView(views[i])];
        if k !in tableOrder {
          tableOrder := tableOrder + [k];
        }
        i := i + 1;
      }
      assert views[..i] == views;
    }

    /** `_read_columns_` */
    method ReadColumns(rows: seq<Column>)
      modifies this`tables
      ensures tables == Attach(old(tables), rows, ColumnKey, AddColumnTo)
    {
      tables := AttachRows(tables, rows, ColumnKey, AddColumnTo);
    }

    /** `_read_indexes_`; false when an index column names an unknown index. */
    method ReadIndexes(cat: Catalog) returns (ok: bool)
      modifies this`indexes
      ensures ok <==> LoadIndexes(old(indexes), cat).Some?
      ensures ok ==> indexes == LoadIndexes(old(indexes), cat).value
    {
      indexes := StoreRows(indexes, cat.indexRows, IndexKey, NewIndex);
      ok := ReadIndexColumns(cat.indexColumnRows);
    }

    /** `_read_index_columns` */
    method ReadIndexColumns(rows: seq<IndexColumnRow>) returns (ok: bool)
      modifies this`indexes
      ensures ok <==> IndexesKnown(old(indexes), rows)
      ensures ok ==> indexes == Attach(old(indexes), rows, IndexColumnKey, AddIndexColumnRow)
    {
      var i := 0;
      while i < |rows|
        invariant 0 <= i <= |rows|
        invariant indexes == Attach(old(indexes), rows[..i], IndexColumnKey, AddIndexColumnRow)
        invariant forall j :: 0 <= j < i ==> IndexColumnKey(rows[j]) in old(indexes)
      {
        assert rows[..i + 1][..i] == rows[..i];
        AttachKeys(old(indexes), rows[..i], IndexColumnKey, AddIndexColumnRow);
        var k := IndexColumnKey(rows[i]);
        if k !in indexes {
          return false;
        }
        indexes := indexes[k := AddIndexColumnRow(indexes[k], rows[i])];
        i := i + 1;
      }
      assert rows[..i] == rows;
      return true;
    }

    /** `_read_routines_` and `_read_external_routine_params_` */
    method ReadRoutines(cat: Catalog)
      modifies this`routines
      ensures routines == LoadRoutines(old(routines), cat)
    {
      routines := StoreRows(routines, cat.sqlRoutineRows, RoutineKey, NewRoutine);
      routines := StoreRows(routines, cat.externalRoutineRows, RoutineKey, NewRoutine);
      routines := AttachRows(routines, cat.paramRows, ParamKey, AddParam);
    }

    /** `_read_constraints_` */
    method ReadConstraints(cat: Catalog)
      modifies this`constraints
      ensures constraints == LoadConstraints(old(constraints), cat)
    {
      constraints := StoreRows(constraints, cat.checkRows, ConstraintKey, NewConstraint);
      constraints := StoreRows(constraints, cat.candidateRows, ConstraintKey, NewConstraint);
      constraints := StoreRows(constraints, cat.foreignRows, ConstraintKey, NewConstraint);
    }

    /** `_read_triggers_` */
    method ReadTriggers(cat: Catalog)
      modifies this`triggers
      ensures triggers == LoadTriggers(old(triggers), cat)
    {
      triggers := StoreRows(triggers, cat.triggerRows, TriggerKey, NewTrigger);
    }

    /** `_read_edges_`: merges the rows into the edge map (a row repeating the
        previous row's dependent adds to the entry that row created), then
        orders the nodes; false exactly when the rows hold a cycle. */
    method ReadEdges(rows: seq<EdgeRow>) returns (ok: bool)
      modifies this`edges, this`ordered
      ensures edges == MergeEdges(Stripped(rows))
      ensures ok <==> OrderedNodes(Stripped(rows)).Some?
      ensures ok <==> !Cyclic(Stripped(rows))
      ensures ok ==> ordered == OrderedNodes(Stripped(rows)).value
    {
      edges := map[];
      var nodes: seq<Node> := [];
      var lastNode: Option<Node> := None;
      var i := 0;
      while i < |rows|
        invariant 0 <= i <= |rows|
        invariant edges == MergeEdges(Stripped(rows[..i]))
        invariant nodes == NodesOf(Stripped(rows[..i]))
        invariant lastNode.Some? ==> lastNode.value in edges
      {
        var n1 := Dependent(rows[i]);
        var n2 := Dependency(rows[i]);
        StrippedStep(rows, i);
        MergeEdgesStep(Stripped(rows[..i]), n1, n2);
        if lastNode == Some(n1) {
          edges := edges[n1 := edges[n1] + {n2}];
        } else {
          if n1 in edges {
            edges := edges[n1 := edges[n1] + {n2}];
          } else {
            edges := edges[n1 := {} + {n2}];
          }
          lastNode := Some(n1);
        }
        nodes := AddNew(AddNew(nodes, n1), n2);
        i := i + 1;
      }
      assert rows[..i] == rows;
      OrderedNodesFailsIffCyclic(Stripped(rows));
      match Order(nodes, edges)
      case None =>
        ok := false;
      case Some(o) =>
        ordered := o;
        ok := true;
    }

    /** The `DBGraph` constructor's loading sequence, each dictionary starting
        empty; false when it would raise. */
    method Load(cat: Catalog) returns (ok: bool)
      modifies this
      ensures ok <==> Build(cat).Success?
      ensures ok ==> State() == Build(cat).value
    {
      ok := ReadRelations(cat);
      if ok {
        ReadProgramObjects(cat);
        ok := LoadEdges(cat);
      }
    }

    /** The last step of `Load`: once every object is read, reading the
        dependency rows decides the build. */
    method LoadEdges(cat: Catalog) returns (ok: bool)
      modifies this`edges, this`ordered
      requires tables == LoadTables(map[], cat) && tableOrder == TableOrder([], cat)
      requires LoadIndexes(map[], cat) == Some(indexes)
      requires routines == LoadRoutines(map[], cat)
      requires constraints == LoadConstraints(map[], cat)
      requires triggers == LoadTriggers(map[], cat)
      ensures ok <==> Build(cat).Success?
      ensures ok ==> State() == Build(cat).value
    {
      ok := ReadEdges(cat.edgeRows);
      BuildLoaded(cat, State());
    }

    /** The table and index loaders. */
    method ReadRelations(cat: Catalog) returns (ok: bool)
      modifies this`tables, this`tableOrder, this`indexes
      ensures tables == LoadTables(map[], cat) && tableOrder == TableOrder([], cat)
      ensures ok <==> LoadIndexes(map[], cat).Some?
      ensures ok ==> indexes == LoadIndexes(map[], cat).value
    {
      tables, tableOrder, indexes := map[], [], map[];
      ReadTables(cat);
      ok := ReadIndexes(cat);
    }

    /** The routine, constraint and trigger loaders. */
    method ReadProgramObjects(cat: Catalog)
      modifies this`routines, this`constraints, this`triggers
      ensures routines == LoadRoutines(map[], cat)
      ensures constraints == LoadConstraints(map[], cat)
      ensures triggers == LoadTriggers(map[], cat)
    {
      routines, constraints, triggers := map[], map[], map[];
      ReadRoutines(cat);
      ReadConstraints(cat);
      ReadTriggers(cat);
    }

    /** One node's share of `__str__`. */
    method EmitOne(n: Node) returns (r: Result<string>)
      ensures r == EmitNode(State(), n)
    {
      var k2 := (n.schema, n.name);
      var k3 := (n.qual, n.schema, n.name);
      if n.kind == "F" && k3 in routines && routines[k3].SqlRoutine? {
        var x := routines[k3];
        var text := RenderRoutine(x.text, x.specificname);
        return Success(text + RoutineRemarks(x));
      }
      r := EmitNode(State(), n);
    }

    /** The identity-column pass of `__str__`. */
    method Restarts(nextVal: (string, string, string) -> int) returns (text: string)
      ensures text == RestartText(State(), tableOrder, nextVal)
    {
      text := "";
      var j := 0;
      while j < |tableOrder|
        invariant 0 <= j <= |tableOrder|
        invariant text == RestartText(State(), tableOrder[..j], nextVal)
      {
        assert tableOrder[..j + 1][..j] == tableOrder[..j];
        var k := tableOrder[j];
        ghost var line := RestartLine(State(), k, nextVal);
        if k in tables && tables[k].TableRel? {
          var c := IdentityColumn(tables[k].table.columns);
          if c.Some? {
            var col := c.value;
            var head := "\n ALTER TABLE " + col.schema + "." + col.table + " ALTER COLUMN " + col.colname + " RESTART WITH ";
            var tail := IntToString(nextVal(col.schema, col.table, col.colname)) + " @\n";
            assert line == head + tail;
            text := text + (head + tail);
          } else {
            assert line == "";
            assert text + "" == text;
          }
        } else {
          assert line == "";
          assert text + "" == text;
        }
        j := j + 1;
      }
      assert tableOrder[..j] == tableOrder;
    }

    /** `__str__`: the ordered nodes' texts, then a restart for each table
        with an identity column, in the table dictionary's order.
        `nextVal` stands for the query of the column's next value. */
    method ToText(nextVal: (string, string, string) -> int) returns (res: Result<string>)
      ensures res == GraphText(State(), nextVal)
    {
      var s := "";
      var i := 0;
      while i < |ordered|
        invariant 0 <= i <= |ordered|
        invariant EmitNodes(State(), ordered[..i]) == Success(s)
      {
        assert ordered[..i + 1][..i] == ordered[..i];
        var r := EmitOne(ordered[i]);
        if r.Failure? {
          EmitNodesStops(State(), ordered[..i + 1], ordered[i + 1..]);
          assert ordered[..i + 1] + ordered[i + 1..] == ordered;
          return Failure(r.error);
        }
        s := s + r.value;
        i := i + 1;
      }
      assert ordered[..i] == ordered;
      var restarts := Restarts(nextVal);
      res := Success(s + restarts);
    }
  }
}
