/** The export/load script writer (DBParser/DBMove.py): it orders the tables
    of a database so that every table comes after the tables its foreign keys
    refer to, then writes an export script that exports every table and a load
    script that loads them, in that order, into the target database.

    The catalog queries are inputs: `edgeRows` are the rows of the edge query
    (a table and a table it refers to, or `dummy`), `skipRows` the tables that
    have an identity column generated by default, and `dbType` the database
    type. The two files are returned as strings. */
module DbMove {
  import opened Wrappers
  import opened Text
  import opened TopoSort

  /** The placeholder the edge query gives a table without references. */
  const Dummy: string := "dummy"

  // ---------------------------------------------------------------------------
  // The edge query and the edge map
  // ---------------------------------------------------------------------------

  /** The references of `t`: the (table, referenced table) pairs that start at it. */
  function ReferencesOf(t: string, refs: seq<(string, string)>): (r: seq<(string, string)>)
    ensures forall p :: p in r <==> p in refs && p.0 == t
  {
    if refs == [] then []
    else ReferencesOf(t, refs[..|refs| - 1]) + (if refs[|refs| - 1].0 == t then [refs[|refs| - 1]] else [])
  }

  /** The rows of the edge query: the outer join of the listed tables with
      their references, so a table without references comes out once, paired
      with `dummy`. */
  function EdgeRows(tables: seq<string>, refs: seq<(string, string)>): seq<(string, string)>
  {
    if tables == [] then []
    else
      var t := tables[|tables| - 1];
      var rs := ReferencesOf(t, refs);
      EdgeRows(tables[..|tables| - 1], refs) + (if rs == [] then [(t, Dummy)] else rs)
  }

  /** A row of the edge query pairs a listed table with a table it refers to,
      or with `dummy` when it refers to none. */
  lemma {:induction false} EdgeRowsSpec(tables: seq<string>, refs: seq<(string, string)>)
    ensures forall p :: p in EdgeRows(tables, refs) <==>
      p.0 in tables && (p in refs || (p.1 == Dummy && ReferencesOf(p.0, refs) == []))
  {
    if tables != [] {
      var init := tables[..|tables| - 1];
      var t := tables[|tables| - 1];
      EdgeRowsSpec(init, refs);
      assert tables == init + [t];
      var rs := ReferencesOf(t, refs);
      forall p | p in EdgeRows(tables, refs)
        ensures p.0 in tables && (p in refs || (p.1 == Dummy && ReferencesOf(p.0, refs) == []))
      {
      }
      forall p: (string, string) | p.0 in tables && (p in refs || (p.1 == Dummy && ReferencesOf(p.0, refs) == []))
        ensures p in EdgeRows(tables, refs)
      {
        if p.0 != t {
          assert p.0 in init;
        } else if p in refs {
          assert p in rs;
        }
      }
    }
  }

  /** The edge map sends every listed table, and nothing else, to the set of
      tables it refers to, or to `{dummy}` when it refers to none; the order of
      the rows and repeated references do not matter. */
  lemma EdgeMapOfTables(tables: seq<string>, refs: seq<(string, string)>)
    ensures var m := MergeEdges(EdgeRows(tables, refs));
      (forall t :: t in m <==> t in tables)
      && (forall t :: t in m && ReferencesOf(t, refs) == [] ==> m[t] == {Dummy})
      && (forall t, u :: t in m && ReferencesOf(t, refs) != [] ==> (u in m[t] <==> (t, u) in refs))
  {
    var rows := EdgeRows(tables, refs);
    var m := MergeEdges(rows);
    EdgeRowsSpec(tables, refs);
    MergeEdgesSpec(rows);
    forall t | t in tables
      ensures t in m
    {
      if ReferencesOf(t, refs) == [] {
        assert (t, Dummy) in rows;
      } else {
        var p := ReferencesOf(t, refs)[0];
        assert p in refs && p.0 == t;
        assert (t, p.1) in rows;
      }
    }
    forall t | t in m && ReferencesOf(t, refs) == []
      ensures m[t] == {Dummy}
    {
      assert (t, Dummy) in rows;
      forall u | u in m[t]
        ensures u == Dummy
      {
        assert (t, u) !in refs;
      }
    }
  }

  /** The fetch loop that fills `edges`: a table seen for the first time gets
      a new set. The loop also lists the nodes in order of first appearance,
      which the ordering takes in place of the dictionary's own order. */
  method ReadEdges(rows: seq<(string, string)>) returns (edges: map<string, set<string>>, nodes: seq<string>)
    ensures edges == MergeEdges(rows) && nodes == NodesOf(rows)
  {
    edges := map[];
    nodes := [];
    for i := 0 to |rows|
      invariant edges == MergeEdges(rows[..i]) && nodes == NodesOf(rows[..i])
    {
      var n1, n2 := rows[i].0, rows[i].1;
      assert rows[..i + 1] == rows[..i] + [(n1, n2)];
      MergeEdgesStep(rows[..i], n1, n2);
      ghost var before := edges;
      if n1 in edges {
        edges := edges[n1 := edges[n1] + {n2}];
      } else {
        assert {} + {n2} == {n2};
        edges := edges[n1 := {n2}];
      }
      assert edges == before[n1 := (if n1 in before then before[n1] else {}) + {n2}];
      nodes := AddNew(AddNew(nodes, n1), n2);
    }
    assert rows[..|rows|] == rows;
  }

  // ---------------------------------------------------------------------------
  // Lines of the two scripts
  // ---------------------------------------------------------------------------

  /** The nodes that are tables: every node but `dummy`, in order. */
  function Tables(sorted: seq<string>): (r: seq<string>)
    ensures |r| <= |sorted|
  {
    if sorted == [] then []
    else Tables(sorted[..|sorted| - 1]) + (if sorted[|sorted| - 1] == Dummy then [] else [sorted[|sorted| - 1]])
  }

  /** `dummy` is dropped and every other node kept, with its order. */
  lemma {:induction false} TablesSpec(sorted: seq<string>)
    ensures Dummy !in Tables(sorted)
    ensures forall t :: t in Tables(sorted) <==> t in sorted && t != Dummy
    ensures forall i, j :: 0 <= i < j < |sorted| && sorted[i] != sorted[j] && sorted[i] != Dummy && sorted[j] != Dummy ==>
      exists i', j' :: 0 <= i' < j' < |Tables(sorted)| && Tables(sorted)[i'] == sorted[i] && Tables(sorted)[j'] == sorted[j]
  {
    if sorted != [] {
      var init := sorted[..|sorted| - 1];
      var x := sorted[|sorted| - 1];
      TablesSpec(init);
      assert sorted == init + [x];
      var ts := Tables(sorted);
      assert Tables(init) <= ts;
      forall i, j | 0 <= i < j < |sorted| && sorted[i] != sorted[j] && sorted[i] != Dummy && sorted[j] != Dummy
        ensures exists i', j' :: 0 <= i' < j' < |ts| && ts[i'] == sorted[i] && ts[j'] == sorted[j]
      {
        if j < |init| {
          assert init[i] == sorted[i] && init[j] == sorted[j];
          var i', j' :| 0 <= i' < j' < |Tables(init)| && Tables(init)[i'] == init[i] && Tables(init)[j'] == init[j];
          assert ts[i'] == sorted[i] && ts[j'] == sorted[j];
        } else {
          assert init[i] == sorted[i] && sorted[i] in Tables(init);
          var i' :| 0 <= i' < |Tables(init)| && Tables(init)[i'] == sorted[i];
          assert ts[|Tables(init)|] == x;
        }
      }
    }
  }

  /** The export statement for table `t`. */
  function ExportLine(t: string): string
  {
    "export to " + t + ".ixf of ixf lobs to . modified by codepage=819 messages export_" + t
      + ".msg select * from " + t + ";\n"
  }

  /** The modifier that lets the load keep the exported identity values;
      a table in the skip list gets a blank instead. */
  function LoadModifier(t: string, skip: seq<string>): (r: string)
    ensures r == " " <==> t in skip
    ensures r == "identityoverride" <==> t !in skip
  {
    if t in skip then " " else "identityoverride"
  }

  /** The load statement for table `t`. */
  function LoadLine(t: string, skip: seq<string>): string
  {
    "load from " + t + ".ixf of ixf lobs from . modified by generatedoverride " + LoadModifier(t, skip)
      + " messages load_" + t + ".msg replace into " + t + ";\n"
  }

  function ExportLines(sorted: seq<string>): seq<string>
  {
    Each(Tables(sorted), ExportLine)
  }

  function LoadLines(sorted: seq<string>, skip: seq<string>): seq<string>
  {
    Each(Tables(sorted), t => LoadLine(t, skip))
  }

  /** Each table of the order gets one export statement and one load
      statement, at the same position, and the tables keep their order. */
  lemma LinesPerTable(sorted: seq<string>, skip: seq<string>)
    ensures var ts := Tables(sorted);
      |ExportLines(sorted)| == |ts| == |LoadLines(sorted, skip)|
      && (forall i :: 0 <= i < |ts| ==> ExportLines(sorted)[i] == ExportLine(ts[i]))
      && (forall i :: 0 <= i < |ts| ==> LoadLines(sorted, skip)[i] == LoadLine(ts[i], skip))
  {
    EachIndex(Tables(sorted), ExportLine);
    EachIndex(Tables(sorted), t => LoadLine(t, skip));
  }

  // ---------------------------------------------------------------------------
  // The two scripts
  // ---------------------------------------------------------------------------

  function ConnectLine(db: string): string
  {
    "connect to " + db + ";\n"
  }

  const Reset: string := "connect reset;\n"

  /** The indentation of the continuation lines of the `alter table`
      statements. */
  const Indent: string := "                            "

  /** Written before the loads when the database type is `N`: integrity
      checking on `nya.person` is switched off and its generated columns
      become plain columns. */
  const Prelude: string :=
    "set integrity for nya.person off;\n"
    + "alter table nya.person \n"
    + Indent + "alter column EMAIL_UC drop generated \n"
    + Indent + "alter column NORMALIZED_FIRSTNAME drop generated \n"
    + Indent + "alter column NORMALIZED_LASTNAME drop generated;\n"
    + "set integrity for nya.person immediate checked;\n"

  /** Written after the loads when the database type is `N`: the generated
      columns are restored and checked. */
  const Postlude: string :=
    "set integrity for nya.person off;\n"
    + "alter table nya.person \n"
    + Indent + "alter column EMAIL_UC set generated always as ( upper(email)) \n"
    + Indent + "alter column NORMALIZED_FIRSTNAME set generated always as ( NYA.REMOVE_DIACRITICS( FIRSTNAME ) ) \n"
    + Indent + "alter column NORMALIZED_LASTNAME set generated always as ( NYA.REMOVE_DIACRITICS( LASTNAME ) );\n"
    + "set integrity for nya.person immediate checked force generated;\n"
    + "echo set integrity for all tables;\n"

  function ExportScript(db: string, sorted: seq<string>): string
  {
    ConnectLine(db) + Concat(ExportLines(sorted)) + Reset
  }

  /** The load script between its connect and reset lines. */
  function LoadBody(dbType: string, sorted: seq<string>, skip: seq<string>): string
  {
    (if dbType == "N" then Prelude else "") + Concat(LoadLines(sorted, skip)) + (if dbType == "N" then Postlude else "")
  }

  function LoadScript(target: string, dbType: string, sorted: seq<string>, skip: seq<string>): string
  {
    ConnectLine(target) + LoadBody(dbType, sorted, skip) + Reset
  }

  /** Both scripts connect first and reset the connection last. */
  lemma ScriptFrames(db: string, target: string, dbType: string, sorted: seq<string>, skip: seq<string>)
    ensures ConnectLine(db) <= ExportScript(db, sorted) && EndsWith(ExportScript(db, sorted), Reset)
    ensures ConnectLine(target) <= LoadScript(target, dbType, sorted, skip)
      && EndsWith(LoadScript(target, dbType, sorted, skip), Reset)
  {
    EndsAndStarts(ConnectLine(db), Concat(ExportLines(sorted)), Reset);
    EndsAndStarts(ConnectLine(target), LoadBody(dbType, sorted, skip), Reset);
  }

  /** The prelude, and with it the switched-off integrity checking, comes right
      after the connect statement exactly when the database type is `N`. */
  lemma PreludeIffTypeN(target: string, dbType: string, sorted: seq<string>, skip: seq<string>)
    ensures dbType == "N" <==> ConnectLine(target) + Prelude <= LoadScript(target, dbType, sorted, skip)
  {
    var c := ConnectLine(target);
    var lines := Concat(LoadLines(sorted, skip));
    var s := LoadScript(target, dbType, sorted, skip);
    var body := LoadBody(dbType, sorted, skip);
    AppendAssoc(c, body, Reset);
    if dbType == "N" {
      AppendAssoc(Prelude + lines, Postlude, Reset);
      AppendAssoc(Prelude, lines, Postlude + Reset);
      PrefixOfPrefix(c, Prelude, lines + (Postlude + Reset));
    } else {
      assert body == lines;
      LoadLinesStart(sorted, skip);
      assert s[|c|] == (lines + Reset)[0];
      assert s[|c|] == 'l' || s[|c|] == 'c';
      assert (c + Prelude)[|c|] == Prelude[0] == 's';
    }
  }

  /** The load statements start with the letter `l`. */
  lemma LoadLinesStart(sorted: seq<string>, skip: seq<string>)
    ensures var lines := Concat(LoadLines(sorted, skip)); lines == [] || lines[0] == 'l'
  {
    var ts := Tables(sorted);
    var ls := LoadLines(sorted, skip);
    LinesPerTable(sorted, skip);
    if ls != [] {
      assert Concat(ls) == ls[0] + Concat(ls[1..]);
      assert ls[0] == LoadLine(ts[0], skip);
    }
  }

  /** The loop body for a node that is a table: its export statement and its
      load statement. */
  method TableLines(t: string, skip: seq<string>) returns (e: string, l: string)
    ensures e == ExportLine(t) && l == LoadLine(t, skip)
  {
    var identityskip := "identityoverride";
    if t in skip {
      identityskip := " ";
    }
    e := "export to " + t + ".ixf of ixf lobs to . modified by codepage=819 messages export_" + t
      + ".msg select * from " + t + ";\n";
    l := "load from " + t + ".ixf of ixf lobs from . modified by generatedoverride " + identityskip
      + " messages load_" + t + ".msg replace into " + t + ";\n";
  }

  /** The writing loop over the ordered nodes: every node but `dummy` adds
      its export statement to the export file and its load statement to the
      load file. */
  method WriteTables(export0: string, load0: string, sorted: seq<string>, skip: seq<string>)
    returns (exportFile: string, loadFile: string)
    ensures exportFile == export0 + Concat(ExportLines(sorted))
    ensures loadFile == load0 + Concat(LoadLines(sorted, skip))
  {
    exportFile, loadFile := export0, load0;
    for i := 0 to |sorted|
      invariant exportFile == export0 + Concat(ExportLines(sorted[..i]))
      invariant loadFile == load0 + Concat(LoadLines(sorted[..i], skip))
    {
      var t := sorted[i];
      assert sorted[..i + 1] == sorted[..i] + [t];
      if t == Dummy {
        assert Tables(sorted[..i + 1]) == Tables(sorted[..i]);
      } else {
        assert Tables(sorted[..i + 1]) == Tables(sorted[..i]) + [t];
        var e, l := TableLines(t, skip);
        ConcatStep(export0, Tables(sorted[..i]), ExportLine, exportFile, t, e);
        ConcatStep(load0, Tables(sorted[..i]), t => LoadLine(t, skip), loadFile, t, l);
        exportFile := exportFile + e;
        loadFile := loadFile + l;
      }
    }
    assert sorted[..|sorted|] == sorted;
  }

  /** The two files: the connect lines, the prelude, the loop, the postlude
      and the reset lines. */
  method WriteScripts(db: string, target: string, dbType: string, sorted: seq<string>, skip: seq<string>)
    returns (exportFile: string, loadFile: string)
    ensures exportFile == ExportScript(db, sorted) && loadFile == LoadScript(target, dbType, sorted, skip)
  {
    exportFile := ConnectLine(db);
    loadFile := ConnectLine(target);
    var pre := "";
    if dbType == "N" {
      pre := Prelude;
    }
    loadFile := loadFile + pre;
    exportFile, loadFile := WriteTables(exportFile, loadFile, sorted, skip);
    var post := "";
    if dbType == "N" {
      post := Postlude;
    }
    loadFile := loadFile + post;
    exportFile := exportFile + Reset;
    loadFile := loadFile + Reset;
    LoadScriptParts(target, dbType, sorted, skip);
  }

  /** The load script is its parts written one after the other. */
  lemma LoadScriptParts(target: string, dbType: string, sorted: seq<string>, skip: seq<string>)
    ensures var pre, post := (if dbType == "N" then Prelude else ""), (if dbType == "N" then Postlude else "");
      LoadScript(target, dbType, sorted, skip) == ConnectLine(target) + pre + Concat(LoadLines(sorted, skip)) + post + Reset
  {
    var pre, post := (if dbType == "N" then Prelude else ""), (if dbType == "N" then Postlude else "");
    var lines := Concat(LoadLines(sorted, skip));
    AppendAssoc(ConnectLine(target), pre, lines);
    AppendAssoc(ConnectLine(target), pre + lines, post);
  }

  // ---------------------------------------------------------------------------
  // The whole run
  // ---------------------------------------------------------------------------

  /** The upper-case letter for a lower-case ASCII letter; other characters
      are kept. */
  function UpperChar(c: char): char
  {
    if 'a' <= c <= 'z' then (c as int - 32) as char else c
  }

  /** `str.upper()` on ASCII: each character is upper-cased on its own. */
  function Upper(s: string): (r: string)
    ensures |r| == |s|
    ensures forall k :: 0 <= k < |s| ==> r[k] == UpperChar(s[k])
  {
    if s == [] then [] else [UpperChar(s[0])] + Upper(s[1..])
  }

  /** Upper-casing leaves no lower-case ASCII letter and changes nothing more
      when repeated. */
  lemma {:induction false} UpperSpec(s: string)
    ensures forall k :: 0 <= k < |s| ==> !('a' <= Upper(s)[k] <= 'z')
    ensures Upper(Upper(s)) == Upper(s)
  {
    if s != [] {
      UpperSpec(s[1..]);
      assert Upper(s)[1..] == Upper(s[1..]);
    }
  }

  datatype Scripts = Scripts(exportFile: string, loadFile: string)

  /** The script after argument parsing: both database names are upper-cased,
      the tables are ordered, and the two scripts are written. A cycle among the
      references, and only a cycle, stops the run before anything is written. */
  method Move(db: string, target: string, dbType: string, edgeRows: seq<(string, string)>, skip: seq<string>)
    returns (r: Option<Scripts>)
    ensures r.Some? <==> OrderedNodes(edgeRows).Some?
    ensures r.None? <==> Cyclic(edgeRows)
    ensures r.Some? ==>
      r.value == Scripts(ExportScript(Upper(db), OrderedNodes(edgeRows).value),
                         LoadScript(Upper(target), dbType, OrderedNodes(edgeRows).value, skip))
  {
    var source := Upper(db);
    var dest := Upper(target);
    var edges, nodes := ReadEdges(edgeRows);
    OrderedNodesFailsIffCyclic(edgeRows);
    match Order(nodes, edges)
    case None =>
      r := None;
    case Some(sorted) =>
      var exportFile, loadFile := WriteScripts(source, dest, dbType, sorted, skip);
      r := Some(Scripts(exportFile, loadFile));
  }

  /** In the order of a run, a table comes after every other table it refers
      to, and `dummy` is not among the tables; with `LinesPerTable`, its export
      and load statements come after theirs. */
  lemma MoveOrder(edgeRows: seq<(string, string)>, a: string, b: string)
    requires OrderedNodes(edgeRows).Some?
    requires (a, b) in edgeRows && a != b && b != Dummy && a != Dummy
    ensures var ts := Tables(OrderedNodes(edgeRows).value);
      Dummy !in ts && exists i, j :: 0 <= i < j < |ts| && ts[i] == b && ts[j] == a
  {
    var o := OrderedNodes(edgeRows).value;
    OrderedNodesSound(edgeRows);
    TablesSpec(o);
    assert a in o && b in o;
    var ia := IndexOf(o, a);
    var ib := IndexOf(o, b);
    assert ib < ia;
  }
}
