/** The foreign-key recreate script (print_recreate_fk.py): for every foreign
    key that refers to one of the named tables, a statement that drops it and
    one that adds it back; all drops are printed before all creates.

    The catalog query is not part of this model: `query` gives, for each named
    table, the rows describing the foreign keys that refer to it. The rows
    carry the raw rule codes; the query's own CASE expressions that turn the
    codes into keywords are modelled by `RuleKeywordAsWritten`, and the
    statements the program prints use it. That CASE reads the SET NULL rule
    as NO ACTION; `RuleKeyword` is the corrected mapping, and
    `CorrectedCreateStatement` the add statement built with it. */
module RecreateFk {
  import opened Text

  /** A row of the foreign-key query. */
  datatype FkRow = FkRow(
    tabschema: string, tabname: string, constname: string, fkColnames: string,
    reftabschema: string, reftabname: string, pkColnames: string,
    deleteCode: string, updateCode: string, enforced: string, queryopt: string)

  // ---------------------------------------------------------------------------
  // Rule keywords
  // ---------------------------------------------------------------------------

  /** The query's CASE expression as written: `C` and `R` have keywords of
      their own and every other code, `N` (set null) included, reads as
      `NO ACTION`. */
  function RuleKeywordAsWritten(code: string): (r: string)
    ensures r == "CASCADE" <==> code == "C"
    ensures r == "RESTRICT" <==> code == "R"
    ensures r == "NO ACTION" <==> code != "C" && code != "R"
  {
    if code == "C" then "CASCADE" else if code == "R" then "RESTRICT" else "NO ACTION"
  }

  /** The rule keyword for each rule code of the catalog: `A` no action, `C`
      cascade, `N` set null, `R` restrict; any other code reads as `NO ACTION`,
      as in the query. */
  function RuleKeyword(code: string): (r: string)
    ensures code == "N" ==> r == "SET NULL"
    ensures code != "N" ==> r == RuleKeywordAsWritten(code)
  {
    if code == "N" then "SET NULL" else RuleKeywordAsWritten(code)
  }

  /** Distinct catalog rule codes get keywords that differ already in their
      first letter, so the recreated key keeps the rule it had. */
  lemma RuleKeywordInjective(a: string, b: string)
    requires a in {"A", "C", "N", "R"} && b in {"A", "C", "N", "R"}
    ensures RuleKeyword(a) != [] && RuleKeyword(b) != []
    ensures RuleKeyword(a)[0] == RuleKeyword(b)[0] ==> a == b
  {
    assert "SET NULL"[0] == 'S' && "NO ACTION"[0] == 'N' && "CASCADE"[0] == 'C' && "RESTRICT"[0] == 'R';
  }

  // ---------------------------------------------------------------------------
  // Flags and column lists
  // ---------------------------------------------------------------------------

  /** The word put before `ENFORCED`. */
  function EnforcedPrefix(code: string): (r: string)
    ensures r == "NOT " <==> code == "N"
    ensures r == "" <==> code != "N"
  {
    if code == "N" then "NOT " else ""
  }

  /** The word put before `QUERY OPTIMIZATION`. */
  function QueryOptPrefix(code: string): (r: string)
    ensures r == "DISABLE " <==> code == "N"
    ensures r == "ENABLE " <==> code != "N"
  {
    if code == "N" then "DISABLE " else "ENABLE "
  }

  /** The column names of a space-separated list, separated by commas. */
  function ColumnList(s: string): string
  {
    Join(",", Tokens(s, {' '}))
  }

  /** The filtered split and the loop that puts a comma before every name,
      followed by dropping the first character. */
  method NormalizeCols(s: string) returns (r: string)
    ensures r == ColumnList(s)
  {
    var names := Tokens(s, {' '});
    var cols := "";
    for i := 0 to |names|
      invariant i == 0 ==> cols == ""
      invariant i > 0 ==> cols == "," + Join(",", names[..i])
    {
      if i > 0 {
        JoinSnoc(",", names[..i], names[i]);
        assert names[..i + 1] == names[..i] + [names[i]];
      }
      cols := cols + "," + names[i];
    }
    assert names[..|names|] == names;
    r := if |cols| >= 1 then cols[1..] else "";
  }

  /** A normalised list holds no space and is empty exactly when the list is
      blank. When the names hold no comma, every comma of the result stands
      between two names, splitting the result at its commas gives exactly the
      names of the list in their order, and without its commas the result is
      the list without its spaces. */
  lemma ColumnListSpec(s: string)
    ensures var r := ColumnList(s);
      ' ' !in r
      && (r == "" <==> forall k :: 0 <= k < |s| ==> s[k] == ' ')
      && (',' !in s ==>
            RemoveChar(r, ',') == RemoveAll(s, {' '})
            && Tokens(r, {','}) == Tokens(s, {' '})
            && forall k :: 0 <= k < |r| && r[k] == ',' ==> 0 < k < |r| - 1 && r[k + 1] != ',')
  {
    var ts := Tokens(s, {' '});
    assert "," == [','];
    TokensSpec(s, {' '});
    JoinChars(ts, ',');
    if ',' !in s {
      forall i | 0 <= i < |ts|
        ensures ',' !in ts[i]
      {
        TokenChars(ts, i);
      }
      JoinSeparatorIsolated(ts, ',');
      JoinRemoveSeparator(ts, ',');
      TokensOfJoin(ts, ',', {','});
    }
    BlankRemoved(s, {' '});
    if |ts| >= 2 {
      assert Join(",", ts) == ts[0] + "," + Join(",", ts[1..]);
    }
    if ts != [] {
      assert Concat(ts) == ts[0] + Concat(ts[1..]);
    }
  }

  /** Every character of a part is a character of the concatenation. */
  lemma {:induction false} TokenChars(ts: seq<string>, i: nat)
    requires i < |ts|
    ensures forall c :: c in ts[i] ==> c in Concat(ts)
  {
    assert Concat(ts) == ts[0] + Concat(ts[1..]);
    if i > 0 {
      TokenChars(ts[1..], i - 1);
    }
  }

  /** Removing separators leaves nothing exactly when there was nothing else. */
  lemma {:induction false} BlankRemoved(s: string, sep: set<char>)
    ensures RemoveAll(s, sep) == "" <==> forall k :: 0 <= k < |s| ==> s[k] in sep
  {
    if s != [] {
      BlankRemoved(s[1..], sep);
      assert forall k :: 1 <= k < |s| ==> s[k] == s[1..][k - 1];
    }
  }

  // ---------------------------------------------------------------------------
  // Statements
  // ---------------------------------------------------------------------------

  /** The start of both statements, naming the referencing table. */
  function AlterTable(r: FkRow): string
  {
    "ALTER TABLE " + (r.tabschema + "." + r.tabname)
  }

  /** The first line of the add statement, after the blank line. */
  function CreateHead(r: FkRow): string
  {
    "\n" + AlterTable(r) + " ADD CONSTRAINT " + r.constname + "\n"
  }

  /** The key columns and the referenced columns. */
  function CreateColumns(r: FkRow): string
  {
    "    FOREIGN KEY (" + ColumnList(r.fkColnames) + ")"
      + "\n    REFERENCES " + r.reftabschema + "." + r.reftabname + " (" + ColumnList(r.pkColnames) + ")"
  }

  /** The add statement up to the update rule. */
  function CreateLead(r: FkRow): string
  {
    CreateHead(r) + CreateColumns(r) + "\n        ON UPDATE "
  }

  /** The space after the delete rule, the two constraint attributes and the
      statement terminator. */
  function CreateFlags(r: FkRow): string
  {
    " \n" + EnforcedPrefix(r.enforced) + "ENFORCED\n" + QueryOptPrefix(r.queryopt) + "QUERY OPTIMIZATION @\n"
  }

  /** The add statement with the given update and delete rule keywords. */
  function CreateText(r: FkRow, updateKw: string, deleteKw: string): string
  {
    CreateLead(r) + updateKw + "\n        ON DELETE " + deleteKw + CreateFlags(r)
  }

  /** The statement the program prints to add the key back, with the rule
      keywords of the query as written. */
  function CreateStatement(r: FkRow): string
  {
    CreateText(r, RuleKeywordAsWritten(r.updateCode), RuleKeywordAsWritten(r.deleteCode))
  }

  /** The add statement with the corrected rule keywords. */
  function CorrectedCreateStatement(r: FkRow): string
  {
    CreateText(r, RuleKeyword(r.updateCode), RuleKeyword(r.deleteCode))
  }

  /** The statement that drops the key. */
  function DropStatement(r: FkRow): string
  {
    AlterTable(r) + " DROP CONSTRAINT " + r.constname + " @"
  }

  /** The two statements of a row name the same table and the same
      constraint: the drop statement drops from the table the constraint that
      the create statement adds to it. The create statement ends with the
      update rule, the delete rule, the enforcement and the optimisation lines
      of the key, and the terminator. */
  lemma DropCreatePair(r: FkRow)
    ensures AlterTable(r) <= DropStatement(r)
    ensures EndsWith(DropStatement(r), " DROP CONSTRAINT " + r.constname + " @")
    ensures "\n" + AlterTable(r) + " ADD CONSTRAINT " + r.constname + "\n" <= CreateStatement(r)
    ensures CreateHead(r)
      + ("    FOREIGN KEY (" + ColumnList(r.fkColnames) + ")"
         + "\n    REFERENCES " + r.reftabschema + "." + r.reftabname + " (" + ColumnList(r.pkColnames) + ")")
      <= CreateStatement(r)
    ensures EndsWith(CreateStatement(r),
      "\n        ON UPDATE " + RuleKeywordAsWritten(r.updateCode)
      + "\n        ON DELETE " + RuleKeywordAsWritten(r.deleteCode)
      + (" \n" + EnforcedPrefix(r.enforced) + "ENFORCED\n" + QueryOptPrefix(r.queryopt) + "QUERY OPTIMIZATION @\n"))
  {
    var uw, dw := RuleKeywordAsWritten(r.updateCode), RuleKeywordAsWritten(r.deleteCode);
    Regroup(CreateHead(r), CreateColumns(r), "\n        ON UPDATE ", uw, "\n        ON DELETE ", dw, CreateFlags(r));
    EndsAndStarts(CreateHead(r), CreateColumns(r),
      "\n        ON UPDATE " + uw + "\n        ON DELETE " + dw + CreateFlags(r));
    Halves(CreateHead(r) + CreateColumns(r), "\n        ON UPDATE " + uw + "\n        ON DELETE " + dw + CreateFlags(r));
    DropParts(AlterTable(r), r.constname);
  }

  /** The drop statement starts with the table and ends with the constraint. */
  lemma DropParts(a: string, n: string)
    ensures a <= a + " DROP CONSTRAINT " + n + " @"
    ensures EndsWith(a + " DROP CONSTRAINT " + n + " @", " DROP CONSTRAINT " + n + " @")
  {
    assert a + " DROP CONSTRAINT " + n + " @" == a + (" DROP CONSTRAINT " + n + " @");
    Halves(a, " DROP CONSTRAINT " + n + " @");
  }

  /** Moves the grouping of a seven-part concatenation. */
  lemma Regroup(a: string, b: string, c: string, d: string, e: string, f: string, g: string)
    ensures a + b + c + d + e + f + g == a + b + (c + d + e + f + g)
    ensures a + b + c + d + e + f + g == (a + b + c) + d + (e + f + g)
  {
  }

  // ---------------------------------------------------------------------------
  // The program as written against the corrected rule keywords
  // ---------------------------------------------------------------------------

  /** Two texts that agree up to a point and then continue with different
      characters differ. */
  lemma DifferAfter(p: string, x: string, y: string, a: string, b: string)
    requires x != [] && y != [] && x[0] != y[0]
    ensures p + x + a != p + y + b
  {
    assert (p + x + a)[|p|] == x[0];
    assert (p + y + b)[|p|] == y[0];
  }

  lemma Regroup3(a: string, b: string, c: string, d: string, e: string)
    ensures a + b + c + d + e == a + b + (c + d + e)
  {
  }

  /** A key whose delete rule is SET NULL is recreated exactly as the same key
      with NO ACTION, and likewise for the update rule: the rule is lost. */
  lemma SetNullLost(r: FkRow)
    ensures r.deleteCode == "N" ==> CreateStatement(r) == CreateStatement(r.(deleteCode := "A"))
    ensures r.updateCode == "N" ==> CreateStatement(r) == CreateStatement(r.(updateCode := "A"))
  {
  }

  /** The program's statement and the corrected one agree exactly for the
      keys that have no SET NULL rule. */
  lemma CorrectionOnlyForSetNull(r: FkRow)
    ensures CreateStatement(r) == CorrectedCreateStatement(r) <==> r.updateCode != "N" && r.deleteCode != "N"
  {
    var lead, flags := CreateLead(r), CreateFlags(r);
    var uw, dw := RuleKeywordAsWritten(r.updateCode), RuleKeywordAsWritten(r.deleteCode);
    var uc, dc := RuleKeyword(r.updateCode), RuleKeyword(r.deleteCode);
    var mid := "\n        ON DELETE ";
    if r.updateCode == "N" {
      DifferAfter(lead, uw, uc, mid + dw + flags, mid + dc + flags);
      Regroup3(lead, uw, mid, dw, flags);
      Regroup3(lead, uc, mid, dc, flags);
    } else if r.deleteCode == "N" {
      DifferAfter(lead + uw + mid, dw, dc, flags, flags);
    }
  }

  /** With the corrected keywords, keys that differ only in their catalog
      rule codes are recreated by different statements. */
  lemma CorrectedCreateInjective(r: FkRow, u: string, d: string)
    requires r.updateCode in {"A", "C", "N", "R"} && r.deleteCode in {"A", "C", "N", "R"}
    requires u in {"A", "C", "N", "R"} && d in {"A", "C", "N", "R"}
    ensures CorrectedCreateStatement(r) == CorrectedCreateStatement(r.(updateCode := u, deleteCode := d))
      <==> r.updateCode == u && r.deleteCode == d
  {
    var r2 := r.(updateCode := u, deleteCode := d);
    var lead, flags := CreateLead(r), CreateFlags(r);
    assert CreateLead(r2) == lead && CreateFlags(r2) == flags;
    var mid := "\n        ON DELETE ";
    var u1, d1 := RuleKeyword(r.updateCode), RuleKeyword(r.deleteCode);
    var u2, d2 := RuleKeyword(u), RuleKeyword(d);
    if r.updateCode != u {
      RuleKeywordInjective(r.updateCode, u);
      DifferAfter(lead, u1, u2, mid + d1 + flags, mid + d2 + flags);
      Regroup3(lead, u1, mid, d1, flags);
      Regroup3(lead, u2, mid, d2, flags);
    } else if r.deleteCode != d {
      RuleKeywordInjective(r.deleteCode, d);
      DifferAfter(lead + u1 + mid, d1, d2, flags, flags);
    }
  }

  // ---------------------------------------------------------------------------
  // The script
  // ---------------------------------------------------------------------------

  /** The rows of all named tables, table by table in the given order. */
  function RowsOf(tables: seq<string>, query: string -> seq<FkRow>): seq<FkRow>
  {
    if tables == [] then [] else RowsOf(tables[..|tables| - 1], query) + query(tables[|tables| - 1])
  }

  function Drops(rows: seq<FkRow>): seq<string>
  {
    Each(rows, DropStatement)
  }

  function Creates(rows: seq<FkRow>): seq<string>
  {
    Each(rows, CreateStatement)
  }

  function CorrectedCreates(rows: seq<FkRow>): seq<string>
  {
    Each(rows, CorrectedCreateStatement)
  }

  /** The script with the corrected rule keywords: the same drops, then the
      corrected creates. */
  function CorrectedScript(rows: seq<FkRow>): seq<string>
  {
    Drops(rows) + CorrectedCreates(rows)
  }

  /** The printed script is the corrected one exactly when no key has a SET
      NULL rule. */
  lemma CorrectedScriptAgrees(rows: seq<FkRow>)
    ensures Drops(rows) + Creates(rows) == CorrectedScript(rows)
      <==> forall i :: 0 <= i < |rows| ==> rows[i].updateCode != "N" && rows[i].deleteCode != "N"
  {
    EachIndex(rows, CreateStatement);
    EachIndex(rows, CorrectedCreateStatement);
    var cs, ks := Creates(rows), CorrectedCreates(rows);
    forall i | 0 <= i < |rows|
      ensures cs[i] == ks[i] <==> rows[i].updateCode != "N" && rows[i].deleteCode != "N"
    {
      CorrectionOnlyForSetNull(rows[i]);
    }
    if Drops(rows) + cs == Drops(rows) + ks {
      assert cs == (Drops(rows) + cs)[|Drops(rows)|..];
    }
  }


  /** The loop body of `main` for one row of the query; the query gives the
      rule keywords of its CASE expressions. */
  method RowStatements(row: FkRow) returns (drop: string, create: string)
    ensures drop == DropStatement(row) && create == CreateStatement(row)
  {
    var deleterule := RuleKeywordAsWritten(row.deleteCode);
    var updaterule := RuleKeywordAsWritten(row.updateCode);
    var enforced := if row.enforced == "N" then "NOT " else "";
    var queryopt := if row.queryopt == "N" then "DISABLE " else "ENABLE ";
    var fkcols := NormalizeCols(row.fkColnames);
    var pkcols := NormalizeCols(row.pkColnames);
    var alter := "ALTER TABLE " + (row.tabschema + "." + row.tabname);
    var head := "\n" + alter + " ADD CONSTRAINT " + row.constname + "\n";
    var columns := "    FOREIGN KEY (" + fkcols + ")"
      + "\n    REFERENCES " + row.reftabschema + "." + row.reftabname + " (" + pkcols + ")";
    create := head + columns + "\n        ON UPDATE " + updaterule + "\n        ON DELETE " + deleterule
      + (" \n" + enforced + "ENFORCED\n" + queryopt + "QUERY OPTIMIZATION @\n");
    drop := alter + " DROP CONSTRAINT " + row.constname + " @";
  }

  /** The inner loop of `main`: the statements for the rows of one table,
      after those gathered so far. */
  method TableStatements(rows: seq<FkRow>, drops0: seq<string>, creates0: seq<string>)
    returns (drops: seq<string>, creates: seq<string>)
    ensures drops == drops0 + Drops(rows) && creates == creates0 + Creates(rows)
  {
    drops := drops0;
    creates := creates0;
    var j := 0;
    while j < |rows|
      invariant 0 <= j <= |rows|
      invariant drops == drops0 + Drops(rows[..j]) && creates == creates0 + Creates(rows[..j])
    {
      var drop, create := RowStatements(rows[j]);
      EachStep(drops0, rows, j, DropStatement, drops, drop);
      EachStep(creates0, rows, j, CreateStatement, creates, create);
      drops := drops + [drop];
      creates := creates + [create];
      j := j + 1;
    }
    assert rows[..j] == rows;
  }

  /** The body of `main` after connecting: the statements of every row, in row
      order, with the tables taken in the given order. */
  method CollectStatements(tables: seq<string>, query: string -> seq<FkRow>)
    returns (drops: seq<string>, creates: seq<string>)
    ensures drops == Drops(RowsOf(tables, query)) && creates == Creates(RowsOf(tables, query))
  {
    drops := [];
    creates := [];
    for k := 0 to |tables|
      invariant drops == Drops(RowsOf(tables[..k], query))
      invariant creates == Creates(RowsOf(tables[..k], query))
    {
      ghost var before := RowsOf(tables[..k], query);
      var rows := query(tables[k]);
      drops, creates := TableStatements(rows, drops, creates);
      assert tables[..k + 1][..k] == tables[..k];
      assert RowsOf(tables[..k + 1], query) == before + rows;
      EachAppend(before, rows, DropStatement);
      EachAppend(before, rows, CreateStatement);
    }
    assert tables[..|tables|] == tables;
  }

  /** What `main` prints, one statement per line: the drops, then the creates. */
  method Script(tables: seq<string>, query: string -> seq<FkRow>) returns (out: seq<string>)
    ensures out == Drops(RowsOf(tables, query)) + Creates(RowsOf(tables, query))
  {
    var drops, creates := CollectStatements(tables, query);
    out := Lines([], drops);
    out := Lines(out, creates);
  }

  /** Printing each line of `lines` after the output so far. */
  method Lines(printed: seq<string>, lines: seq<string>) returns (out: seq<string>)
    ensures out == printed + lines
  {
    out := printed;
    for i := 0 to |lines|
      invariant out == printed + lines[..i]
    {
      assert lines[..i + 1] == lines[..i] + [lines[i]];
      out := out + [lines[i]];
    }
    assert lines[..|lines|] == lines;
  }

  /** Every key is dropped before any key is created, and the statements of
      the i-th key stand at i and at i plus the number of keys. */
  lemma ScriptOrder(rows: seq<FkRow>)
    ensures var out := Drops(rows) + Creates(rows);
      |out| == 2 * |rows|
      && (forall i :: 0 <= i < |rows| ==> out[i] == DropStatement(rows[i]))
      && (forall i :: 0 <= i < |rows| ==> out[|rows| + i] == CreateStatement(rows[i]))
  {
    TwoPasses(rows, DropStatement, CreateStatement);
  }

  lemma TwoPasses(rows: seq<FkRow>, first: FkRow -> string, second: FkRow -> string)
    ensures var out := Each(rows, first) + Each(rows, second);
      |out| == 2 * |rows|
      && (forall i :: 0 <= i < |rows| ==> out[i] == first(rows[i]))
      && (forall i :: 0 <= i < |rows| ==> out[|rows| + i] == second(rows[i]))
  {
    EachIndex(rows, first);
    EachIndex(rows, second);
    var out := Each(rows, first) + Each(rows, second);
    forall i | 0 <= i < |rows|
      ensures out[|rows| + i] == second(rows[i])
    {
      assert out[|rows| + i] == Each(rows, second)[i];
    }
  }

  /** Naming a table once more adds the keys that refer to it after all the
      others. */
  lemma {:induction false} RowsOfAppend(tables: seq<string>, more: seq<string>, query: string -> seq<FkRow>)
    ensures RowsOf(tables + more, query) == RowsOf(tables, query) + RowsOf(more, query)
    decreases |more|
  {
    if more == [] {
      assert tables + more == tables;
    } else {
      var m0 := more[..|more| - 1];
      RowsOfAppend(tables, m0, query);
      assert (tables + more)[..|tables + more| - 1] == tables + m0;
      assert more[..|more| - 1] == m0;
      AppendAssoc(RowsOf(tables, query), RowsOf(m0, query), query(more[|more| - 1]));
    }
  }
}
