/** The snapshot objects of the schema comparer (CompareDB/DBTable.py,
    CompareDB/DBIndex.py, CompareDB/DBConstraint.py): tables, indexes and
    constraints as read from the catalog, the catalog codes they translate into
    DDL keywords when they are built, and the canonical DDL text each renders.

    Attributes the source compares with `is not None` are `Option`s here. The
    column class of the comparer is not part of this model: a column is its
    name, its comment and the text it renders, taken as given. */
module CompareObjects {
  import opened Text
  import opened Wrappers

  /** `schema + "." + name` */
  function QualifiedName(schema: string, name: string): string
  {
    schema + "." + name
  }

  // ---------------------------------------------------------------------------
  // Columns
  // ---------------------------------------------------------------------------

  /** A column of a table: its name, its comment and its rendered text. */
  datatype Column = Column(colname: string, comment: Option<string>, text: string)

  // ---------------------------------------------------------------------------
  // Indexes
  // ---------------------------------------------------------------------------

  datatype Index = Index(
    tabschema: string, tabname: string, indschema: string, indname: string,
    uniquerule: string, indextype: string, reverseScans: string, collectStatistics: string,
    compression: string, comment: Option<string>, nullkeys: string,
    typemodel: string, xmlType: string, length: int, pattern: string,
    columns: seq<string>, includes: seq<string>)

  /** `DBIndex.add_column`: a key column goes at the end of the key list. */
  function AddIndexColumn(i: Index, colname: string): (r: Index)
    ensures r.columns == i.columns + [colname] && r.(columns := i.columns) == i
  {
    i.(columns := i.columns + [colname])
  }

  /** `DBIndex.add_include`: an included column goes at the end of the include list. */
  function AddInclude(i: Index, colname: string): (r: Index)
    ensures r.includes == i.includes + [colname] && r.(includes := i.includes) == i
  {
    i.(includes := i.includes + [colname])
  }

  /** `UNIQUE ` for primary-key and unique indexes only. */
  function UniqueWord(uniquerule: string): (r: string)
    ensures r == "UNIQUE " <==> uniquerule == "P" || uniquerule == "U"
    ensures r == "" <==> uniquerule != "P" && uniquerule != "U"
  {
    if uniquerule == "P" || uniquerule == "U" then "UNIQUE " else ""
  }

  /** The key columns in insertion order, then an INCLUDE list exactly when
      there are included columns. */
  function KeyColumnsClause(columns: seq<string>, includes: seq<string>): (r: string)
    ensures ("\n    (" + Join(", ", columns) + ")") <= r
    ensures r == "\n    (" + Join(", ", columns) + ")" <==> includes == []
    ensures includes != [] ==> EndsWith(r, "\nINCLUDE (" + Join(", ", includes) + ")")
  {
    var keys := "\n    (" + Join(", ", columns) + ")";
    var inc := if includes != [] then "\nINCLUDE (" + Join(", ", includes) + ")" else "";
    Halves(keys, inc);
    keys + inc
  }

  /** The octet length of an XML pattern key, for character types only. */
  function OctetsClause(xmlType: string, length: int): (r: string)
    ensures r != "" <==> xmlType == "CHARACTER" || xmlType == "VARCHAR"
    ensures r != "" ==> r == "(" + IntToString(length) + " OCTETS)"
  {
    if xmlType == "CHARACTER" || xmlType == "VARCHAR" then "(" + IntToString(length) + " OCTETS)" else ""
  }

  /** Values that do not cast are rejected for type model `R`, ignored otherwise. */
  function InvalidValuesClause(typemodel: string): (r: string)
    ensures r == " REJECT INVALID VALUES" <==> typemodel == "R"
    ensures r == " IGNORE INVALID VALUES" <==> typemodel != "R"
  {
    if typemodel == "R" then " REJECT INVALID VALUES" else " IGNORE INVALID VALUES"
  }

  /** The XML pattern clause, present exactly for `XVIL` indexes. */
  function XmlPatternClause(i: Index): (r: string)
    ensures r == "" <==> i.indextype != "XVIL"
    ensures i.indextype == "XVIL" ==>
      ("\nGENERATE KEY USING XMLPATTERN '" + i.pattern + "'\n              AS SQL " + i.xmlType
        + OctetsClause(i.xmlType, i.length)) <= r
      && EndsWith(r, InvalidValuesClause(i.typemodel))
  {
    if i.indextype != "XVIL" then ""
    else
      var head := "\nGENERATE KEY USING XMLPATTERN '" + i.pattern + "'\n              AS SQL " + i.xmlType
        + OctetsClause(i.xmlType, i.length);
      Halves(head, InvalidValuesClause(i.typemodel));
      head + InvalidValuesClause(i.typemodel)
  }

  function IndexCompressFlag(compression: string): (r: string)
    ensures r == "\nCOMPRESS YES" <==> compression == "Y"
    ensures r == "\nCOMPRESS NO" <==> compression != "Y"
    ensures IsLine(r) && r[1..] == if compression == "Y" then "COMPRESS YES" else "COMPRESS NO"
  {
    if compression == "Y" then "\nCOMPRESS YES" else "\nCOMPRESS NO"
  }

  function NullKeysFlag(nullkeys: string): (r: string)
    ensures r == "\nEXCLUDE NULL KEYS" <==> nullkeys == "N"
    ensures r == "" <==> nullkeys != "N"
    ensures r == "" || IsLine(r)
    ensures LineOf(r) == if nullkeys == "N" then ["EXCLUDE NULL KEYS"] else []
  {
    if nullkeys == "N" then "\nEXCLUDE NULL KEYS" else ""
  }

  function ClusterFlag(indextype: string): (r: string)
    ensures r == "\nCLUSTER" <==> indextype == "CLUS"
    ensures r == "" <==> indextype != "CLUS"
    ensures r == "" || IsLine(r)
    ensures LineOf(r) == if indextype == "CLUS" then ["CLUSTER"] else []
  {
    if indextype == "CLUS" then "\nCLUSTER" else ""
  }

  function ReverseScansFlag(reverseScans: string): (r: string)
    ensures r == "\nALLOW REVERSE SCANS" <==> reverseScans == "Y"
    ensures r == "" <==> reverseScans != "Y"
    ensures r == "" || IsLine(r)
    ensures LineOf(r) == if reverseScans == "Y" then ["ALLOW REVERSE SCANS"] else []
  {
    if reverseScans == "Y" then "\nALLOW REVERSE SCANS" else ""
  }

  /** The statistics clause for collection codes `D`, `S` and `Y`; none for
      any other code. */
  function StatisticsClause(code: string): (r: string)
    ensures r == "\nCOLLECT DETAILED STATISTICS" <==> code == "D"
    ensures r == "\nCOLLECT SAMPLED DETAILED STATISTICS" <==> code == "S"
    ensures r == "\nCOLLECT STATISTICS" <==> code == "Y"
    ensures r == "" <==> code != "D" && code != "S" && code != "Y"
    ensures r == "" || IsLine(r)
  {
    if code == "D" then "\nCOLLECT DETAILED STATISTICS"
    else if code == "S" then "\nCOLLECT SAMPLED DETAILED STATISTICS"
    else if code == "Y" then "\nCOLLECT STATISTICS"
    else ""
  }

  /** The option lines of an index, in the order the source writes them: the
      compression line, which is always there, first and the statistics clause
      last. Read line by line, the block is exactly `IndexOptionLines(i)`. */
  function IndexFlags(i: Index): (r: string)
    ensures IndexCompressFlag(i.compression) <= r
    ensures EndsWith(r, StatisticsClause(i.collectStatistics))
    ensures Tokens(r, {'\n'}) == IndexOptionLines(i)
  {
    var c := IndexCompressFlag(i.compression);
    var n := NullKeysFlag(i.nullkeys);
    var k := ClusterFlag(i.indextype);
    var v := ReverseScansFlag(i.reverseScans);
    var s := StatisticsClause(i.collectStatistics);
    var r := c + n + k + v + s;
    FiveParts(c, n, k, v, s);
    FiveLines(c, n, k, v, s);
    r
  }

  /** Which option lines an index has, in order: always its compression line,
      then each optional line exactly when its code asks for it. */
  function IndexOptionLines(i: Index): (r: seq<string>)
    ensures |r| >= 1
    ensures r[0] == "COMPRESS YES" <==> i.compression == "Y"
    ensures r[0] == "COMPRESS NO" <==> i.compression != "Y"
    ensures "EXCLUDE NULL KEYS" in r <==> i.nullkeys == "N"
    ensures "CLUSTER" in r <==> i.indextype == "CLUS"
    ensures "ALLOW REVERSE SCANS" in r <==> i.reverseScans == "Y"
  {
    var st := StatisticsClause(i.collectStatistics);
    var c := if i.compression == "Y" then "COMPRESS YES" else "COMPRESS NO";
    var n := if i.nullkeys == "N" then ["EXCLUDE NULL KEYS"] else [];
    var k := if i.indextype == "CLUS" then ["CLUSTER"] else [];
    var v := if i.reverseScans == "Y" then ["ALLOW REVERSE SCANS"] else [];
    var s := if st == [] then [] else [st[1..]];
    InParts("EXCLUDE NULL KEYS", c, n, k, v, s);
    InParts("CLUSTER", c, n, k, v, s);
    InParts("ALLOW REVERSE SCANS", c, n, k, v, s);
    [c] + n + k + v + s
  }

  lemma InParts<T>(w: T, c: T, n: seq<T>, k: seq<T>, v: seq<T>, s: seq<T>)
    ensures w in [c] + n + k + v + s <==> w == c || w in n || w in k || w in v || w in s
  {
  }

  /** A line break followed by a non-empty line. */
  predicate IsLine(f: string)
  {
    |f| > 1 && f[0] == '\n' && forall i :: 1 <= i < |f| ==> f[i] != '\n'
  }

  lemma LineRest(f: string)
    requires IsLine(f)
    ensures f == [f[0]] + f[1..] && Clean(f[1..], {'\n'})
  {
    assert '\n' !in f[1..] by {
      forall j | 0 <= j < |f[1..]| ensures f[1..][j] != '\n' { assert f[1..][j] == f[j + 1]; }
    }
    CleanOfAbsent(f[1..], '\n');
  }

  /** The line an optional flag adds, if any. */
  function LineOf(f: string): seq<string>
  {
    if f == [] then [] else [f[1..]]
  }

  /** Five flags, each a line or nothing after a first line, read back line by line. */
  /** Appending a line, or nothing, adds its text, or nothing, to the lines. */
  lemma MaybeLine(acc: string, f: string)
    requires f == [] || IsLine(f)
    ensures Tokens(acc + f, {'\n'}) == Tokens(acc, {'\n'}) + LineOf(f)
  {
    if f == [] {
      LineAppended(acc, '\n', f, "x", {'\n'});
    } else {
      LineRest(f);
      LineAppended(acc, '\n', f, f[1..], {'\n'});
    }
  }

  lemma FiveLines(c: string, n: string, k: string, v: string, s: string)
    requires IsLine(c)
    requires n == [] || IsLine(n)
    requires k == [] || IsLine(k)
    requires v == [] || IsLine(v)
    requires s == [] || IsLine(s)
    ensures Tokens(c + n + k + v + s, {'\n'}) == [c[1..]] + LineOf(n) + LineOf(k) + LineOf(v) + LineOf(s)
  {
    var sep := {'\n'};
    MaybeLine("", c);
    assert "" + c == c;
    assert Tokens("", sep) == [];
    MaybeLine(c, n);
    MaybeLine(c + n, k);
    MaybeLine(c + n + k, v);
    MaybeLine(c + n + k + v, s);
  }

  /** The COMMENT ON INDEX statement, exactly when there is a comment. */
  function IndexComment(i: Index): (r: string)
    ensures r == "" <==> i.comment.None?
    ensures i.comment.Some? ==> ("\n\nCOMMENT ON INDEX " + QualifiedName(i.indschema, i.indname) + " IS ") <= r
    ensures i.comment.Some? ==> EndsWith(r, "'" + i.comment.value + "' @")
  {
    match i.comment
    case None => ""
    case Some(c) =>
      var r := "\n\nCOMMENT ON INDEX " + QualifiedName(i.indschema, i.indname) + " IS '" + c + "' @";
      assert r == ("\n\nCOMMENT ON INDEX " + QualifiedName(i.indschema, i.indname) + " IS ") + ("'" + c + "' @");
      Halves("\n\nCOMMENT ON INDEX " + QualifiedName(i.indschema, i.indname) + " IS ", "'" + c + "' @");
      r
  }

  /** `CREATE INDEX` after the uniqueness word: the names and the column lists. */
  function IndexHeadRest(i: Index): (r: string)
    ensures ("INDEX " + QualifiedName(i.indschema, i.indname) + " ON " + QualifiedName(i.tabschema, i.tabname)) <= r
    ensures EndsWith(r, KeyColumnsClause(i.columns, i.includes))
  {
    var names := "INDEX " + QualifiedName(i.indschema, i.indname) + " ON " + QualifiedName(i.tabschema, i.tabname);
    Halves(names, KeyColumnsClause(i.columns, i.includes));
    names + KeyColumnsClause(i.columns, i.includes)
  }

  /** The head of `CREATE INDEX`: uniqueness, names, and the column lists. */
  function IndexHead(i: Index): (r: string)
    ensures ("\nCREATE UNIQUE " <= r) <==> i.uniquerule == "P" || i.uniquerule == "U"
    ensures ("\nCREATE " + UniqueWord(i.uniquerule)) <= r
    ensures i.uniquerule != "P" && i.uniquerule != "U" ==> "\nCREATE INDEX " <= r
    ensures EndsWith(r, IndexHeadRest(i))
  {
    var rest := IndexHeadRest(i);
    var r := "\nCREATE " + UniqueWord(i.uniquerule) + rest;
    Halves("\nCREATE " + UniqueWord(i.uniquerule), rest);
    assert ("\nCREATE UNIQUE " <= r) <==> i.uniquerule == "P" || i.uniquerule == "U" by {
      if i.uniquerule == "P" || i.uniquerule == "U" {
        Halves("\nCREATE UNIQUE ", rest);
      } else {
        assert r[8] == rest[0] == 'I';
      }
    }
    assert i.uniquerule != "P" && i.uniquerule != "U" ==> "\nCREATE INDEX " <= r by {
      if i.uniquerule != "P" && i.uniquerule != "U" {
        assert r == "\nCREATE " + rest;
        PrefixInside("\nCREATE ", "INDEX ", rest, "");
      }
    }
    r
  }

  /** The XML pattern clause and the option lines, closed by ` @`. */
  function IndexBody(i: Index): (r: string)
    ensures XmlPatternClause(i) <= r
    ensures EndsWith(r, IndexFlags(i) + " @")
  {
    var x := XmlPatternClause(i);
    var f := IndexFlags(i) + " @";
    Halves(x, f);
    x + f
  }

  /** A prefix of the middle part, after the first part, is a prefix of the whole. */
  lemma PrefixInside(a: string, x: string, b: string, c: string)
    requires x <= b
    ensures a + x <= a + b + c
  {
    assert (a + b + c)[..|a + x|] == a + x;
  }

  /** The parts of a statement made of a head, a body and a tail: what starts
      the body follows the head, and what ends the body ends the statement
      when the tail is empty. */
  lemma StatementParts(head: string, body: string, tail: string, x: string, f: string, g: string)
    requires x <= body && EndsWith(body, f) && EndsWith(tail, g)
    ensures head <= head + body + tail && head + x <= head + body + tail
    ensures EndsWith(head + body + tail, g)
    ensures tail == [] ==> EndsWith(head + body + tail, f)
  {
    PrefixInside(head, x, body, tail);
    PrefixInside(head, [], body, tail);
    assert head + [] == head;
    EndsWithExtend(head + body, tail, g);
    if tail == [] {
      assert head + body + tail == head + body;
      EndsWithExtend(head, body, f);
    }
  }

  /** Whether a statement starts with `CREATE UNIQUE` is decided by its head,
      when the head starts with `CREATE UNIQUE` or with `CREATE INDEX`. */
  lemma UniqueHeadDecides(head: string, r: string)
    requires head <= r
    requires "\nCREATE UNIQUE " <= head || "\nCREATE INDEX " <= head
    ensures "\nCREATE UNIQUE " <= r <==> "\nCREATE UNIQUE " <= head
  {
    if "\nCREATE INDEX " <= head {
      assert r[8] == "\nCREATE INDEX "[8] == 'I';
    }
  }

  /** `DBIndex.__str__`: the statement ends in ` @` right after the option
      lines, and the quoted comment follows when the index has one. */
  function IndexText(i: Index): (r: string)
    ensures IndexHead(i) + XmlPatternClause(i) <= r
    ensures IndexHead(i) + IndexBody(i) <= r
    ensures EndsWith(r, IndexComment(i))
    ensures ("\nCREATE UNIQUE " <= r) <==> i.uniquerule == "P" || i.uniquerule == "U"
    ensures i.comment.None? ==> EndsWith(r, IndexFlags(i) + " @")
    ensures i.comment.Some? ==> EndsWith(r, "'" + i.comment.value + "' @")
  {
    var head := IndexHead(i);
    var body := IndexBody(i);
    var tail := IndexComment(i);
    var g := if i.comment.Some? then "'" + i.comment.value + "' @" else "";
    StatementParts(head, body, tail, XmlPatternClause(i), IndexFlags(i) + " @", g);
    var r := head + body + tail;
    Halves(head + body, tail);
    assert "\nCREATE UNIQUE " <= head || "\nCREATE INDEX " <= head by {
      if i.uniquerule == "P" || i.uniquerule == "U" {
        assert "\nCREATE UNIQUE " <= head;
      } else {
        assert "\nCREATE INDEX " <= head;
      }
    }
    UniqueHeadDecides(head, r);
    r
  }

  // ---------------------------------------------------------------------------
  // Constraints
  // ---------------------------------------------------------------------------

  datatype Constraint =
    | CandidateKey(tabschema: string, tabname: string, constname: string, ctype: string,
        enforced: Option<string>, queryopt: Option<string>, comment: Option<string>,
        columns: seq<string>)
    | ForeignKey(tabschema: string, tabname: string, constname: string, ctype: string,
        reftabschema: string, reftabname: string, deleteRule: string, updateRule: string,
        enforced: Option<string>, queryopt: Option<string>, comment: Option<string>,
        cols: seq<string>, refcols: seq<string>)
    | Check(tabschema: string, tabname: string, constname: string, ctype: string, text: string,
        enforced: Option<string>, queryopt: Option<string>, comment: Option<string>)

  /** The enforcement keyword for codes `N` and `Y`; any other code leaves the
      attribute unset. */
  function EnforcedText(code: string): (r: Option<string>)
    ensures r == Some("NOT ENFORCED") <==> code == "N"
    ensures r == Some("ENFORCED") <==> code == "Y"
    ensures r.None? <==> code != "N" && code != "Y"
  {
    if code == "N" then Some("NOT ENFORCED")
    else if code == "Y" then Some("ENFORCED")
    else None
  }

  /** The query optimisation keyword for codes `N` and `Y`; any other code
      leaves the attribute unset. */
  function QueryOptText(code: string): (r: Option<string>)
    ensures r == Some("DISABLE QUERY OPTIMIZATION") <==> code == "N"
    ensures r == Some("ENABLE QUERY OPTIMIZATION") <==> code == "Y"
    ensures r.None? <==> code != "N" && code != "Y"
  {
    if code == "N" then Some("DISABLE QUERY OPTIMIZATION")
    else if code == "Y" then Some("ENABLE QUERY OPTIMIZATION")
    else None
  }

  function DeleteRuleText(code: string): (r: string)
    ensures r == "NO ACTION" <==> code == "A"
    ensures r == "CASCADE" <==> code == "C"
    ensures r == "SET NULL" <==> code == "N"
    ensures r == "RESTRICT" <==> code != "A" && code != "C" && code != "N"
  {
    if code == "A" then "NO ACTION"
    else if code == "C" then "CASCADE"
    else if code == "N" then "SET NULL"
    else "RESTRICT"
  }

  function UpdateRuleText(code: string): (r: string)
    ensures r == "NO ACTION" <==> code == "A"
    ensures r == "RESTRICT" <==> code != "A"
  {
    if code == "A" then "NO ACTION" else "RESTRICT"
  }

  /** `DBCandidateKey(...)`: no columns yet. */
  function NewCandidateKey(tabschema: string, tabname: string, constname: string, ctype: string,
                           enforced: string, queryopt: string, comment: Option<string>): (c: Constraint)
    ensures c.CandidateKey? && c.columns == []
    ensures c.enforced == EnforcedText(enforced) && c.queryopt == QueryOptText(queryopt)
  {
    CandidateKey(tabschema, tabname, constname, ctype, EnforcedText(enforced), QueryOptText(queryopt),
                 comment, [])
  }

  /** `DBForeignKey(...)`: the referential rules translated, no columns yet. */
  function NewForeignKey(tabschema: string, tabname: string, constname: string,
                         reftabschema: string, reftabname: string, delete: string, update: string,
                         enforced: string, queryopt: string, ctype: string,
                         comment: Option<string>): (c: Constraint)
    ensures c.ForeignKey? && c.cols == [] && c.refcols == []
    ensures c.deleteRule == DeleteRuleText(delete) && c.updateRule == UpdateRuleText(update)
    ensures c.enforced == EnforcedText(enforced) && c.queryopt == QueryOptText(queryopt)
  {
    ForeignKey(tabschema, tabname, constname, ctype, reftabschema, reftabname,
               DeleteRuleText(delete), UpdateRuleText(update),
               EnforcedText(enforced), QueryOptText(queryopt), comment, [], [])
  }

  /** `DBCheck(...)`. */
  function NewCheck(tabschema: string, tabname: string, constname: string, text: string,
                    enforced: string, queryopt: string, ctype: string, comment: Option<string>): (c: Constraint)
    ensures c.Check? && c.text == text
    ensures c.enforced == EnforcedText(enforced) && c.queryopt == QueryOptText(queryopt)
  {
    Check(tabschema, tabname, constname, ctype, text, EnforcedText(enforced), QueryOptText(queryopt), comment)
  }

  /** `DBCandidateKey.add_column` */
  function AddKeyColumn(c: Constraint, col: string): (r: Constraint)
    requires c.CandidateKey?
    ensures r.CandidateKey? && r.columns == c.columns + [col] && r.(columns := c.columns) == c
  {
    c.(columns := c.columns + [col])
  }

  /** `DBForeignKey.add_column` followed by `add_refcolumn`: the key column and
      the referenced column it matches go at the ends of their lists. */
  function AddColumnPair(c: Constraint, col: string, refcol: string): (r: Constraint)
    requires c.ForeignKey?
    ensures r.ForeignKey? && r.cols == c.cols + [col] && r.refcols == c.refcols + [refcol]
    ensures r.(cols := c.cols, refcols := c.refcols) == c
  {
    c.(cols := c.cols + [col], refcols := c.refcols + [refcol])
  }

  /** The key clause of a candidate key: `UNIQUE` for type `U`, a primary key
      for every other type. */
  function CandidateClause(ctype: string, columns: seq<string>): (r: string)
    ensures ("\n    UNIQUE (" <= r) <==> ctype == "U"
    ensures ("\n    PRIMARY KEY (" <= r) <==> ctype != "U"
    ensures EndsWith(r, "(" + Join(", ", columns) + ")")
  {
    var cols := "(" + Join(", ", columns) + ")";
    var r := "\n    " + (if ctype == "U" then "UNIQUE " else "PRIMARY KEY ") + cols;
    Halves("\n    " + (if ctype == "U" then "UNIQUE " else "PRIMARY KEY "), cols);
    assert ("\n    UNIQUE (" <= r) <==> ctype == "U" by {
      if ctype != "U" {
        assert r[5] != "\n    UNIQUE ("[5];
      }
    }
    assert ("\n    PRIMARY KEY (" <= r) <==> ctype != "U" by {
      if ctype == "U" {
        assert r[5] != "\n    PRIMARY KEY ("[5];
      }
    }
    r
  }

  /** The key and reference clauses of a foreign key: its columns, the
      referenced table and columns, then the delete rule before the update
      rule. */
  function ForeignClause(c: Constraint): (r: string)
    requires c.ForeignKey?
    ensures ("\n    FOREIGN KEY (" + Join(", ", c.cols) + ")\n    REFERENCES "
      + QualifiedName(c.reftabschema, c.reftabname) + "\n                (" + Join(", ", c.refcols) + ")") <= r
    ensures EndsWith(r, "\n        ON DELETE " + c.deleteRule + "\n        ON UPDATE " + c.updateRule)
  {
    var keys := "\n    FOREIGN KEY (" + Join(", ", c.cols) + ")\n    REFERENCES "
      + QualifiedName(c.reftabschema, c.reftabname) + "\n                (" + Join(", ", c.refcols) + ")";
    var rules := "\n        ON DELETE " + c.deleteRule + "\n        ON UPDATE " + c.updateRule;
    Halves(keys, rules);
    keys + rules
  }

  function ConstraintClause(c: Constraint): string
  {
    match c
    case CandidateKey(_, _, _, _, _, _, _, _) => CandidateClause(c.ctype, c.columns)
    case ForeignKey(_, _, _, _, _, _, _, _, _, _, _, _, _) => ForeignClause(c)
    case Check(_, _, _, _, _, _, _, _) => "\n    CHECK (" + c.text + ")"
  }

  function ConstraintHead(c: Constraint): string
  {
    "\nALTER TABLE " + QualifiedName(c.tabschema, c.tabname) + " ADD CONSTRAINT " + c.constname
  }

  /** The COMMENT ON CONSTRAINT statement, exactly when there is a comment. */
  function ConstraintComment(c: Constraint): (r: string)
    ensures r == "" <==> c.comment.None?
    ensures c.comment.Some? ==>
      ("\n\nCOMMENT ON CONSTRAINT " + QualifiedName(c.tabschema, c.tabname) + "." + c.constname + " IS ") <= r
    ensures c.comment.Some? ==> EndsWith(r, "'" + c.comment.value + "' @")
  {
    match c.comment
    case None => ""
    case Some(x) =>
      var lead := "\n\nCOMMENT ON CONSTRAINT " + QualifiedName(c.tabschema, c.tabname) + "." + c.constname + " IS ";
      Halves(lead, "'" + x + "' @");
      assert lead + ("'" + x + "' @") == lead + "'" + x + "' @";
      lead + "'" + x + "' @"
  }

  /** A constraint can be rendered only when both its enforcement and its
      query optimisation codes were recognised. */
  predicate Renderable(c: Constraint)
  {
    c.enforced.Some? && c.queryopt.Some?
  }

  /** A table can be rendered only when all its constraints can. */
  predicate TableRenderable(t: Table)
  {
    forall i :: 0 <= i < |t.constraints| ==> Renderable(t.constraints[i])
  }

  /** `__str__` of the three constraint classes: it fails (the attribute was
      never set) unless the constraint is renderable; the statement ends in
      ` @` right after the query optimisation keyword, and the quoted comment
      follows when there is one. */
  function ConstraintText(c: Constraint): (r: Result<string>)
    ensures r.Success? <==> Renderable(c)
    ensures r.Success? ==> (ConstraintHead(c) + ConstraintClause(c)) <= r.value
    ensures r.Success? ==>
      (ConstraintHead(c) + ConstraintClause(c)) + ("\n" + c.enforced.value + "\n" + c.queryopt.value + " @") <= r.value
    ensures r.Success? ==> EndsWith(r.value, ConstraintComment(c))
    ensures r.Success? && c.comment.None? ==>
      EndsWith(r.value, "\n" + c.enforced.value + "\n" + c.queryopt.value + " @")
    ensures r.Success? && c.comment.Some? ==> EndsWith(r.value, "'" + c.comment.value + "' @")
  {
    if !Renderable(c) then Failure("AttributeError: constraint attribute never set")
    else
      var head := ConstraintHead(c) + ConstraintClause(c);
      var body := "\n" + c.enforced.value + "\n" + c.queryopt.value + " @";
      var tail := ConstraintComment(c);
      EndsAndStarts(head, body, tail);
      Halves(head, body);
      Halves(head + body, tail);
      Success(head + body + tail)
  }

  // ---------------------------------------------------------------------------
  // Tables
  // ---------------------------------------------------------------------------

  datatype Table = Table(
    tabschema: string, tabname: string, tbspace: string,
    indexTbspace: Option<string>, longTbspace: Option<string>, appendMode: string,
    compress: string, tableorg: string, comment: Option<string>,
    columns: seq<Column>, indexes: seq<Index>, constraints: seq<Constraint>)

  /** The compression the table is built with: adaptive or static row
      compression for compression code `R`, none otherwise. */
  function CompressText(compression: string, rowcompmode: string): (r: string)
    ensures r == "COMPRESS YES ADAPTIVE" <==> compression == "R" && rowcompmode == "A"
    ensures r == "COMPRESS YES STATIC" <==> compression == "R" && rowcompmode != "A"
    ensures r == "COMPRESS NO" <==> compression != "R"
  {
    if compression == "R" then
      "COMPRESS YES" + (if rowcompmode == "A" then " ADAPTIVE" else " STATIC")
    else "COMPRESS NO"
  }

  /** The organisation clause: by row for `R`, by column for `C`, and the bare
      `ORGANIZE BY ` for any other code. */
  function OrganizeText(tableorg: string): (r: string)
    ensures r == "ORGANIZE BY ROW" <==> tableorg == "R"
    ensures r == "ORGANIZE BY COLUMN" <==> tableorg == "C"
    ensures r == "ORGANIZE BY " <==> tableorg != "R" && tableorg != "C"
  {
    "ORGANIZE BY " + (if tableorg == "R" then "ROW" else if tableorg == "C" then "COLUMN" else "")
  }

  /** `DBTable(...)`: the codes translated, no columns, indexes or constraints yet. */
  function NewTable(tabschema: string, tabname: string, tbspace: string,
                    indexTbspace: Option<string>, longTbspace: Option<string>, appendMode: string,
                    compression: string, rowcompmode: string, tableorg: string,
                    comment: Option<string>): (t: Table)
    ensures t.columns == [] && t.indexes == [] && t.constraints == []
    ensures t.compress == CompressText(compression, rowcompmode) && t.tableorg == OrganizeText(tableorg)
    ensures t.tabschema == tabschema && t.tabname == tabname
  {
    Table(tabschema, tabname, tbspace, indexTbspace, longTbspace, appendMode,
          CompressText(compression, rowcompmode), OrganizeText(tableorg), comment, [], [], [])
  }

  /** `DBTable.add_column`, `add_index` and `add_constraint`: each appends to
      its list and changes nothing else. */
  function AddTableColumn(t: Table, c: Column): (r: Table)
    ensures r.columns == t.columns + [c] && r.(columns := t.columns) == t
  {
    t.(columns := t.columns + [c])
  }

  function AddIndex(t: Table, i: Index): (r: Table)
    ensures r.indexes == t.indexes + [i] && r.(indexes := t.indexes) == t
  {
    t.(indexes := t.indexes + [i])
  }

  function AddConstraint(t: Table, c: Constraint): (r: Table)
    ensures r.constraints == t.constraints + [c] && r.(constraints := t.constraints) == t
  {
    t.(constraints := t.constraints + [c])
  }

  function Name(t: Table): string
  {
    QualifiedName(t.tabschema, t.tabname)
  }

  /** A constraint that names a parent table. */
  predicate IsParentRef(c: Constraint)
  {
    c.ForeignKey? && c.ctype == "F"
  }

  /** The referenced table of each foreign key, in constraint order. */
  function ParentsOf(cs: seq<Constraint>): seq<string>
  {
    if cs == [] then []
    else
      (if IsParentRef(cs[0]) then [QualifiedName(cs[0].reftabschema, cs[0].reftabname)] else [])
      + ParentsOf(cs[1..])
  }

  /** `get_parents` */
  function Parents(t: Table): seq<string>
  {
    ParentsOf(t.constraints)
  }

  /** A name is a parent exactly when some foreign key of the table refers to it. */
  lemma {:induction false} ParentsSpec(cs: seq<Constraint>)
    ensures |ParentsOf(cs)| <= |cs|
    ensures forall s :: s in ParentsOf(cs) <==>
      exists i :: 0 <= i < |cs| && IsParentRef(cs[i]) && s == QualifiedName(cs[i].reftabschema, cs[i].reftabname)
  {
    if cs != [] {
      ParentsSpec(cs[1..]);
      forall s | s in ParentsOf(cs)
        ensures exists i :: 0 <= i < |cs| && IsParentRef(cs[i]) && s == QualifiedName(cs[i].reftabschema, cs[i].reftabname)
      {
        if !(IsParentRef(cs[0]) && s == QualifiedName(cs[0].reftabschema, cs[0].reftabname)) {
          var j :| 0 <= j < |cs[1..]| && IsParentRef(cs[1..][j])
            && s == QualifiedName(cs[1..][j].reftabschema, cs[1..][j].reftabname);
          assert cs[j + 1] == cs[1..][j];
        }
      }
      forall s | exists i :: 0 <= i < |cs| && IsParentRef(cs[i]) && s == QualifiedName(cs[i].reftabschema, cs[i].reftabname)
        ensures s in ParentsOf(cs)
      {
        var i :| 0 <= i < |cs| && IsParentRef(cs[i]) && s == QualifiedName(cs[i].reftabschema, cs[i].reftabname);
        if i > 0 {
          assert cs[1..][i - 1] == cs[i];
        }
      }
    }
  }

  /** Adding a constraint keeps the parents found so far, in order, and adds
      the new one's when it is a foreign key. */
  lemma {:induction false} ParentsAppend(cs: seq<Constraint>, c: Constraint)
    ensures ParentsOf(cs + [c]) == ParentsOf(cs)
      + (if IsParentRef(c) then [QualifiedName(c.reftabschema, c.reftabname)] else [])
  {
    if cs != [] {
      assert (cs + [c])[1..] == cs[1..] + [c];
      ParentsAppend(cs[1..], c);
    } else {
      assert [c][1..] == [];
    }
  }

  /** `get_children`: the tables of the snapshot, in load order, that name `p`
      as a parent. */
  function Children(p: Table, all: seq<Table>): seq<string>
  {
    if all == [] then []
    else (if Name(p) in Parents(all[0]) then [Name(all[0])] else []) + Children(p, all[1..])
  }

  /** A name is among `p`'s children exactly when it is the name of a table of
      the snapshot whose parents include `p`'s name. */
  lemma {:induction false} ChildrenSpec(p: Table, all: seq<Table>)
    ensures |Children(p, all)| <= |all|
    ensures forall s :: s in Children(p, all) <==>
      exists i :: 0 <= i < |all| && s == Name(all[i]) && Name(p) in Parents(all[i])
  {
    if all != [] {
      ChildrenSpec(p, all[1..]);
      forall s | s in Children(p, all)
        ensures exists i :: 0 <= i < |all| && s == Name(all[i]) && Name(p) in Parents(all[i])
      {
        if !(s == Name(all[0]) && Name(p) in Parents(all[0])) {
          var j :| 0 <= j < |all[1..]| && s == Name(all[1..][j]) && Name(p) in Parents(all[1..][j]);
          assert all[j + 1] == all[1..][j];
        }
      }
      forall s | exists i :: 0 <= i < |all| && s == Name(all[i]) && Name(p) in Parents(all[i])
        ensures s in Children(p, all)
      {
        var i :| 0 <= i < |all| && s == Name(all[i]) && Name(p) in Parents(all[i]);
        if i > 0 {
          assert all[1..][i - 1] == all[i];
        }
      }
    }
  }

  /** A table is a child of `p` exactly when `p` is one of its parents. */
  lemma ChildOfParent(p: Table, all: seq<Table>, i: nat)
    requires i < |all|
    ensures Name(p) in Parents(all[i]) ==> Name(all[i]) in Children(p, all)
  {
    ChildrenSpec(p, all);
  }

  /** An attribute the source prints only when it `is not None` and not empty. */
  predicate Given(s: Option<string>)
  {
    s.Some? && s.value != ""
  }

  /** The table space line: `INDEX IN` and `LONG IN` only for given spaces. */
  function SpaceText(t: Table): (r: string)
    ensures ("\n) IN " + t.tbspace) <= r
    ensures r == "\n) IN " + t.tbspace <==> !Given(t.indexTbspace) && !Given(t.longTbspace)
    ensures Given(t.indexTbspace) ==> ("\n) IN " + t.tbspace + " INDEX IN " + t.indexTbspace.value) <= r
    ensures Given(t.longTbspace) ==> EndsWith(r, " LONG IN " + t.longTbspace.value)
  {
    var base := "\n) IN " + t.tbspace;
    var idx := if Given(t.indexTbspace) then " INDEX IN " + t.indexTbspace.value else "";
    var long := if Given(t.longTbspace) then " LONG IN " + t.longTbspace.value else "";
    var r := base + idx + long;
    assert r[..|base| + |idx|] == base + idx;
    assert EndsWith(r, long) by {
      assert r[|r| - |long|..] == long;
    }
    r
  }

  function ColumnTexts(cols: seq<Column>): (r: seq<string>)
    ensures |r| == |cols| && forall i :: 0 <= i < |cols| ==> r[i] == cols[i].text
  {
    if cols == [] then [] else [cols[0].text] + ColumnTexts(cols[1..])
  }

  function IndexTexts(ixs: seq<Index>): (r: seq<string>)
    ensures |r| == |ixs| && forall i :: 0 <= i < |ixs| ==> r[i] == IndexText(ixs[i])
  {
    EachIndex(ixs, IndexText);
    Each(ixs, IndexText)
  }

  /** The rendered constraints, in order; fails on the first constraint that
      cannot be rendered. */
  function ConstraintTexts(cs: seq<Constraint>): (r: Result<seq<string>>)
    ensures r.Success? <==> forall i :: 0 <= i < |cs| ==> Renderable(cs[i])
    ensures r.Success? ==>
      |r.value| == |cs| && forall i :: 0 <= i < |cs| ==> r.value[i] == ConstraintText(cs[i]).value
  {
    if cs == [] then Success([])
    else match ConstraintText(cs[0])
      case Failure(e) => Failure(e)
      case Success(s) =>
        match ConstraintTexts(cs[1..])
        case Failure(e) => Failure(e)
        case Success(rest) => Success([s] + rest)
  }

  function ColumnCommentLine(t: Table, c: Column): string
    requires c.comment.Some?
  {
    "\nCOMMENT ON COLUMN " + Name(t) + "." + c.colname + " IS '" + c.comment.value + "' @"
  }

  /** The COMMENT ON COLUMN statements, for the columns with a comment only,
      in column order. */
  function ColumnComments(t: Table, cols: seq<Column>): (r: seq<string>)
    ensures |r| <= |cols|
    ensures forall s :: s in r <==>
      exists i :: 0 <= i < |cols| && cols[i].comment.Some? && s == ColumnCommentLine(t, cols[i])
  {
    if cols == [] then []
    else
      var c := cols[0];
      var rest := ColumnComments(t, cols[1..]);
      assert forall i :: 0 < i < |cols| ==> cols[i] == cols[1..][i - 1];
      assert forall j :: 0 <= j < |cols[1..]| ==> cols[1..][j] == cols[j + 1];
      (if c.comment.Some? then [ColumnCommentLine(t, c)] else [])
        + rest
  }

  /** The start of `DBTable.__str__`: the terminator line, the table's name,
      each column on its own line, the table space line, compression and
      organisation. */
  function TableHead(t: Table): string
  {
    "--#SET TERMINATOR @\n\nCREATE TABLE " + Name(t) + Prefixed("\n", ColumnTexts(t.columns), "")
      + SpaceText(t) + "\n" + t.compress + "\n" + t.tableorg + " @"
  }

  /** The table comment statement, when the table has a comment. */
  function TableComment(t: Table): (r: string)
    ensures r == "" <==> t.comment.None?
    ensures t.comment.Some? ==> ("\n\nCOMMENT ON TABLE " + Name(t) + " IS ") <= r
    ensures t.comment.Some? ==> EndsWith(r, "'" + t.comment.value + "' @")
  {
    match t.comment
    case None => ""
    case Some(c) =>
      var lead := "\n\nCOMMENT ON TABLE " + Name(t) + " IS ";
      Halves(lead, "'" + c + "' @");
      assert lead + ("'" + c + "' @") == lead + "'" + c + "' @";
      lead + "'" + c + "' @"
  }

  /** `DBTable.__str__`: it fails exactly when one of the table's constraints
      cannot be rendered; otherwise the header comes first and the text ends
      with an empty line. The indexes follow the header, then the constraints,
      each in insertion order. */
  function TableText(t: Table): (r: Result<string>)
    ensures r.Success? <==> TableRenderable(t)
    ensures r.Success? ==>
      (TableHead(t) + Prefixed("\n", IndexTexts(t.indexes), "")
       + Prefixed("\n", ConstraintTexts(t.constraints).value, "")) <= r.value
    ensures r.Success? ==> EndsWith(r.value, "\n\n")
    ensures r.Success? ==>
      EndsWith(r.value, TableComment(t) + "\n" + Concat(ColumnComments(t, t.columns)) + "\n\n")
  {
    match ConstraintTexts(t.constraints)
    case Failure(e) => Failure(e)
    case Success(cs) =>
      var head := TableHead(t) + Prefixed("\n", IndexTexts(t.indexes), "") + Prefixed("\n", cs, "");
      var comments := TableComment(t) + "\n" + Concat(ColumnComments(t, t.columns));
      var tail := comments + "\n\n";
      Halves(head, tail);
      Halves(comments, "\n\n");
      EndsWithExtend(head, tail, "\n\n");
      Success(head + tail)
  }
}
