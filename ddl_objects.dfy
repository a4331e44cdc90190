/** The schema objects of the DDL regenerator (DBParser/DBParser.py) and their
    renderers: each object turns its loaded catalog attributes into the DDL text
    that recreates it (`__str__`) and into the COMMENT ON statements for its
    remarks (`get_remarks`).

    Attributes the source only truth-tests before printing (remarks, index and
    long table spaces, compression) are strings here, with "" standing for both
    None and the empty string, which the source treats alike. */
module DdlObjects {
  import opened Text
  import opened Wrappers

  // ---------------------------------------------------------------------------
  // Remarks
  // ---------------------------------------------------------------------------

  /** The number of characters of `r` whose code point is above 127. */
  function WideCount(r: string): (n: nat)
    ensures n <= |r|
  {
    if r == [] then 0 else (if r[0] as int > 127 then 1 else 0) + WideCount(r[1..])
  }

  /** The length the target dialect sees for a remark: characters outside the
      ASCII range count twice. */
  function RemarkLength(r: string): nat
  {
    |r| + WideCount(r)
  }

  /** A remark of pure ASCII text has its plain length. */
  lemma {:induction false} AsciiRemarkLength(r: string)
    requires forall k :: 0 <= k < |r| ==> r[k] as int <= 127
    ensures RemarkLength(r) == |r|
  {
    if r != [] {
      AsciiRemarkLength(r[1..]);
    }
  }

  /** Every non-ASCII character adds one to the remark length. */
  lemma {:induction false} WideRemarkLength(r: string)
    requires forall k :: 0 <= k < |r| ==> r[k] as int > 127
    ensures RemarkLength(r) == 2 * |r|
  {
    if r != [] {
      WideRemarkLength(r[1..]);
    }
  }

  /** The COMMENT ON statement for `remarks` on `target` (for instance
      "TABLE S.T"), ended by `tail`; nothing when there is no remark. A remark
      whose length reaches 255 is prefixed with `echo `. */
  function CommentOn(target: string, remarks: string, tail: string): (r: string)
    ensures r == "" <==> remarks == ""
    ensures remarks != "" ==> ("echo " <= r <==> RemarkLength(remarks) >= 255)
    ensures remarks != "" ==> EndsWith(r, "COMMENT ON " + target + " IS '" + remarks + "' @" + tail)
  {
    if remarks == "" then ""
    else
      var stmt := "COMMENT ON " + target + " IS '" + remarks + "' @" + tail;
      var r := (if RemarkLength(remarks) >= 255 then "echo " else "") + stmt;
      assert stmt[0] == 'C';
      assert EndsWith(r, stmt) by {
        assert r[|r| - |stmt|..] == stmt;
      }
      r
  }

  // ---------------------------------------------------------------------------
  // Columns
  // ---------------------------------------------------------------------------

  /** A row of the column query, in the order `DBColumn(*row)` takes it. */
  datatype Column = Column(
    schema: string, table: string, colname: string, typename: string,
    length: int, scale: int, nulls: string, default: string, generated: string,
    identity: string, text: string, compress: string, inlineLength: int, remarks: string)

  predicate IsIdentity(c: Column)
  {
    c.identity == "Y"
  }

  predicate IsCharType(typename: string)
  {
    typename == "CHARACTER" || typename == "VARCHAR"
  }

  /** What follows the length clause of a column definition. */
  function ColumnTail(c: Column): (r: string)
    ensures r == [] || r[0] == ' ' || r[0] == 'A'
    ensures IsIdentity(c) ==> EndsWith(r, "AS IDENTITY")
    ensures !IsIdentity(c) && (c.generated == "D" || c.generated == "A") ==> EndsWith(r, c.text)
    ensures r == "" <==> c.nulls != "N" && c.generated != "D" && c.generated != "A" && !IsIdentity(c)
    ensures (" NOT NULL" <= r) <==> c.nulls == "N"
    ensures var n := if c.nulls == "N" then " NOT NULL" else "";
      (c.generated == "D" ==> (n + " GENERATED BY DEFAULT ") <= r)
      && (c.generated == "A" ==> (n + " GENERATED ALWAYS ") <= r)
      && (c.generated != "D" && c.generated != "A" ==> r == n + (if IsIdentity(c) then "AS IDENTITY" else ""))
  {
    var nulls := if c.nulls == "N" then " NOT NULL" else "";
    var gen := if c.generated == "D" then " GENERATED BY DEFAULT "
               else if c.generated == "A" then " GENERATED ALWAYS " else "";
    var ident := if IsIdentity(c) then "AS IDENTITY"
                 else if c.generated == "D" || c.generated == "A" then c.text else "";
    Halves(nulls + gen, ident);
    var r := nulls + gen + ident;
    assert c.nulls != "N" ==> (|r| > 1 && r[1] == 'G') || r == "" || r[0] == 'A' by {
      if c.nulls != "N" && gen != "" {
        assert r[1] == gen[1];
      }
    }
    r
  }

  /** `DBColumn.__str__`. Only CHARACTER and VARCHAR columns get a `(length)`;
      the DECIMAL branch of the source sits inside that test, so a DECIMAL
      column never shows its precision. */
  function ColumnDdl(c: Column): (r: string)
    ensures (c.colname + " " + c.typename + LengthClause(c.typename, c.length)) <= r
    ensures EndsWith(r, ColumnTail(c))
  {
    var head := c.colname + " " + c.typename;
    var len := LengthClause(c.typename, c.length);
    var tail := ColumnTail(c);
    Halves(head, len + tail);
    Halves(len, tail);
    EndsWithExtend(head, len + tail, tail);
    PrefixOfPrefix(head, len, tail);
    head + (len + tail)
  }

  /** A length follows the column's name and type exactly for CHARACTER and
      VARCHAR columns, so never for DECIMAL. */
  lemma ColumnLengthShown(c: Column)
    ensures var head := c.colname + " " + c.typename;
      head <= ColumnDdl(c) && ((head + "(") <= ColumnDdl(c) <==> IsCharType(c.typename))
  {
    var head := c.colname + " " + c.typename;
    var rest := LengthClause(c.typename, c.length) + ColumnTail(c);
    assert ColumnDdl(c) == head + rest;
    Halves(head, rest);
    PrefixByChar(head, '(', rest);
  }

  /** A column definition ends with its identity clause or, for a generated
      column, with its generation expression. */
  lemma ColumnEnding(c: Column)
    ensures IsIdentity(c) ==> EndsWith(ColumnDdl(c), "AS IDENTITY")
    ensures !IsIdentity(c) && (c.generated == "D" || c.generated == "A") ==> EndsWith(ColumnDdl(c), c.text)
  {
    EndsWithChain(ColumnDdl(c), ColumnTail(c), "AS IDENTITY");
    EndsWithChain(ColumnDdl(c), ColumnTail(c), c.text);
  }

  /** The length of a column type: only CHARACTER and VARCHAR show one. */
  function LengthClause(typename: string, length: int): (r: string)
    ensures r == "" <==> !IsCharType(typename)
    ensures r != "" ==> |r| >= 3 && r[0] == '(' && r[1..|r| - 1] == IntToString(length) && r[|r| - 1] == ')'
  {
    if IsCharType(typename) then "(" + IntToString(length) + ")" else ""
  }

  /** `DBColumn.get_remarks` */
  function ColumnRemarks(c: Column): string
  {
    CommentOn("COLUMN " + c.schema + "." + c.table + "." + c.colname, c.remarks, "\n")
  }

  // ---------------------------------------------------------------------------
  // Tables and views
  // ---------------------------------------------------------------------------

  /** A row of the table query, with the columns attached to it by the loader. */
  datatype Table = Table(
    schema: string, name: string, compression: string, tablespace: string,
    indexspace: string, longspace: string, organization: string, volatile: string,
    append: string, remarks: string, columns: seq<Column>)

  /** A row of the view query; `text` is already cleared of blank lines. */
  datatype View = View(
    schema: string, name: string, optimization: string, text: string,
    viewtype: string, remarks: string)

  /** What the regenerator's table dictionary holds: tables and views share it. */
  datatype Relation = TableRel(table: Table) | ViewRel(view: View)

  /** `DBTable.add_column` */
  function AddColumn(t: Table, c: Column): (r: Table)
    ensures r.columns == t.columns + [c]
    ensures r.(columns := t.columns) == t
  {
    t.(columns := t.columns + [c])
  }

  /** `DBTable.get_identity_column`: the first identity column, if any. */
  function IdentityColumn(cols: seq<Column>): (r: Option<Column>)
    ensures r.None? <==> forall k :: 0 <= k < |cols| ==> !IsIdentity(cols[k])
    ensures r.Some? ==> (exists k :: 0 <= k < |cols| && cols[k] == r.value && IsIdentity(r.value)
                                && forall j :: 0 <= j < k ==> !IsIdentity(cols[j]))
  {
    if cols == [] then None
    else if IsIdentity(cols[0]) then Some(cols[0])
    else
      var r := IdentityColumn(cols[1..]);
      assert r.Some? ==> (exists k :: 0 <= k < |cols| - 1 && cols[1..][k] == r.value && IsIdentity(r.value)
                                 && forall j :: 0 <= j < k ==> !IsIdentity(cols[1..][j]));
      if r.Some? then
        var k :| 0 <= k < |cols| - 1 && cols[1..][k] == r.value && IsIdentity(r.value)
          && forall j :: 0 <= j < k ==> !IsIdentity(cols[1..][j]);
        assert cols[k + 1] == r.value;
        assert forall j :: 0 <= j < k + 1 ==> !IsIdentity(cols[j]) by {
          forall j | 0 <= j < k + 1 ensures !IsIdentity(cols[j]) {
            if j > 0 {
              assert cols[j] == cols[1..][j - 1];
            }
          }
        }
        r
      else
        r
  }

  function ColumnDdls(cols: seq<Column>): (r: seq<string>)
    ensures |r| == |cols| && forall k :: 0 <= k < |cols| ==> r[k] == ColumnDdl(cols[k])
  {
    seq(|cols|, k requires 0 <= k < |cols| => ColumnDdl(cols[k]))
  }

  /** The column lines of `CREATE TABLE` as the source's loop writes them: the
      first column after a space, every later one after a comma. */
  function ColumnLines(cols: seq<Column>): string
    requires cols != []
  {
    var ds := ColumnDdls(cols);
    " " + ds[0] + "\n" + Prefixed(", ", ds[1..], "\n")
  }

  /** The column lines are the column definitions in insertion order, joined by
      a newline and a comma, between a leading space and a newline. */
  lemma ColumnLinesJoin(cols: seq<Column>)
    requires cols != []
    ensures ColumnLines(cols) == " " + Join("\n, ", ColumnDdls(cols)) + "\n"
  {
    var ds := ColumnDdls(cols);
    PrefixedJoinIn(" ", ds, ", ", "\n", "");
    var a := " " + ds[0] + "\n" + Prefixed(", ", ds[1..], "\n");
    var b := " " + Join("\n" + ", ", ds) + "\n";
    assert a + "" == a && b + "" == b;
    assert "\n" + ", " == "\n, ";
  }

  /** The table space clause: `INDEX IN` and `LONG IN` only when those spaces are set. */
  function SpaceClause(t: Table): (r: string)
    ensures ("IN " + t.tablespace) <= r
    ensures r == "IN " + t.tablespace <==> t.indexspace == "" && t.longspace == ""
    ensures t.indexspace != "" ==> ("IN " + t.tablespace + " INDEX IN " + t.indexspace) <= r
    ensures t.longspace != "" ==> EndsWith(r, " LONG IN " + t.longspace)
  {
    var base := "IN " + t.tablespace;
    var idx := if t.indexspace != "" then " INDEX IN " + t.indexspace else "";
    var long := if t.longspace != "" then " LONG IN " + t.longspace else "";
    var r := base + idx + long;
    assert r[..|base| + |idx|] == base + idx;
    assert EndsWith(r, long) by {
      assert r[|r| - |long|..] == long;
    }
    r
  }

  /** The last line of `CREATE TABLE`: row organisation exactly when the
      organisation code is `R`, column organisation otherwise. */
  function OrganizeClause(organization: string): (r: string)
    ensures r == "ORGANIZE BY ROW @\n\n" <==> organization == "R"
    ensures r == "ORGANIZE BY COLUMN @\n\n" <==> organization != "R"
  {
    "ORGANIZE BY " + (if organization == "R" then "ROW" else "COLUMN") + " @\n\n"
  }

  /** `DBTable.__str__`; the source indexes the first column, so a table
      without columns cannot be rendered. */
  function TableDdl(t: Table): (r: string)
    requires t.columns != []
    ensures ("CREATE TABLE " + t.schema + "." + t.name + "\n(" + ColumnLines(t.columns) + ") "
      + SpaceClause(t) + "\n") <= r
    ensures EndsWith(r, CompressClause(t.compression) + OrganizeClause(t.organization))
  {
    var head := "CREATE TABLE " + t.schema + "." + t.name + "\n(" + ColumnLines(t.columns) + ") "
      + SpaceClause(t) + "\n";
    var tail := CompressClause(t.compression) + OrganizeClause(t.organization);
    Halves(head, tail);
    head + tail
  }

  /** Adaptive compression for every table whose compression attribute is set. */
  function CompressClause(compression: string): (r: string)
    ensures r == "" <==> compression == ""
    ensures r == "COMPRESS YES ADAPTIVE \n" <==> compression != ""
  {
    if compression != "" then "COMPRESS YES ADAPTIVE \n" else ""
  }

  /** `DBTable.get_remarks`: the table's remark, then each column's remark in
      column order, then an empty line. */
  function TableRemarks(t: Table): (r: string)
    ensures CommentOn("TABLE " + t.schema + "." + t.name, t.remarks, "\n\n") <= r
    ensures EndsWith(r, Concat(ColumnRemarksOf(t.columns)) + "\n")
  {
    var own := CommentOn("TABLE " + t.schema + "." + t.name, t.remarks, "\n\n");
    var cols := Concat(ColumnRemarksOf(t.columns)) + "\n";
    Halves(own, cols);
    assert own + Concat(ColumnRemarksOf(t.columns)) + "\n" == own + cols;
    own + cols
  }

  function ColumnRemarksOf(cols: seq<Column>): (r: seq<string>)
    ensures |r| == |cols| && forall k :: 0 <= k < |cols| ==> r[k] == ColumnRemarks(cols[k])
  {
    seq(|cols|, k requires 0 <= k < |cols| => ColumnRemarks(cols[k]))
  }

  /** `DBView.__str__`: the view text, then an optimisation statement when
      query optimisation is enabled and a refresh when it is a materialized
      query table. */
  function ViewDdl(v: View): (r: string)
    ensures (v.text + " @\n\n" + ViewOptimizationClause(v)) <= r
    ensures EndsWith(r, ViewRefreshClause(v) + "\n")
  {
    var head := v.text + " @\n\n" + ViewOptimizationClause(v);
    var tail := ViewRefreshClause(v) + "\n";
    Halves(head, tail);
    head + tail
  }

  /** Query optimisation is switched on for a view exactly when its code is `Y`. */
  function ViewOptimizationClause(v: View): (r: string)
    ensures r == "" <==> v.optimization != "Y"
    ensures v.optimization == "Y" ==> r == "ALTER VIEW " + v.schema + "." + v.name + " ENABLE QUERY OPTIMIZATION @\n\n"
  {
    if v.optimization == "Y" then "ALTER VIEW " + v.schema + "." + v.name + " ENABLE QUERY OPTIMIZATION @\n\n" else ""
  }

  /** A materialized query table (view type `S`) is refreshed after it is created. */
  function ViewRefreshClause(v: View): (r: string)
    ensures r == "" <==> v.viewtype != "S"
    ensures v.viewtype == "S" ==> r == "REFRESH TABLE " + v.schema + "." + v.name + " @\n\n"
  {
    if v.viewtype == "S" then "REFRESH TABLE " + v.schema + "." + v.name + " @\n\n" else ""
  }

  /** `DBView.get_remarks` */
  function ViewRemarks(v: View): string
  {
    CommentOn("TABLE " + v.schema + "." + v.name, v.remarks, "\n\n") + "\n"
  }

  // ---------------------------------------------------------------------------
  // Indexes
  // ---------------------------------------------------------------------------

  datatype KeyColumn = KeyColumn(name: string, order: string)

  /** A row of the index query, with the columns attached by the loader:
      `keys` in key order, `includes` the INCLUDE columns. */
  datatype Index = Index(
    tabschema: string, tabname: string, schema: string, name: string,
    unique: string, itype: string, pctfree: string, reverseScans: string,
    compression: string, nullkeys: string, remarks: string, typemodel: string,
    dataType: string, length: int, scale: int, pattern: string,
    keys: seq<KeyColumn>, includes: seq<string>)

  /** `DBIndex.add_column`: an `I` column goes to the include list, any other
      to the key list with its order code. */
  function AddIndexColumn(i: Index, colname: string, colorder: string): (r: Index)
    ensures colorder == "I" ==> r.includes == i.includes + [colname] && r.keys == i.keys
    ensures colorder != "I" ==> r.keys == i.keys + [KeyColumn(colname, colorder)] && r.includes == i.includes
    ensures r.(keys := i.keys, includes := i.includes) == i
  {
    if colorder == "I" then i.(includes := i.includes + [colname])
    else i.(keys := i.keys + [KeyColumn(colname, colorder)])
  }

  /** One key column in the key list: ` DESC` exactly for descending columns. */
  function KeyText(k: KeyColumn): (r: string)
    ensures k.order == "D" ==> r == k.name + " DESC"
    ensures k.order != "D" ==> r == k.name
  {
    k.name + (if k.order == "D" then " DESC" else "")
  }

  function KeyTexts(keys: seq<KeyColumn>): (r: seq<string>)
    ensures |r| == |keys| && forall k :: 0 <= k < |keys| ==> r[k] == KeyText(keys[k])
  {
    seq(|keys|, k requires 0 <= k < |keys| => KeyText(keys[k]))
  }

  /** The key list as the source's loop writes it. */
  function KeyList(keys: seq<KeyColumn>): string
    requires keys != []
  {
    var ks := KeyTexts(keys);
    ks[0] + Prefixed(", ", ks[1..], "")
  }

  /** The key list is the key texts joined by `, ` in insertion order. */
  lemma KeyListJoin(keys: seq<KeyColumn>)
    requires keys != []
    ensures KeyList(keys) == Join(", ", KeyTexts(keys))
  {
    var ks := KeyTexts(keys);
    PrefixedJoinIn("", ks, ", ", "", "");
    var a := ks[0] + Prefixed(", ", ks[1..], "");
    var b := Join("" + ", ", ks);
    assert "" + ks[0] + "" == ks[0];
    assert "" + ks[0] + "" + Prefixed(", ", ks[1..], "") + "" == a;
    assert "" + b + "" + "" == b;
    assert "" + ", " == ", ";
  }

  /** The INCLUDE clause: present exactly when there are include columns, and
      then the include columns joined by `, ` in insertion order. */
  function IncludeClause(cols: seq<string>): (r: string)
    ensures r == "" <==> cols == []
    ensures cols != [] ==> r == "INCLUDE (" + Join(", ", cols) + ") \n"
  {
    if cols == [] then ""
    else
      PrefixedJoinIn("INCLUDE (", cols, ", ", "", ") \n");
      assert "" + ", " == ", ";
      assert "INCLUDE (" + cols[0] + "" == "INCLUDE (" + cols[0];
      assert "INCLUDE (" + Join(", ", cols) + "" == "INCLUDE (" + Join(", ", cols);
      "INCLUDE (" + cols[0] + Prefixed(", ", cols[1..], "") + ") \n"
  }

  /** The XML pattern clause of an `XVIL` index. */
  function XmlPatternClause(i: Index): (r: string)
    ensures r == "" <==> i.itype != "XVIL"
    ensures i.itype == "XVIL" ==>
      r == "GENERATE KEY USING XMLPATTERN '" + i.pattern + "'\n  AS SQL " + i.dataType
        + XmlSizeClause(i.dataType, i.length, i.scale) + InvalidValuesClause(i.typemodel)
  {
    if i.itype != "XVIL" then ""
    else
      var head := "GENERATE KEY USING XMLPATTERN '" + i.pattern + "'\n  AS SQL " + i.dataType;
      var size := (if IsCharType(i.dataType) then "(" + IntToString(i.length) + " OCTETS) " else "")
        + (if i.dataType == "DECIMAL" then "(" + IntToString(i.length) + ", " + IntToString(i.scale) + ") " else "");
      assert size == XmlSizeClause(i.dataType, i.length, i.scale);
      head + size + InvalidValuesClause(i.typemodel)
  }

  /** The size of an XML pattern key: its octet length for character types,
      its precision and scale for DECIMAL, nothing for any other type. */
  function XmlSizeClause(dataType: string, length: int, scale: int): (r: string)
    ensures IsCharType(dataType) ==> r == "(" + IntToString(length) + " OCTETS) "
    ensures dataType == "DECIMAL" ==> r == "(" + IntToString(length) + ", " + IntToString(scale) + ") "
    ensures r == "" <==> !IsCharType(dataType) && dataType != "DECIMAL"
  {
    if IsCharType(dataType) then "(" + IntToString(length) + " OCTETS) "
    else if dataType == "DECIMAL" then "(" + IntToString(length) + ", " + IntToString(scale) + ") "
    else ""
  }

  /** Values that do not fit the index's SQL type are ignored for type model
      `Q` and rejected otherwise. */
  function InvalidValuesClause(typemodel: string): (r: string)
    ensures r == "IGNORE INVALID VALUES\n" <==> typemodel == "Q"
    ensures r == "REJECT INVALID VALUES\n" <==> typemodel != "Q"
  {
    if typemodel == "Q" then "IGNORE INVALID VALUES\n" else "REJECT INVALID VALUES\n"
  }

  /** `UNIQUE ` exactly for the unique rules `P` (primary key) and `U`. */
  function UniqueWord(unique: string): (r: string)
    ensures r == "UNIQUE " <==> unique == "P" || unique == "U"
    ensures r == "" <==> unique != "P" && unique != "U"
  {
    if unique == "P" || unique == "U" then "UNIQUE " else ""
  }

  /** The optional index options: each present exactly when its code asks for it. */
  function IndexOptions(i: Index): string
  {
    CompressFlag(i.compression) + ClusterFlag(i.itype) + NullKeysFlag(i.nullkeys)
  }

  function CompressFlag(compression: string): (r: string)
    ensures r == "COMPRESS YES\n" <==> compression == "Y"
    ensures r == "" <==> compression != "Y"
  {
    if compression == "Y" then "COMPRESS YES\n" else ""
  }

  function ClusterFlag(itype: string): (r: string)
    ensures r == "CLUSTER \n" <==> itype == "CLUS"
    ensures r == "" <==> itype != "CLUS"
  {
    if itype == "CLUS" then "CLUSTER \n" else ""
  }

  function NullKeysFlag(nullkeys: string): (r: string)
    ensures r == "EXCLUDE NULL KEYS\n" <==> nullkeys == "N"
    ensures r == "" <==> nullkeys != "N"
  {
    if nullkeys == "N" then "EXCLUDE NULL KEYS\n" else ""
  }

  /** `DBIndex.__str__`; the source indexes the first key column, so an index
      without key columns cannot be rendered. Reverse scans are always allowed
      and sampled detailed statistics always collected. */
  function IndexDdl(i: Index): (r: string)
    requires i.keys != []
    ensures ("CREATE " + UniqueWord(i.unique) + "INDEX " + i.schema + "." + i.name + " ON " + i.tabschema
      + "." + i.tabname + "\n (" + KeyList(i.keys) + ") \n" + IncludeClause(i.includes)
      + XmlPatternClause(i)) <= r
    ensures EndsWith(r, IndexOptions(i) + "ALLOW REVERSE SCANS\nCOLLECT SAMPLED DETAILED STATISTICS @\n\n")
  {
    var head := "CREATE " + UniqueWord(i.unique) + "INDEX " + i.schema + "." + i.name + " ON " + i.tabschema
      + "." + i.tabname + "\n (" + KeyList(i.keys) + ") \n" + IncludeClause(i.includes)
      + XmlPatternClause(i);
    var tail := IndexOptions(i) + "ALLOW REVERSE SCANS\nCOLLECT SAMPLED DETAILED STATISTICS @\n\n";
    Halves(head, tail);
    head + tail
  }

  /** `DBIndex.get_remarks` */
  function IndexRemarks(i: Index): string
  {
    CommentOn("INDEX " + i.schema + "." + i.name, i.remarks, "\n\n")
  }

  // ---------------------------------------------------------------------------
  // Routines
  // ---------------------------------------------------------------------------

  /** A parameter row of an external routine. */
  datatype Parameter = Parameter(
    specificname: string, schema: string, routine: string, name: string,
    typename: string, length: int, scale: int, codepage: int)

  /** An SQL-bodied routine (`DBRoutine`) or an external one (`DBRoutineExternal`). */
  datatype Routine =
    | SqlRoutine(specificname: string, schema: string, name: string, text: string,
                 rtype: string, remarks: string)
    | ExternalRoutine(specificname: string, schema: string, name: string, rtype: string,
                      returnType: string, length: int, scale: int, language: string,
                      parameterStyle: string, deterministic: string, externalAction: string,
                      fenced: string, threadsafe: string, implementation: string,
                      remarks: string, codepage: int, sqlDataAccess: string,
                      params: seq<Parameter>)

  /** `add_params`: external routines append the parameter; the SQL-bodied
      routine's `add_params` does nothing. */
  function AddParam(r: Routine, p: Parameter): (r': Routine)
    ensures r.SqlRoutine? ==> r' == r
    ensures r.ExternalRoutine? ==>
      r'.ExternalRoutine? && r'.params == r.params + [p] && r'.(params := r.params) == r
  {
    if r.ExternalRoutine? then r.(params := r.params + [p]) else r
  }

  /** Whether `c` matches the lower-case ASCII letter `l` under Python's
      case-insensitive regular-expression matching (which also pairs `i` with
      the dotted and dotless i, `s` with the long s and `k` with the Kelvin sign). */
  predicate FoldMatch(c: char, l: char)
  {
    c == l || (c as int == l as int - 32)
    || (l == 's' && c == '\U{17F}')
    || (l == 'i' && (c == '\U{130}' || c == '\U{131}'))
    || (l == 'k' && c == '\U{212A}')
  }

  const SpecificWord: string := "specific"

  predicate WordAt(text: string, i: nat)
  {
    i + |SpecificWord| <= |text| && forall j :: 0 <= j < |SpecificWord| ==> FoldMatch(text[i + j], SpecificWord[j])
  }

  /** `re.search("specific", text, re.IGNORECASE)` found something. */
  predicate MentionsSpecific(text: string)
  {
    exists i :: 0 <= i <= |text| && WordAt(text, i)
  }

  /** The number of `(` minus the number of `)` in `s`. */
  function Depth(s: string): int
  {
    if s == [] then 0
    else Depth(s[..|s| - 1]) + (if s[|s| - 1] == '(' then 1 else if s[|s| - 1] == ')' then -1 else 0)
  }

  /** Position `i` closes the first parenthesised group: a `(` has been seen by
      then and the parentheses up to and including `i` balance. */
  predicate ClosesAt(text: string, i: int)
  {
    0 <= i < |text| && '(' in text[..i + 1] && Depth(text[..i + 1]) == 0
  }

  function SearchClose(text: string, from: nat): (r: Option<nat>)
    ensures r.Some? ==>
      from <= r.value && ClosesAt(text, r.value) && forall k :: from <= k < r.value ==> !ClosesAt(text, k)
    ensures r.None? ==> forall k :: from <= k < |text| ==> !ClosesAt(text, k)
    decreases |text| - from
  {
    if from >= |text| then None
    else if ClosesAt(text, from) then Some(from)
    else SearchClose(text, from + 1)
  }

  /** The position after which the SPECIFIC clause goes: the first one that
      closes the first parenthesised group. */
  function SpecificPos(text: string): (r: Option<nat>)
    ensures r.Some? <==> exists k :: 0 <= k < |text| && ClosesAt(text, k)
    ensures r.Some? ==> ClosesAt(text, r.value) && forall k :: 0 <= k < r.value ==> !ClosesAt(text, k)
  {
    SearchClose(text, 0)
  }

  function SpecificClause(specificname: string): string
  {
    "\n SPECIFIC " + specificname + " \n"
  }

  /** The routine text with the SPECIFIC clause inserted (at most once). */
  function WithSpecific(text: string, specificname: string): string
  {
    match SpecificPos(text)
    case None => text
    case Some(p) => text[..p + 1] + SpecificClause(specificname) + text[p + 1..]
  }

  /** What `DBRoutine.__str__` returns. */
  function RoutineText(text: string, specificname: string): string
  {
    (if MentionsSpecific(text) then text else WithSpecific(text, specificname)) + " @\n\n"
  }

  /** Taking the inserted SPECIFIC clause out again gives back the routine text
      followed by the terminator. */
  lemma {:induction false} SpecificRemovable(text: string, specificname: string)
    ensures var r := RoutineText(text, specificname);
      if MentionsSpecific(text) || SpecificPos(text).None? then r == text + " @\n\n"
      else var p := SpecificPos(text).value;
        r[..p + 1] == text[..p + 1]
        && r[p + 1..p + 1 + |SpecificClause(specificname)|] == SpecificClause(specificname)
        && r[..p + 1] + r[p + 1 + |SpecificClause(specificname)|..] == text + " @\n\n"
  {
    if !MentionsSpecific(text) && SpecificPos(text).Some? {
      var p := SpecificPos(text).value;
      var cl := SpecificClause(specificname);
      var r := RoutineText(text, specificname);
      assert r == text[..p + 1] + cl + text[p + 1..] + " @\n\n";
      assert r[p + 1 + |cl|..] == text[p + 1..] + " @\n\n";
      assert text[..p + 1] + text[p + 1..] == text;
    }
  }

  /** The SPECIFIC clause follows the character that brings the parenthesis
      depth back to zero: a closing one, or an opening one that balances
      closing parentheses seen before any opening one. */
  lemma SpecificAfterParen(text: string)
    requires SpecificPos(text).Some?
    ensures text[SpecificPos(text).value] == ')' || text[SpecificPos(text).value] == '('
  {
    var p := SpecificPos(text).value;
    CloseNeedsParen(text, p);
  }

  /** A position that closes the group holds a parenthesis, or the position
      before it already closed the group. */
  lemma CloseNeedsParen(text: string, p: nat)
    requires ClosesAt(text, p)
    ensures text[p] == ')' || text[p] == '(' || (p > 0 && ClosesAt(text, p - 1))
  {
    var s := text[..p + 1];
    assert s[..|s| - 1] == text[..p];
    if text[p] != ')' && text[p] != '(' {
      assert Depth(text[..p]) == 0;
      var j :| 0 <= j < |s| && s[j] == '(';
      assert j < p && text[..p][j] == '(';
    }
  }

  /** One more character of the routine text: the prefix grows by it, and so
      do its depth and whether it holds a `(`. */
  lemma PrefixStep(text: string, i: int)
    requires 0 <= i < |text|
    ensures text[..i + 1] == text[..i] + [text[i]]
    ensures Depth(text[..i + 1]) == Depth(text[..i])
      + (if text[i] == '(' then 1 else if text[i] == ')' then -1 else 0)
    ensures '(' in text[..i + 1] <==> '(' in text[..i] || text[i] == '('
  {
    assert text[..i + 1][..i] == text[..i];
  }

  /** `DBRoutine.__str__`: unless the text already names a SPECIFIC clause,
      scan it character by character, counting parentheses from the first
      `(`, and insert the clause right after the character that balances them. */
  method RenderRoutine(text: string, specificname: string) returns (s: string)
    ensures s == RoutineText(text, specificname)
  {
    if MentionsSpecific(text) {
      return text + " @\n\n";
    }
    var res := "";
    var n := 0;
    var start := 0;
    var i := 0;
    while i < |text|
      invariant 0 <= i <= |text|
      invariant start == 0 || start == 1 || start == -1
      invariant start >= 0 ==> res == text[..i] && n == Depth(text[..i])
      invariant start >= 0 ==> (start == 1 <==> '(' in text[..i])
      invariant start >= 0 ==> forall k :: 0 <= k < i ==> !ClosesAt(text, k)
      invariant start == -1 ==> SpecificPos(text).Some? && SpecificPos(text).value < i
      invariant start == -1 ==>
        res == text[..SpecificPos(text).value + 1] + SpecificClause(specificname) + text[SpecificPos(text).value + 1..i]
    {
      var c := text[i];
      ghost var before := res;
      res := res + [c];
      if c == '(' && start >= 0 {
        start := 1;
        n := n + 1;
      }
      if c == ')' && start >= 0 {
        n := n - 1;
      }
      if start >= 0 {
        PrefixStep(text, i);
      } else {
        assert text[SpecificPos(text).value + 1..i + 1] == text[SpecificPos(text).value + 1..i] + [c];
      }
      if start == 1 && n == 0 {
        assert ClosesAt(text, i);
        assert SpecificPos(text) == Some(i);
        res := res + SpecificClause(specificname);
        start := -1;
        assert text[i + 1..i + 1] == [];
      }
      i := i + 1;
    }
    assert text[..i] == text;
    s := res + " @\n\n";
  }

  /** `DBRoutine.get_remarks` and `DBRoutineExternal.get_remarks`: comments go
      on the specific name, as a FUNCTION when the routine type is `F` and as a
      PROCEDURE otherwise. */
  function RoutineRemarks(r: Routine): string
  {
    var kind := if r.rtype == "F" then "SPECIFIC FUNCTION " else "SPECIFIC PROCEDURE ";
    CommentOn(kind + r.schema + "." + r.specificname, r.remarks, "\n\n")
  }

  /** `DBExternalRoutineParameter.__str__`. The source assigns the type text
      over what it built from the parameter name, so the name never appears. */
  function ParameterText(p: Parameter): (r: string)
    ensures (" " + p.typename) <= r
    ensures IsCharType(p.typename) ==>
      r == " " + p.typename + "(" + IntToString(p.length) + ")" + (if p.codepage == 0 then " FOR BIT DATA" else "")
    ensures p.typename == "DECIMAL" ==>
      r == " " + p.typename + "(" + IntToString(p.length) + "," + IntToString(p.scale) + ")"
    ensures !IsCharType(p.typename) && p.typename != "DECIMAL" ==> r == " " + p.typename
  {
    var sized := IsCharType(p.typename) || p.typename == "DECIMAL";
    var lead := " " + p.typename;
    var size := if sized then "(" + IntToString(p.length) + (if p.typename == "DECIMAL" then "," + IntToString(p.scale) else "") + ")" else "";
    var bits := if sized && p.codepage == 0 && IsCharType(p.typename) then " FOR BIT DATA" else "";
    Halves(lead, size + bits);
    assert lead + size + bits == lead + (size + bits);
    if p.typename == "DECIMAL" then
      assert bits == [];
      assert size == "(" + IntToString(p.length) + "," + IntToString(p.scale) + ")";
      lead + size + bits
    else if IsCharType(p.typename) then
      assert size == "(" + IntToString(p.length) + ")";
      assert bits == (if p.codepage == 0 then " FOR BIT DATA" else "");
      lead + size + bits
    else
      assert size + bits == [];
      lead + size + bits
  }

  /** The parameter name does not take part in the parameter's rendering. */
  lemma ParameterNameIgnored(p: Parameter, name: string)
    ensures ParameterText(p.(name := name)) == ParameterText(p)
  {
  }

  /** A DECIMAL parameter's text holds a comma between its length and scale,
      so a parameter list joined by `, ` cannot be split back at its commas. */
  lemma DecimalParameterHasComma(p: Parameter)
    requires p.typename == "DECIMAL"
    ensures ',' in ParameterText(p)
  {
    var lead := " " + p.typename + "(" + IntToString(p.length);
    assert ParameterText(p) == lead + ("," + IntToString(p.scale) + ")");
    assert ParameterText(p)[|lead|] == ',';
  }

  function ParameterTexts(ps: seq<Parameter>): (r: seq<string>)
    ensures |r| == |ps| && forall k :: 0 <= k < |ps| ==> r[k] == ParameterText(ps[k])
  {
    seq(|ps|, k requires 0 <= k < |ps| => ParameterText(ps[k]))
  }

  /** The SQL data access clause; `R` and `C` both read CONTAINS SQL. */
  function SqlDataAccessClause(code: string): (r: string)
    ensures r == "NO SQL" <==> code == "N"
    ensures r == "MODIFIES SQL DATA" <==> code == "M"
    ensures r == "CONTAINS SQL" <==> code == "R" || code == "C"
    ensures r == "" <==> code !in {"N", "M", "R", "C"}
    ensures '\n' !in r
  {
    if code == "N" then "NO SQL"
    else if code == "M" then "MODIFIES SQL DATA"
    else if code == "R" then "CONTAINS SQL"
    else if code == "C" then "CONTAINS SQL"
    else ""
  }

  /** The RETURNS line of an external routine: the return type, its size for
      character types and DECIMAL, and FOR BIT DATA for a character type with
      code page 0. */
  function ReturnsClause(r: Routine): (s: string)
    requires r.ExternalRoutine?
    ensures IsCharType(r.returnType) ==>
      s == "RETURNS " + r.returnType + "(" + IntToString(r.length) + ")"
        + (if r.codepage == 0 then " FOR BIT DATA" else "") + "\n"
    ensures r.returnType == "DECIMAL" ==>
      s == "RETURNS " + r.returnType + "(" + IntToString(r.length) + "," + IntToString(r.scale) + ")" + "\n"
    ensures !IsCharType(r.returnType) && r.returnType != "DECIMAL" ==> s == "RETURNS " + r.returnType + "\n"
  {
    "RETURNS " + r.returnType
      + (if IsCharType(r.returnType) then "(" + IntToString(r.length) + ")" else "")
      + (if r.returnType == "DECIMAL" then "(" + IntToString(r.length) + "," + IntToString(r.scale) + ")" else "")
      + (if r.codepage == 0 && IsCharType(r.returnType) then " FOR BIT DATA" else "")
      + "\n"
  }

  /** The head of an external routine's statement: CREATE OR REPLACE FUNCTION
      for routine type `F` and PROCEDURE otherwise, then the qualified name, then
      the parameter texts separated by `, ` between ` (\n` and `)\n` (the source
      compares each parameter object with the last one). */
  function RoutineSignature(r: Routine): (s: string)
    requires r.ExternalRoutine?
    ensures ("CREATE OR REPLACE FUNCTION " <= s) <==> r.rtype == "F"
    ensures ("CREATE OR REPLACE PROCEDURE " <= s) <==> r.rtype != "F"
    ensures |s| >= 28
    ensures EndsWith(s, " (\n" + Join(", ", ParameterTexts(r.params)) + ")\n")
  {
    var kind := if r.rtype == "F" then "CREATE OR REPLACE FUNCTION " else "CREATE OR REPLACE PROCEDURE ";
    var list := " (\n" + Join(", ", ParameterTexts(r.params)) + ")\n";
    var s := kind + r.schema + "." + r.name + list;
    FiveParts(kind, r.schema, ".", r.name, list);
    assert s[18] == kind[18];
    s
  }

  /** FENCED exactly for fenced code `Y`. */
  function FenceWord(code: string): (w: string)
    ensures w == "FENCED " <==> code == "Y"
    ensures w == "NOT FENCED " <==> code != "Y"
    ensures '\n' !in w
  {
    if code == "Y" then "FENCED " else "NOT FENCED "
  }

  /** THREADSAFE exactly for thread-safety code `Y`. */
  function ThreadsafeWord(code: string): (w: string)
    ensures w == "THREADSAFE " <==> code == "Y"
    ensures w == "NOT THREADSAFE " <==> code != "Y"
    ensures '\n' !in w
  {
    if code == "Y" then "THREADSAFE " else "NOT THREADSAFE "
  }

  /** DETERMINISTIC exactly for determinism code `Y`. */
  function DeterministicWord(code: string): (w: string)
    ensures w == "DETERMINISTIC " <==> code == "Y"
    ensures w == "NOT DETERMINISTIC " <==> code != "Y"
    ensures '\n' !in w
  {
    if code == "Y" then "DETERMINISTIC " else "NOT DETERMINISTIC "
  }

  /** NO EXTERNAL ACTION exactly for external action code `N`. */
  function ExternalActionWord(code: string): (w: string)
    ensures w == "NO EXTERNAL ACTION" <==> code == "N"
    ensures w == "EXTERNAL ACTION" <==> code != "N"
    ensures '\n' !in w
  {
    if code == "N" then "NO EXTERNAL ACTION" else "EXTERNAL ACTION"
  }

  /** The option lines that close an external routine's statement: FENCED or
      NOT FENCED with THREADSAFE or NOT THREADSAFE, DETERMINISTIC or NOT
      DETERMINISTIC, the SQL data access clause, NO EXTERNAL ACTION or EXTERNAL
      ACTION, and the terminator. */
  function RoutineOptions(r: Routine): (o: string)
    requires r.ExternalRoutine?
    ensures ("FENCED " <= o) <==> r.fenced == "Y"
    ensures ("NOT FENCED " <= o) <==> r.fenced != "Y"
    ensures EndsWith(o, "\nNO EXTERNAL ACTION\n @\n\n") <==> r.externalAction == "N"
    ensures EndsWith(o, "\nEXTERNAL ACTION\n @\n\n") <==> r.externalAction != "N"
    ensures Tokens(o, {'\n'}) == RoutineOptionLines(r)
  {
    var fence := FenceWord(r.fenced);
    var thread := ThreadsafeWord(r.threadsafe);
    var det := DeterministicWord(r.deterministic);
    var sql := SqlDataAccessClause(r.sqlDataAccess);
    var action := ExternalActionWord(r.externalAction);
    var mid := thread + "\n" + det + "\n" + sql;
    var tail := "\n" + action + "\n @\n\n";
    var o := fence + mid + tail;
    EndsAndStarts(fence, mid, tail);
    ActionTails();
    OptionLinesRead(fence, thread, det, sql, action, tail);
    assert o[0] == fence[0];
    assert (EndsWith(o, "\nNO EXTERNAL ACTION\n @\n\n") <==> r.externalAction == "N")
      && (EndsWith(o, "\nEXTERNAL ACTION\n @\n\n") <==> r.externalAction != "N") by {
      if r.externalAction == "N" {
        NoExternalActionOnly(o);
      } else {
        assert |o| >= |fence| + |tail| >= 24;
        ExternalActionOnly(o);
      }
    }
    o
  }

  /** The option block read line by line: the fence and thread-safety words
      share the first line, then the determinism line, the SQL data access line
      when the code has one, the external action line and the terminator. */
  function RoutineOptionLines(r: Routine): (ls: seq<string>)
    requires r.ExternalRoutine?
    ensures |ls| == if SqlDataAccessClause(r.sqlDataAccess) == "" then 4 else 5
    ensures ("FENCED " <= ls[0]) <==> r.fenced == "Y"
    ensures ("NOT FENCED " <= ls[0]) <==> r.fenced != "Y"
    ensures EndsWith(ls[0], "NOT THREADSAFE ") <==> r.threadsafe != "Y"
    ensures ls[1] == "DETERMINISTIC " <==> r.deterministic == "Y"
    ensures ls[1] == "NOT DETERMINISTIC " <==> r.deterministic != "Y"
    ensures |ls| == 5 ==> ls[2] == SqlDataAccessClause(r.sqlDataAccess)
    ensures ls[|ls| - 2] == "NO EXTERNAL ACTION" <==> r.externalAction == "N"
    ensures ls[|ls| - 2] == "EXTERNAL ACTION" <==> r.externalAction != "N"
    ensures ls[|ls| - 1] == " @"
  {
    var fence := FenceWord(r.fenced);
    var thread := ThreadsafeWord(r.threadsafe);
    var det := DeterministicWord(r.deterministic);
    var sql := SqlDataAccessClause(r.sqlDataAccess);
    var action := ExternalActionWord(r.externalAction);
    FenceLead(fence, thread);
    ThreadEnd(fence, thread);
    [fence + thread, det] + (if sql == "" then [] else [sql]) + [action, " @"]
  }

  /** The first option line starts with its fence word. */
  lemma FenceLead(fence: string, thread: string)
    requires fence == "FENCED " || fence == "NOT FENCED "
    ensures ("FENCED " <= fence + thread) <==> fence == "FENCED "
    ensures ("NOT FENCED " <= fence + thread) <==> fence == "NOT FENCED "
  {
    var l := fence + thread;
    Halves(fence, thread);
    assert l[0] == fence[0];
    if fence == "FENCED " {
      NotPrefixByChar(l, "NOT FENCED ", 0);
    } else {
      NotPrefixByChar(l, "FENCED ", 0);
    }
  }

  /** The first option line ends with NOT THREADSAFE exactly when its
      thread-safety word is NOT THREADSAFE: both fence words end in `CED `. */
  lemma ThreadEnd(fence: string, thread: string)
    requires EndsWith(fence, "CED ")
    requires thread == "THREADSAFE " || thread == "NOT THREADSAFE "
    ensures EndsWith(fence + thread, "NOT THREADSAFE ") <==> thread == "NOT THREADSAFE "
  {
    var l := fence + thread;
    Halves(fence, thread);
    if thread == "THREADSAFE " {
      SuffixChar(fence, "CED ", 0);
      assert l[|l| - 15] == fence[|fence| - 4];
      NotSuffixByChar(l, "NOT THREADSAFE ", 0);
    }
  }

  /** The option block splits at its line breaks into its lines. */
  lemma OptionLinesRead(fence: string, thread: string, det: string, sql: string, action: string, tail: string)
    requires '\n' !in fence && '\n' !in thread && '\n' !in det && '\n' !in sql && '\n' !in action
    requires fence + thread != [] && det != [] && action != []
    requires tail == "\n" + action + "\n @\n\n"
    ensures Tokens(fence + (thread + "\n" + det + "\n" + sql) + tail, {'\n'})
      == [fence + thread, det] + (if sql == "" then [] else [sql]) + [action, " @"]
  {
    var c := '\n';
    assert "\n @\n\n" == [c] + " @" + [c] + [c];
    assert fence + (thread + "\n" + det + "\n" + sql) + tail
      == (fence + thread) + [c] + det + [c] + sql + [c] + action + [c] + " @" + [c] + [c];
    assert '\n' !in fence + thread;
    CleanOfAbsent(fence + thread, c);
    CleanOfAbsent(det, c);
    CleanOfAbsent(sql, c);
    CleanOfAbsent(action, c);
    CleanOfAbsent(" @", c);
    TokensOfLines(fence + thread, det, sql, action, " @", c, {c});
  }

  /** The external action line and the terminator, written as one text. */
  lemma ActionTails()
    ensures "\n" + "NO EXTERNAL ACTION" + "\n @\n\n" == "\nNO EXTERNAL ACTION\n @\n\n"
    ensures "\n" + "EXTERNAL ACTION" + "\n @\n\n" == "\nEXTERNAL ACTION\n @\n\n"
  {
  }

  /** `DBRoutineExternal.__str__`: the signature and the RETURNS line, one line
      each for the specific name, the external name, the language and the
      parameter style, then the option lines. Read from the outside, the
      statement creates a FUNCTION exactly for routine type `F` and ends with
      NO EXTERNAL ACTION exactly for external action `N`. */
  function ExternalRoutineDdl(r: Routine): (s: string)
    requires r.ExternalRoutine?
    ensures RoutineSignature(r) + ReturnsClause(r)
      + ("SPECIFIC " + r.specificname + "\nEXTERNAL NAME '" + r.implementation + "'\nLANGUAGE " + r.language
         + "\nPARAMETER STYLE " + r.parameterStyle + "\n") <= s
    ensures EndsWith(s, RoutineOptions(r))
    ensures ("CREATE OR REPLACE FUNCTION " <= s) <==> r.rtype == "F"
    ensures ("CREATE OR REPLACE PROCEDURE " <= s) <==> r.rtype != "F"
    ensures EndsWith(s, "\nNO EXTERNAL ACTION\n @\n\n") <==> r.externalAction == "N"
  {
    var sig := RoutineSignature(r);
    var head := sig + ReturnsClause(r);
    var names := "SPECIFIC " + r.specificname + "\nEXTERNAL NAME '" + r.implementation + "'\nLANGUAGE " + r.language
      + "\nPARAMETER STYLE " + r.parameterStyle + "\n";
    var opts := RoutineOptions(r);
    var s := head + names + opts;
    EndsAndStarts(head, names, opts);
    Halves(head + names, opts);
    Halves(sig, ReturnsClause(r));
    KindDecided(sig, head, s);
    assert |s| >= |names| + |opts| >= 24 + |opts|;
    ActionDecided(s, opts, r.externalAction == "N");
    s
  }

  /** A statement that starts with the signature creates what the signature
      creates. */
  lemma KindDecided(sig: string, head: string, s: string)
    requires sig <= head && head <= s && |sig| >= 28
    ensures ("CREATE OR REPLACE FUNCTION " <= s) <==> ("CREATE OR REPLACE FUNCTION " <= sig)
    ensures ("CREATE OR REPLACE PROCEDURE " <= s) <==> ("CREATE OR REPLACE PROCEDURE " <= sig)
  {
    PrefixDecided("CREATE OR REPLACE FUNCTION ", sig, head);
    PrefixDecided("CREATE OR REPLACE PROCEDURE ", sig, head);
    PrefixDecided("CREATE OR REPLACE FUNCTION ", head, s);
    PrefixDecided("CREATE OR REPLACE PROCEDURE ", head, s);
  }

  /** A statement that ends with the option lines ends with NO EXTERNAL ACTION
      exactly when the option lines do. */
  lemma ActionDecided(s: string, opts: string, none: bool)
    requires EndsWith(s, opts) && |s| >= 24 + |opts|
    requires EndsWith(opts, "\nNO EXTERNAL ACTION\n @\n\n") <==> none
    requires EndsWith(opts, "\nEXTERNAL ACTION\n @\n\n") <==> !none
    ensures EndsWith(s, "\nNO EXTERNAL ACTION\n @\n\n") <==> none
  {
    if none {
      EndsWithChain(s, opts, "\nNO EXTERNAL ACTION\n @\n\n");
    } else {
      EndsWithChain(s, opts, "\nEXTERNAL ACTION\n @\n\n");
      ExternalActionOnly(s);
    }
  }

  /** A text that ends with the EXTERNAL ACTION line does not end with the
      NO EXTERNAL ACTION line. */
  lemma ExternalActionOnly(s: string)
    requires EndsWith(s, "\nEXTERNAL ACTION\n @\n\n") && |s| >= 24
    ensures !EndsWith(s, "\nNO EXTERNAL ACTION\n @\n\n")
  {
    SuffixChar(s, "\nEXTERNAL ACTION\n @\n\n", 0);
    NotSuffixByChar(s, "\nNO EXTERNAL ACTION\n @\n\n", 3);
  }

  /** A text that ends with the NO EXTERNAL ACTION line does not end with the
      EXTERNAL ACTION line. */
  lemma NoExternalActionOnly(s: string)
    requires EndsWith(s, "\nNO EXTERNAL ACTION\n @\n\n")
    ensures !EndsWith(s, "\nEXTERNAL ACTION\n @\n\n")
  {
    SuffixChar(s, "\nNO EXTERNAL ACTION\n @\n\n", 3);
    NotSuffixByChar(s, "\nEXTERNAL ACTION\n @\n\n", 0);
  }

  // ---------------------------------------------------------------------------
  // Constraints and triggers
  // ---------------------------------------------------------------------------

  /** A check, candidate-key or foreign-key row. `colnames` and `refcolnames`
      are the catalog's already-joined column lists. */
  datatype Constraint =
    | CheckConstraint(constname: string, schema: string, table: string, enforced: string,
                      trusted: string, optimization: string, text: string, remarks: string)
    | CandidateConstraint(constname: string, schema: string, table: string, enforced: string,
                          trusted: string, optimization: string, ctype: string,
                          colnames: string, remarks: string)
    | ForeignConstraint(constname: string, schema: string, table: string, enforced: string,
                        trusted: string, optimization: string, deleteRule: string,
                        updateRule: string, reftabschema: string, reftabname: string,
                        colnames: string, refcolnames: string, remarks: string)

  /** The enforcement line every constraint ends with: `NOT ENFORCED`
      exactly for enforced code `N`. */
  function EnforcedClause(enforced: string): (r: string)
    ensures ("NOT " <= r) <==> enforced == "N"
    ensures r == "NOT ENFORCED\n" || r == "ENFORCED\n"
  {
    assert "NOT " <= "NOT ENFORCED\n" && "ENFORCED\n"[0] != "NOT "[0];
    if enforced == "N" then "NOT ENFORCED\n" else "ENFORCED\n"
  }

  /** `TRUSTED` only for a constraint that is not enforced but trusted. */
  function TrustedClause(enforced: string, trusted: string): (r: string)
    ensures r == "TRUSTED\n" <==> enforced == "N" && trusted == "Y"
    ensures r == "" <==> !(enforced == "N" && trusted == "Y")
  {
    if enforced == "N" && trusted == "Y" then "TRUSTED\n" else ""
  }

  /** Query optimisation is enabled exactly for code `Y`. */
  function OptimizationClause(optimization: string): (r: string)
    ensures r == "ENABLE QUERY OPTIMIZATION @\n\n" <==> optimization == "Y"
    ensures r == "DISABLE QUERY OPTIMIZATION @\n\n" <==> optimization != "Y"
  {
    (if optimization == "Y" then "ENABLE" else "DISABLE") + " QUERY OPTIMIZATION @\n\n"
  }

  /** The rule texts of a foreign key as the regenerator writes them. */
  function UpdateRuleText(code: string): (r: string)
    ensures r == "NO ACTION\n" <==> code == "A"
    ensures r == "RESTRICT\n" <==> code != "A"
  {
    if code == "A" then "NO ACTION\n" else "RESTRICT\n"
  }

  function DeleteRuleText(code: string): (r: string)
    ensures r == "NO ACTION \n" <==> code == "A"
    ensures r == "CASCADE \n" <==> code == "C"
    ensures r == "SET NULL \n" <==> code == "N"
    ensures r == "RESTRICT \n" <==> code !in {"A", "C", "N"}
  {
    if code == "A" then "NO ACTION \n"
    else if code == "C" then "CASCADE \n"
    else if code == "N" then "SET NULL \n"
    else "RESTRICT \n"
  }

  /** The body of an ALTER TABLE ... ADD CONSTRAINT statement. Its opening
      tells the kind of constraint. The check text can be read back between
      `CHECK ( ` and ` )`. A candidate key opens with UNIQUE exactly for type
      `U` and ends with its columns. A foreign key opens with its columns and
      the referenced table, names its update rule before its delete rule, and
      deletes with SET NULL exactly for rule `N`. */
  function ConstraintBody(c: Constraint): (r: string)
    ensures ("     CHECK ( " <= r) <==> c.CheckConstraint?
    ensures ("  FOREIGN KEY (" <= r) <==> c.ForeignConstraint?
    ensures c.CheckConstraint? ==> |r| >= 16 && r[13..|r| - 3] == c.text
    ensures c.CandidateConstraint? ==>
      ("  UNIQUE " <= r <==> c.ctype == "U") && ("  PRIMARY KEY " <= r <==> c.ctype != "U")
      && EndsWith(r, "( " + c.colnames + " )\n")
    ensures c.ForeignConstraint? ==>
      ("  FOREIGN KEY (" + c.colnames + ")\n  REFERENCES " + c.reftabschema + "." + c.reftabname)
        + ("\n              (" + c.refcolnames + ")\n") <= r
      && EndsWith(r, "    ON UPDATE " + UpdateRuleText(c.updateRule) + ("    ON DELETE " + DeleteRuleText(c.deleteRule)))
      && (EndsWith(r, "    ON DELETE SET NULL \n") <==> c.deleteRule == "N")
  {
    match c
    case CheckConstraint(_, _, _, _, _, _, text, _) =>
      CheckBody(text);
      "     CHECK ( " + text + " )\n"
    case CandidateConstraint(_, _, _, _, _, _, ctype, colnames, _) =>
      CandidateBody(ctype, "( " + colnames + " )\n");
      CandidateKind(ctype) + ("( " + colnames + " )\n")
    case ForeignConstraint(_, _, _, _, _, _, del, upd, rs, rt, cols, refcols, _) =>
      var head := "  FOREIGN KEY (" + cols + ")\n  REFERENCES " + rs + "." + rt;
      var mid := "\n              (" + refcols + ")\n";
      var rules := "    ON UPDATE " + UpdateRuleText(upd) + ("    ON DELETE " + DeleteRuleText(del));
      ForeignBody(head, cols, rs, rt, mid, upd, del);
      head + mid + rules
  }

  /** The check body opens with CHECK and holds the check text. */
  lemma CheckBody(text: string)
    ensures var r := "     CHECK ( " + text + " )\n";
      "     CHECK ( " <= r && !("  FOREIGN KEY (" <= r)
      && |r| >= 16 && r[13..|r| - 3] == text
  {
    var r := "     CHECK ( " + text + " )\n";
    EndsAndStarts("     CHECK ( ", text, " )\n");
    assert r[2] == ' ';
    NotPrefixByChar(r, "  FOREIGN KEY (", 2);
  }

  /** The candidate body opens with its kind and ends with its columns. */
  lemma CandidateBody(ctype: string, cols: string)
    ensures var r := CandidateKind(ctype) + cols;
      !("     CHECK ( " <= r) && !("  FOREIGN KEY (" <= r)
      && ("  UNIQUE " <= r <==> ctype == "U") && ("  PRIMARY KEY " <= r <==> ctype != "U")
      && EndsWith(r, cols)
  {
    var kind := CandidateKind(ctype);
    var r := kind + cols;
    Halves(kind, cols);
    assert r[2] == kind[2];
    NotPrefixByChar(r, "     CHECK ( ", 2);
    NotPrefixByChar(r, "  FOREIGN KEY (", 2);
    if ctype == "U" {
      NotPrefixByChar(r, "  PRIMARY KEY ", 2);
    } else {
      NotPrefixByChar(r, "  UNIQUE ", 2);
    }
  }

  /** The foreign-key body opens with its columns and the referenced table and
      ends with its rules, update rule first. */
  lemma ForeignBody(head: string, cols: string, rs: string, rt: string, mid: string, upd: string, del: string)
    requires head == "  FOREIGN KEY (" + cols + ")\n  REFERENCES " + rs + "." + rt
    ensures var rules := "    ON UPDATE " + UpdateRuleText(upd) + ("    ON DELETE " + DeleteRuleText(del));
      var r := head + mid + rules;
      head + mid <= r && "  FOREIGN KEY (" <= r && !("     CHECK ( " <= r)
      && EndsWith(r, rules)
      && (EndsWith(r, "    ON DELETE SET NULL \n") <==> del == "N")
  {
    var d := "    ON DELETE " + DeleteRuleText(del);
    var rules := "    ON UPDATE " + UpdateRuleText(upd) + d;
    var r := head + mid + rules;
    EndsAndStarts(head, mid, rules);
    Halves(head + mid, rules);
    SixParts("  FOREIGN KEY (", cols, ")\n  REFERENCES ", rs, ".", rt);
    PrefixTrans("  FOREIGN KEY (", head, r);
    assert r[2] == 'F';
    NotPrefixByChar(r, "     CHECK ( ", 2);
    Halves("    ON UPDATE " + UpdateRuleText(upd), d);
    EndsWithChain(r, rules, d);
    SetNullOnly(r, del);
  }

  /** Among the delete rules, only code `N` ends the text with SET NULL. */
  lemma SetNullOnly(r: string, del: string)
    requires EndsWith(r, "    ON DELETE " + DeleteRuleText(del))
    ensures EndsWith(r, "    ON DELETE SET NULL \n") <==> del == "N"
  {
    var x := "    ON DELETE SET NULL \n";
    var w := "    ON DELETE " + DeleteRuleText(del);
    if del == "A" {
      SuffixChar(r, w, 14);
      NotSuffixByChar(r, x, 13);
    } else if del == "C" {
      if |r| >= |x| {
        SuffixChar(r, w, 14);
        NotSuffixByChar(r, x, 15);
      }
    } else if del != "N" {
      SuffixChar(r, w, 14);
      NotSuffixByChar(r, x, 14);
    }
  }

  /** A candidate key of type `U` is a unique constraint, any other a primary key. */
  function CandidateKind(ctype: string): (r: string)
    ensures r == "  UNIQUE " <==> ctype == "U"
    ensures r == "  PRIMARY KEY " <==> ctype != "U"
  {
    if ctype == "U" then "  UNIQUE " else "  PRIMARY KEY "
  }

  /** `__str__` of the three constraint classes: the ALTER TABLE header, the
      kind-specific body, then the enforcement tail. A foreign key names its
      update rule before its delete rule. */
  function ConstraintDdl(c: Constraint): (r: string)
    ensures ("ALTER TABLE " + c.schema + "." + c.table + " ADD CONSTRAINT " + c.constname + "\n"
      + ConstraintBody(c) + EnforcedClause(c.enforced)) <= r
    ensures EndsWith(r, TrustedClause(c.enforced, c.trusted) + OptimizationClause(c.optimization))
  {
    var head := "ALTER TABLE " + c.schema + "." + c.table + " ADD CONSTRAINT " + c.constname + "\n"
      + ConstraintBody(c) + EnforcedClause(c.enforced);
    var tail := TrustedClause(c.enforced, c.trusted) + OptimizationClause(c.optimization);
    Halves(head, tail);
    head + tail
  }

  /** `DBConstraint.get_remarks` */
  function ConstraintRemarks(c: Constraint): string
  {
    CommentOn("CONSTRAINT " + c.schema + "." + c.table + "." + c.constname, c.remarks, "\n\n")
  }

  datatype Trigger = Trigger(tabschema: string, tabname: string, schema: string, name: string,
                             text: string, remarks: string)

  /** `DBTrigger.__str__` */
  function TriggerDdl(t: Trigger): (r: string)
    ensures t.text <= r && EndsWith(r, " @\n\n")
  {
    Halves(t.text, " @\n\n");
    t.text + " @\n\n"
  }

  /** `DBTrigger.get_remarks` */
  function TriggerRemarks(t: Trigger): string
  {
    CommentOn("TRIGGER " + t.schema + "." + t.name, t.remarks, "\n\n")
  }

  // ---------------------------------------------------------------------------
  // Text cleaning done by the loaders
  // ---------------------------------------------------------------------------

  /** The characters at which Python's `str.splitlines()` breaks a line. */
  const LineBreaks: set<char> :=
    {'\n', '\r', '\U{0B}', '\U{0C}', '\U{1C}', '\U{1D}', '\U{1E}', '\U{85}', '\U{2028}', '\U{2029}'}

  /** `os.linesep.join([s for s in text.splitlines() if s])`: the non-empty lines
      of `text`, joined by newlines. A `\r\n` pair splits into a line and an empty
      piece, and empty pieces are dropped either way. */
  function DropBlankLines(text: string): string
  {
    Join("\n", Tokens(text, LineBreaks))
  }

  /** The cleaned text holds no blank line: no line break of any kind other than
      single newlines between non-empty lines. Its lines are exactly the
      non-empty lines of the text, in order, and it keeps every other
      character in order. */
  lemma DropBlankLinesSpec(text: string)
    ensures var r := DropBlankLines(text);
      (forall k :: 0 <= k < |r| && r[k] in LineBreaks ==> r[k] == '\n' && 0 < k < |r| - 1 && r[k + 1] != '\n')
      && RemoveChar(r, '\n') == RemoveAll(text, LineBreaks)
      && Tokens(r, LineBreaks) == Tokens(text, LineBreaks)
  {
    var ts := Tokens(text, LineBreaks);
    TokensSpec(text, LineBreaks);
    assert '\n' in LineBreaks;
    JoinRemoveSeparator(ts, '\n');
    JoinSeparatorIsolated(ts, '\n');
    JoinChars(ts, '\n');
    TokensOfJoin(ts, '\n', LineBreaks);
  }
}
