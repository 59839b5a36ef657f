/** The MysqlStringifier of src/Query.ts: the clause formatters and the SELECT
    assembly. The stringifier only holds the query record it was built from, so
    each formatter here takes that record. */
module Stringifier {
  import opened Types
  import opened Strings
  import opened Functions
  import opened Queries

  // ---------------------------------------------------------------------------
  // Clause formatters
  // ---------------------------------------------------------------------------

  function Quote(name: string): string
  {
    "`" + name + "`"
  }

  function VerbText(v: Verb): string
  {
    match v
    case Select => "SELECT"
    case Insert => "INSERT"
    case Update => "UPDATE"
    case Delete => "DELETE"
  }

  /** formatFieldString: `*` bare, any other name quoted, with an optional
      quoted table prefix and an optional ` AS ` alias. */
  function FormatFieldString(f: FieldData): (r: string)
    ensures f.SimpleField? && Given(f.t) ==> Quote(f.t.value) + "." <= r
    ensures f.SimpleField? && Given(f.a) ==>
              var alias := " AS " + Quote(f.a.value);
              |alias| <= |r| && r[|r| - |alias|..] == alias
  {
    match f
    case FieldName(n) => if n == "*" then n else Quote(n)
    case SimpleField(name, t, a) =>
      (if Given(t) then Quote(t.value) + "." else "")
      + (if name == "*" then name else Quote(name))
      + (if Given(a) then " AS " + Quote(a.value) else "")
  }

  /** The text between backticks of a formatted field, in order. */
  function FieldPieces(f: FieldData): seq<string>
  {
    match f
    case FieldName(n) => if n == "*" then ["*"] else ["", n, ""]
    case SimpleField(name, t, a) =>
      if Given(t) && name == "*" && Given(a) then ["", t.value, ".* AS ", a.value, ""]
      else if Given(t) && name == "*" then ["", t.value, ".*"]
      else if Given(t) && Given(a) then ["", t.value, ".", name, " AS ", a.value, ""]
      else if Given(t) then ["", t.value, ".", name, ""]
      else if name == "*" && Given(a) then ["* AS ", a.value, ""]
      else if name == "*" then ["*"]
      else if Given(a) then ["", name, " AS ", a.value, ""]
      else ["", name, ""]
  }

  /** A field with its optional parts normalised: a bare name is a field without
      table and alias, and an empty table or alias is an absent one. */
  function NormalField(f: FieldData): FieldData
  {
    match f
    case FieldName(n) => SimpleField(n, None, None)
    case SimpleField(name, t, a) =>
      SimpleField(name, if Given(t) then t else None, if Given(a) then a else None)
  }

  /** Reads a formatted field back from its text. */
  function ReadFieldString(s: string): Option<FieldData>
  {
    ReadPieces(Split(s, '`'))
  }

  /** Recognises the text between the backticks of a formatted field. */
  function ReadPieces(p: seq<string>): Option<FieldData>
  {
    if p == ["*"] then Some(SimpleField("*", None, None))
    else if |p| == 3 && p[0] == "" && p[2] == "" then Some(SimpleField(p[1], None, None))
    else if |p| == 3 && p[0] == "* AS " && p[2] == "" then Some(SimpleField("*", None, Some(p[1])))
    else if |p| == 3 && p[0] == "" && p[2] == ".*" then Some(SimpleField("*", Some(p[1]), None))
    else if |p| == 5 && p[0] == "" && p[2] == " AS " && p[4] == "" then Some(SimpleField(p[1], None, Some(p[3])))
    else if |p| == 5 && p[0] == "" && p[2] == "." && p[4] == "" then Some(SimpleField(p[3], Some(p[1]), None))
    else if |p| == 5 && p[0] == "" && p[2] == ".* AS " && p[4] == "" then Some(SimpleField("*", Some(p[1]), Some(p[3])))
    else if |p| == 7 && p[0] == "" && p[2] == "." && p[4] == " AS " && p[6] == "" then
      Some(SimpleField(p[3], Some(p[1]), Some(p[5])))
    else None
  }

  /** Names a formatted field can carry and be read back from: no backtick. */
  predicate Unticked(f: FieldData)
  {
    match f
    case FieldName(n) => '`' !in n
    case SimpleField(name, t, a) =>
      '`' !in name && (t.Some? ==> '`' !in t.value) && (a.Some? ==> '`' !in a.value)
  }

  lemma Join3(a: string, b: string, c: string, sep: string)
    ensures Join([a, b, c], sep) == a + sep + b + sep + c
  {
    var bc := [b, c];
    assert [a, b, c][1..] == bc && bc[1..] == [c];
    assert Join(bc, sep) == b + sep + c;
    assert Join([a, b, c], sep) == a + sep + (b + sep + c);
  }

  lemma Join5(a: string, b: string, c: string, d: string, e: string, sep: string)
    ensures Join([a, b, c, d, e], sep) == a + sep + b + sep + c + sep + d + sep + e
  {
    assert [a, b, c, d, e][1..] == [b, c, d, e] && [b, c, d, e][1..] == [c, d, e];
    Join3(c, d, e, sep);
  }

  lemma Join7(a: string, b: string, c: string, d: string, e: string, f: string, g: string, sep: string)
    ensures Join([a, b, c, d, e, f, g], sep) == a + sep + b + sep + c + sep + d + sep + e + sep + f + sep + g
  {
    assert [a, b, c, d, e, f, g][1..] == [b, c, d, e, f, g] && [b, c, d, e, f, g][1..] == [c, d, e, f, g];
    Join5(c, d, e, f, g, sep);
  }

  /** The three parts of a formatted field: table prefix, name, alias suffix. */
  lemma FieldParts(f: FieldData)
    requires f.SimpleField?
    ensures FormatFieldString(f)
            == (if Given(f.t) then Quote(f.t.value) + "." else "")
               + (if f.f == "*" then "*" else Quote(f.f))
               + (if Given(f.a) then " AS " + Quote(f.a.value) else "")
  {
  }

  lemma JoinTableStarAlias(t: string, a: string)
    ensures Quote(t) + "." + "*" + (" AS " + Quote(a)) == Join(["", t, ".* AS ", a, ""], "`")
  {
    Join5("", t, ".* AS ", a, "", "`");
    assert "." + "*" + " AS " == ".* AS ";
  }

  lemma JoinTableStar(t: string)
    ensures Quote(t) + "." + "*" + "" == Join(["", t, ".*"], "`")
  {
    Join3("", t, ".*", "`");
    assert "." + "*" == ".*";
  }

  lemma JoinTableNameAlias(t: string, n: string, a: string)
    ensures Quote(t) + "." + Quote(n) + (" AS " + Quote(a)) == Join(["", t, ".", n, " AS ", a, ""], "`")
  {
    Join7("", t, ".", n, " AS ", a, "", "`");
  }

  lemma JoinTableName(t: string, n: string)
    ensures Quote(t) + "." + Quote(n) + "" == Join(["", t, ".", n, ""], "`")
  {
    Join5("", t, ".", n, "", "`");
  }

  lemma JoinStarAlias(a: string)
    ensures "" + "*" + (" AS " + Quote(a)) == Join(["* AS ", a, ""], "`")
  {
    Join3("* AS ", a, "", "`");
    assert "*" + " AS " == "* AS ";
  }

  lemma JoinNameAlias(n: string, a: string)
    ensures "" + Quote(n) + (" AS " + Quote(a)) == Join(["", n, " AS ", a, ""], "`")
  {
    Join5("", n, " AS ", a, "", "`");
  }

  lemma JoinName(n: string)
    ensures "" + Quote(n) + "" == Join(["", n, ""], "`")
  {
    Join3("", n, "", "`");
  }

  /** Joining the pieces on backticks gives the formatted field. */
  lemma FieldIsJoinOfPieces(f: FieldData)
    ensures FormatFieldString(f) == Join(FieldPieces(f), "`")
  {
    match f
    case FieldName(n) =>
      if n != "*" {
        JoinName(n);
      }
    case SimpleField(name, t, a) =>
      FieldParts(f);
      if Given(t) && name == "*" && Given(a) {
        JoinTableStarAlias(t.value, a.value);
      } else if Given(t) && name == "*" {
        JoinTableStar(t.value);
      } else if Given(t) && Given(a) {
        JoinTableNameAlias(t.value, name, a.value);
      } else if Given(t) {
        JoinTableName(t.value, name);
      } else if name == "*" && Given(a) {
        JoinStarAlias(a.value);
      } else if name == "*" {
        assert "" + "*" + "" == "*";
      } else if Given(a) {
        JoinNameAlias(name, a.value);
      } else {
        JoinName(name);
      }
  }

  /** The pieces of a field are recognised as the field, normalised. */
  lemma ReadFieldPieces(f: FieldData)
    ensures ReadPieces(FieldPieces(f)) == Some(NormalField(f))
  {
    var p := FieldPieces(f);
    assert |" AS "| == 4 && |".* AS "| == 6 && |"* AS "| == 5 && |".*"| == 2;
    match f
    case FieldName(n) =>
    case SimpleField(name, t, a) =>
      if Given(t) && name == "*" && Given(a) {
        assert p == ["", t.value, ".* AS ", a.value, ""];
      } else if Given(t) && name == "*" {
        assert p == ["", t.value, ".*"];
      } else if Given(t) && Given(a) {
        assert p == ["", t.value, ".", name, " AS ", a.value, ""];
      } else if Given(t) {
        assert p == ["", t.value, ".", name, ""];
      } else if name == "*" && Given(a) {
        assert p == ["* AS ", a.value, ""];
      } else if name == "*" {
        assert p == ["*"];
      } else if Given(a) {
        assert p == ["", name, " AS ", a.value, ""];
      } else {
        assert p == ["", name, ""];
      }
  }

  /** A formatted field reads back as the field it came from, normalised. */
  lemma ReadFormatField(f: FieldData)
    requires Unticked(f)
    ensures ReadFieldString(FormatFieldString(f)) == Some(NormalField(f))
  {
    var p := FieldPieces(f);
    assert forall k | 0 <= k < |p| :: '`' !in p[k];
    calc {
      ReadFieldString(FormatFieldString(f));
      { FieldIsJoinOfPieces(f); }
      ReadPieces(Split(Join(p, "`"), '`'));
      { SplitJoin(p, '`'); }
      ReadPieces(p);
      { ReadFieldPieces(f); }
      Some(NormalField(f));
    }
  }

  function FormatFields(fs: seq<FieldData>): string
  {
    Join(seq(|fs|, i requires 0 <= i < |fs| => FormatFieldString(fs[i])), ", ")
  }

  /** fieldsToString */
  function FieldsToString(q: SqlQueryData): string
  {
    FormatFields(q.fields)
  }

  /** groupingToString: none without a grouping. */
  function GroupingToString(q: SqlQueryData): Option<string>
  {
    if q.grouping.Some? then Some(FormatFields(q.grouping.value)) else None
  }

  function DirText(d: Direction): string
  {
    if d == Asc then "asc" else "desc"
  }

  /** One ORDER BY item: the quoted field and the upper-cased direction. */
  function SortClause(s: SortData): string
  {
    FormatFieldString(FieldName(s.field)) + " " + Upper(DirText(s.dir))
  }

  /** sortToString: none without an order. */
  function SortToString(q: SqlQueryData): Option<string>
  {
    if q.order.Some? then
      var os := q.order.value;
      Some(Join(seq(|os|, i requires 0 <= i < |os| => SortClause(os[i])), ", "))
    else None
  }

  /** limitToString: none for an absent or zero limit, `L OFFSET O` for a pair. */
  function LimitToString(q: SqlQueryData): (r: Option<string>)
    ensures r.None? <==> q.limit.None? || q.limit == Some(Rows(0))
    ensures q.limit.Some? && q.limit.value.RowsFrom? ==>
              r == Some(IntToString(q.limit.value.limit) + " OFFSET " + IntToString(q.limit.value.offset))
    ensures q.limit.Some? && q.limit.value.Rows? && q.limit.value.limit != 0 ==>
              r == Some(IntToString(q.limit.value.limit))
  {
    match q.limit
    case None => None
    case Some(Rows(n)) => if n == 0 then None else Some(IntToString(n))
    case Some(RowsFrom(l, o)) => Some(IntToString(l) + " OFFSET " + IntToString(o))
  }

  /** The rendered ON condition of a table, when it has one. */
  function OnClause(t: TableData): Option<Rendered>
  {
    if t.SimpleTable? && t.j.Some? && t.j.value.on.Some? then
      Some(Render(t.j.value.on.value, DefaultTranslator, false))
    else None
  }

  /** formatTableString: the quoted table with optional join keyword, database
      prefix, alias and ON condition. */
  function FormatTableString(t: TableData, joins: bool): string
  {
    match t
    case TableName(n) => Quote(n)
    case SimpleTable(name, d, a, j) =>
      var join := if j.Some? && Given(j.value.kind) then j.value.kind.value + " JOIN" else "INNER JOIN";
      var on := OnClause(t);
      (if joins then join + " " else "")
      + (if Given(d) then Quote(d.value) + "." else "")
      + Quote(name)
      + (if Given(a) then " AS " + Quote(a.value) else "")
      + (if on.Some? then " " + "ON (" + on.value.0 + ")" else "")
  }

  /** tablesToString: the first table without a join keyword, the others with
      one, separated by spaces. With no table the source formats `undefined`
      and throws. */
  function TablesToString(tables: seq<TableData>): Result<string>
  {
    if tables == [] then Err(TypeError)
    else Ok(Join(seq(|tables|, i requires 0 <= i < |tables| => FormatTableString(tables[i], i > 0)), " "))
  }

  /** The values bound by the ON conditions of the tables, in order. */
  function TableParams(tables: seq<TableData>): seq<Json>
  {
    if tables == [] then []
    else (if OnClause(tables[0]).Some? then OnClause(tables[0]).value.1 else []) + TableParams(tables[1..])
  }

  /** whereToString: none without a WHERE tree. */
  function WhereToString(q: SqlQueryData): Option<Rendered>
  {
    if q.where.Some? then Some(Render(q.where.value, DefaultTranslator, false)) else None
  }

  /** havingToString: none without a HAVING tree. */
  function HavingToString(q: SqlQueryData): Option<Rendered>
  {
    if q.having.Some? then Some(Render(q.having.value, DefaultTranslator, false)) else None
  }

  function ParamsOf(r: Option<Rendered>): seq<Json>
  {
    if r.Some? then r.value.1 else []
  }

  // ---------------------------------------------------------------------------
  // SELECT assembly
  // ---------------------------------------------------------------------------

  function TextOf(r: Option<Rendered>): Option<string>
  {
    if r.Some? then Some(r.value.0) else None
  }

  /** The text of a clause the source writes only when it is not empty. */
  function NonEmpty(text: Option<string>): Option<string>
  {
    if text.Some? && text.value != "" then text else None
  }

  /** An optional clause: the keyword, its text and what follows it, or nothing. */
  function Part(keyword: string, text: Option<string>, after: string): string
  {
    if text.Some? then keyword + text.value + after else ""
  }

  /** The SELECT text before trimming. The source appends a space after the
      WHERE and HAVING clauses only; `spaced` also appends one after the GROUP BY
      and ORDER BY clauses. */
  function SelectText(q: SqlQueryData, tables: string, spaced: bool): string
  {
    var after := if spaced then " " else "";
    VerbText(q.verb) + " "
    + FieldsToString(q) + " "
    + "FROM " + tables + " "
    + Part("WHERE ", TextOf(WhereToString(q)), " ")
    + Part("GROUP BY ", NonEmpty(GroupingToString(q)), after)
    + Part("HAVING ", TextOf(HavingToString(q)), " ")
    + Part("ORDER BY ", NonEmpty(SortToString(q)), after)
    + Part("LIMIT ", LimitToString(q), "")
  }

  /** `.trim().replace(/  +/g, " ")` */
  function Tidy(s: string): (r: string)
    ensures NoDoubleSpace(r)
    ensures r == [] || (!IsSpace(r[0]) && !IsSpace(r[|r| - 1]))
    ensures forall c | !IsSpace(c) :: Count(r, c) == Count(s, c)
  {
    var t := Trim(s);
    forall c | !IsSpace(c) ensures Count(t, c) == Count(s, c) {
      TrimKeepsCount(s, c);
    }
    CollapseSpaces(t)
  }

  /** toString as written: INSERT, UPDATE and DELETE are not implemented; a
      SELECT binds the WHERE values, then the HAVING values. */
  function ToStringAsWritten(q: SqlQueryData): (r: Result<Rendered>)
    ensures !q.verb.Select? ==> r == Err(NotImplemented(VerbText(q.verb)))
    ensures r.Ok? ==> r.value.1 == ParamsOf(WhereToString(q)) + ParamsOf(HavingToString(q))
    ensures r.Ok? ==> NoDoubleSpace(r.value.0)
                      && (r.value.0 == [] || (!IsSpace(r.value.0[0]) && !IsSpace(r.value.0[|r.value.0| - 1])))
  {
    if !q.verb.Select? then Err(NotImplemented(VerbText(q.verb)))
    else
      match TablesToString(q.tables)
      case Err(e) => Err(e)
      case Ok(tables) =>
        Ok((Tidy(SelectText(q, tables, false)), ParamsOf(WhereToString(q)) + ParamsOf(HavingToString(q))))
  }

  /** toString corrected: every clause is followed by a space, and the values
      bound by the ON conditions, which come first in the text, come first in
      the parameters. */
  function ToString(q: SqlQueryData): (r: Result<Rendered>)
    ensures !q.verb.Select? ==> r == Err(NotImplemented(VerbText(q.verb)))
    ensures q.verb.Select? ==> (r.Err? <==> q.tables == [])
    ensures r.Ok? ==> r.value.1 == TableParams(q.tables) + ParamsOf(WhereToString(q)) + ParamsOf(HavingToString(q))
    ensures r.Ok? ==> NoDoubleSpace(r.value.0)
                      && (r.value.0 == [] || (!IsSpace(r.value.0[0]) && !IsSpace(r.value.0[|r.value.0| - 1])))
  {
    if !q.verb.Select? then Err(NotImplemented(VerbText(q.verb)))
    else
      match TablesToString(q.tables)
      case Err(e) => Err(e)
      case Ok(tables) =>
        Ok((Tidy(SelectText(q, tables, true)),
            TableParams(q.tables) + ParamsOf(WhereToString(q)) + ParamsOf(HavingToString(q))))
  }

  // ---------------------------------------------------------------------------
  // Placeholders and bound values
  // ---------------------------------------------------------------------------

  /** A tree whose operators and leaf fields and operators hold no `?`, so
      every `?` in its rendering is a placeholder. */
  predicate TreeUnmarked(t: Tree)
  {
    '?' !in OperatorText(t.o)
    && (forall s | s in NestedOperators(t.v) :: '?' !in s)
    && (forall l | l in Leaves(t.v) :: '?' !in l.field && '?' !in l.op)
  }

  predicate NameUnmarked(s: Option<string>)
  {
    s.Some? ==> '?' !in s.value
  }

  predicate FieldUnmarked(f: FieldData)
  {
    match f
    case FieldName(n) => '?' !in n
    case SimpleField(name, t, a) => '?' !in name && NameUnmarked(t) && NameUnmarked(a)
  }

  predicate TableUnmarked(t: TableData)
  {
    match t
    case TableName(n) => '?' !in n
    case SimpleTable(name, d, a, j) =>
      '?' !in name && NameUnmarked(d) && NameUnmarked(a)
      && (j.Some? ==> NameUnmarked(j.value.kind) && (j.value.on.Some? ==> TreeUnmarked(j.value.on.value)))
  }

  /** No name in the query holds a `?`: the only `?` in its text are placeholders. */
  predicate QueryUnmarked(q: SqlQueryData)
  {
    (forall i | 0 <= i < |q.fields| :: FieldUnmarked(q.fields[i]))
    && (forall i | 0 <= i < |q.tables| :: TableUnmarked(q.tables[i]))
    && (q.where.Some? ==> TreeUnmarked(q.where.value))
    && (q.grouping.Some? ==> forall i | 0 <= i < |q.grouping.value| :: FieldUnmarked(q.grouping.value[i]))
    && (q.having.Some? ==> TreeUnmarked(q.having.value))
    && (q.order.Some? ==> forall i | 0 <= i < |q.order.value| :: '?' !in q.order.value[i].field)
  }

  lemma RenderedPlaceholders(t: Tree)
    requires TreeUnmarked(t)
    ensures Count(Render(t, DefaultTranslator, false).0, '?') == |Render(t, DefaultTranslator, false).1|
  {
    DefaultRenderPlaceholders(t, false);
  }

  lemma FieldHasNoMark(f: FieldData)
    requires FieldUnmarked(f)
    ensures '?' !in FormatFieldString(f)
  {
    match f
    case FieldName(n) =>
    case SimpleField(name, t, a) =>
      var pre := if Given(t) then Quote(t.value) + "." else "";
      var mid := if name == "*" then name else Quote(name);
      var post := if Given(a) then " AS " + Quote(a.value) else "";
      assert FormatFieldString(f) == pre + mid + post;
      assert '?' !in pre && '?' !in mid && '?' !in post;
  }

  lemma {:induction false} JoinHasNoMark(parts: seq<string>, sep: string)
    requires '?' !in sep && forall k | 0 <= k < |parts| :: '?' !in parts[k]
    ensures '?' !in Join(parts, sep)
  {
    if |parts| > 1 {
      JoinHasNoMark(parts[1..], sep);
    }
  }

  lemma FieldsHaveNoMark(fs: seq<FieldData>)
    requires forall i | 0 <= i < |fs| :: FieldUnmarked(fs[i])
    ensures '?' !in FormatFields(fs)
  {
    var parts := seq(|fs|, i requires 0 <= i < |fs| => FormatFieldString(fs[i]));
    forall k | 0 <= k < |parts| ensures '?' !in parts[k] {
      FieldHasNoMark(fs[k]);
    }
    JoinHasNoMark(parts, ", ");
  }

  /** The `?` in a formatted table are the placeholders of its ON condition. */
  lemma TablePlaceholders(t: TableData, joins: bool)
    requires TableUnmarked(t)
    ensures Count(FormatTableString(t, joins), '?') == |TableParams([t])|
  {
    assert [t][1..] == [];
    match t
    case TableName(n) =>
      CountAbsent(Quote(n), '?');
    case SimpleTable(name, d, a, j) =>
      var join := if j.Some? && Given(j.value.kind) then j.value.kind.value + " JOIN" else "INNER JOIN";
      var on := OnClause(t);
      var head := (if joins then join + " " else "")
                  + (if Given(d) then Quote(d.value) + "." else "")
                  + Quote(name)
                  + (if Given(a) then " AS " + Quote(a.value) else "");
      assert '?' !in head;
      CountAbsent(head, '?');
      if on.Some? {
        RenderedPlaceholders(t.j.value.on.value);
        OnPlaceholders(head, on.value.0);
        assert FormatTableString(t, joins) == head + (" " + "ON (" + on.value.0 + ")");
      } else {
        assert FormatTableString(t, joins) == head;
        assert TableParams([t]) == [];
      }
  }

  lemma OnPlaceholders(head: string, cond: string)
    requires '?' !in head
    ensures Count(head + (" " + "ON (" + cond + ")"), '?') == Count(cond, '?')
  {
    CountAbsent(head, '?');
    CountAbsent(" " + "ON (", '?');
    CountAbsent(")", '?');
    CountAppend(head, " " + "ON (" + cond + ")", '?');
    CountAppend(" " + "ON (", cond, '?');
    CountAppend(" " + "ON (" + cond, ")", '?');
  }

  lemma {:induction false} CountAllTables(pieces: seq<string>, tables: seq<TableData>)
    requires |pieces| == |tables|
    requires forall i | 0 <= i < |pieces| :: Count(pieces[i], '?') == |TableParams([tables[i]])|
    ensures CountAll(pieces, '?') == |TableParams(tables)|
  {
    if pieces != [] {
      assert [tables[0]][1..] == [];
      CountAllTables(pieces[1..], tables[1..]);
    }
  }

  /** The `?` in the table list are the placeholders of the ON conditions. */
  lemma TablesPlaceholders(tables: seq<TableData>)
    requires tables != []
    requires forall i | 0 <= i < |tables| :: TableUnmarked(tables[i])
    ensures Count(TablesToString(tables).value, '?') == |TableParams(tables)|
  {
    var pieces := seq(|tables|, i requires 0 <= i < |tables| => FormatTableString(tables[i], i > 0));
    forall i | 0 <= i < |pieces| ensures Count(pieces[i], '?') == |TableParams([tables[i]])| {
      TablePlaceholders(tables[i], i > 0);
    }
    CountAbsent(" ", '?');
    CountJoin(pieces, " ", '?');
    CountAllTables(pieces, tables);
  }

  lemma PartPlaceholders(keyword: string, text: Option<string>, after: string)
    requires '?' !in keyword && '?' !in after
    ensures Count(Part(keyword, text, after), '?') == if text.Some? then Count(text.value, '?') else 0
  {
    if text.Some? {
      CountAbsent(keyword, '?');
      CountAbsent(after, '?');
      CountAppend(keyword, text.value, '?');
      CountAppend(keyword + text.value, after, '?');
    }
  }

  lemma SortHasNoMark(q: SqlQueryData)
    requires QueryUnmarked(q) && q.order.Some?
    ensures '?' !in SortToString(q).value
  {
    var os := q.order.value;
    var parts := seq(|os|, i requires 0 <= i < |os| => SortClause(os[i]));
    forall k | 0 <= k < |parts| ensures '?' !in parts[k] {
      assert '?' !in FormatFieldString(FieldName(os[k].field));
      assert '?' !in Upper(DirText(os[k].dir));
    }
    JoinHasNoMark(parts, ", ");
  }

  /** The head of the SELECT text, up to the table list, holds no `?`. */
  lemma HeadHasNoMark(q: SqlQueryData)
    requires QueryUnmarked(q)
    ensures '?' !in VerbText(q.verb) + " " + FieldsToString(q) + " " + "FROM "
  {
    FieldsHaveNoMark(q.fields);
  }

  lemma CountOfSelect(p1: string, t: string, w: string, g: string, h: string, o: string, l: string, c: char)
    ensures Count(p1 + t + " " + w + g + h + o + l, c)
            == Count(p1, c) + Count(t, c) + Count(" ", c) + Count(w, c) + Count(g, c) + Count(h, c) + Count(o, c) + Count(l, c)
  {
    CountAppend(p1, t, c);
    CountAppend(p1 + t, " ", c);
    CountAppend(p1 + t + " ", w, c);
    CountAppend(p1 + t + " " + w, g, c);
    CountAppend(p1 + t + " " + w + g, h, c);
    CountAppend(p1 + t + " " + w + g + h, o, c);
    CountAppend(p1 + t + " " + w + g + h + o, l, c);
  }

  /** The `?` of a WHERE or HAVING clause are its placeholders. */
  lemma ConditionPlaceholders(keyword: string, r: Option<Rendered>, tree: Option<Tree>)
    requires '?' !in keyword
    requires tree.Some? ==> TreeUnmarked(tree.value)
    requires r == (if tree.Some? then Some(Render(tree.value, DefaultTranslator, false)) else None)
    ensures Count(Part(keyword, TextOf(r), " "), '?') == |ParamsOf(r)|
  {
    PartPlaceholders(keyword, TextOf(r), " ");
    if tree.Some? {
      RenderedPlaceholders(tree.value);
    }
  }

  /** The GROUP BY, ORDER BY and LIMIT clauses hold no `?`. */
  lemma GroupingHasNoMark(q: SqlQueryData, after: string)
    requires QueryUnmarked(q) && '?' !in after
    ensures Count(Part("GROUP BY ", NonEmpty(GroupingToString(q)), after), '?') == 0
  {
    PartPlaceholders("GROUP BY ", NonEmpty(GroupingToString(q)), after);
    if q.grouping.Some? {
      FieldsHaveNoMark(q.grouping.value);
      CountAbsent(GroupingToString(q).value, '?');
    }
  }

  lemma OrderHasNoMark(q: SqlQueryData, after: string)
    requires QueryUnmarked(q) && '?' !in after
    ensures Count(Part("ORDER BY ", NonEmpty(SortToString(q)), after), '?') == 0
  {
    PartPlaceholders("ORDER BY ", NonEmpty(SortToString(q)), after);
    if q.order.Some? {
      SortHasNoMark(q);
      CountAbsent(SortToString(q).value, '?');
    }
  }

  lemma LimitHasNoMark(q: SqlQueryData)
    ensures Count(Part("LIMIT ", LimitToString(q), ""), '?') == 0
  {
    PartPlaceholders("LIMIT ", LimitToString(q), "");
    if LimitToString(q).Some? {
      CountAbsent(LimitToString(q).value, '?');
    }
  }

  /** The `?` in the SELECT text are those of the table list, then the WHERE and
      HAVING placeholders. */
  lemma SelectPlaceholders(q: SqlQueryData, tables: string, spaced: bool)
    requires QueryUnmarked(q)
    ensures Count(SelectText(q, tables, spaced), '?')
            == Count(tables, '?') + |ParamsOf(WhereToString(q))| + |ParamsOf(HavingToString(q))|
  {
    var after := if spaced then " " else "";
    var p1 := VerbText(q.verb) + " " + FieldsToString(q) + " " + "FROM ";
    var W := Part("WHERE ", TextOf(WhereToString(q)), " ");
    var G := Part("GROUP BY ", NonEmpty(GroupingToString(q)), after);
    var H := Part("HAVING ", TextOf(HavingToString(q)), " ");
    var S := Part("ORDER BY ", NonEmpty(SortToString(q)), after);
    var L := Part("LIMIT ", LimitToString(q), "");
    assert SelectText(q, tables, spaced) == p1 + tables + " " + W + G + H + S + L;
    HeadHasNoMark(q);
    CountAbsent(p1, '?');
    CountAbsent(" ", '?');
    ConditionPlaceholders("WHERE ", WhereToString(q), q.where);
    ConditionPlaceholders("HAVING ", HavingToString(q), q.having);
    GroupingHasNoMark(q, after);
    OrderHasNoMark(q, after);
    LimitHasNoMark(q);
    CountOfSelect(p1, tables, W, G, H, S, L, '?');
  }

  lemma TidyPlaceholders(s: string)
    ensures Count(Tidy(s), '?') == Count(s, '?')
  {
    assert !IsSpace('?');
  }

  lemma TextAsWritten(q: SqlQueryData)
    requires ToStringAsWritten(q).Ok?
    ensures q.tables != []
    ensures ToStringAsWritten(q).value.0 == Tidy(SelectText(q, TablesToString(q.tables).value, false))
  {
  }

  lemma TextCorrected(q: SqlQueryData)
    requires ToString(q).Ok?
    ensures q.tables != []
    ensures ToString(q).value.0 == Tidy(SelectText(q, TablesToString(q.tables).value, true))
  {
  }

  /** As written, the values of the ON conditions are missing from the
      parameters: the text holds that many more placeholders than values. */
  lemma PlaceholdersAsWritten(q: SqlQueryData)
    requires QueryUnmarked(q)
    requires ToStringAsWritten(q).Ok?
    ensures Count(ToStringAsWritten(q).value.0, '?') == |TableParams(q.tables)| + |ToStringAsWritten(q).value.1|
  {
    var tables := TablesToString(q.tables).value;
    var text := SelectText(q, tables, false);
    TablesPlaceholders(q.tables);
    SelectPlaceholders(q, tables, false);
    TidyPlaceholders(text);
    TextAsWritten(q);
  }

  /** A join on `x = 1`: one placeholder in the text and no bound value. */
  lemma JoinParamDropped()
    ensures var on := Tree(Some("and"), [LeafNode(Leaf("x", "=", Num(1.0)))]);
            var q := SqlQueryData(Select, [FieldName("*")],
                                  [TableName("a"), SimpleTable("b", None, None, Some(JoinData(None, Some(on))))],
                                  None, None, None, None, None);
            ToStringAsWritten(q).Ok?
            && Count(ToStringAsWritten(q).value.0, '?') == 1
            && ToStringAsWritten(q).value.1 == []
  {
    var l := Leaf("x", "=", Num(1.0));
    var on := Tree(Some("and"), [LeafNode(l)]);
    var b := SimpleTable("b", None, None, Some(JoinData(None, Some(on))));
    var q := SqlQueryData(Select, [FieldName("*")], [TableName("a"), b], None, None, None, None, None);
    assert Leaves(on.v) == [l];
    assert NestedOperators(on.v) == [] by {
      assert on.v[1..] == [];
    }
    assert TreeUnmarked(on);
    assert QueryUnmarked(q);
    assert |Render(on, DefaultTranslator, false).1| == 1;
    assert [b][1..] == [];
    assert TableParams([b]) == Render(on, DefaultTranslator, false).1;
    assert [TableName("a"), b][1..] == [b];
    assert |TableParams(q.tables)| == 1;
    PlaceholdersAsWritten(q);
  }

  /** Corrected, every placeholder in the text has its value, in order of
      appearance: ON conditions, then WHERE, then HAVING. */
  lemma PlaceholdersMatchParams(q: SqlQueryData)
    requires QueryUnmarked(q)
    requires ToString(q).Ok?
    ensures Count(ToString(q).value.0, '?') == |ToString(q).value.1|
  {
    var tables := TablesToString(q.tables).value;
    var text := SelectText(q, tables, true);
    TablesPlaceholders(q.tables);
    SelectPlaceholders(q, tables, true);
    TidyPlaceholders(text);
    TextCorrected(q);
  }

  // ---------------------------------------------------------------------------
  // Clause separation
  // ---------------------------------------------------------------------------

  /** Trimming and collapsing keep an upper-case word. */
  lemma TidyKeepsWord(s: string, i: nat, w: string)
    requires OccursAt(s, i, w) && w != []
    requires forall k | 0 <= k < |w| :: IsUpperAscii(w[k])
    ensures Contains(Tidy(s), w)
  {
    forall k | 0 <= k < |w| ensures !IsSpace(w[k]) {
      assert IsUpperAscii(w[k]);
    }
    TrimKeepsWord(s, i, w);
    var t := Trim(s);
    var j :| 0 <= j <= |t| && OccursAt(t, j, w);
    CollapseKeepsWord(t, j, w);
  }

  /** Both directions render in upper case ending in `C`, so a non-empty
      ORDER BY text ends in `C`. */
  lemma SortEndsInC(q: SqlQueryData)
    requires q.order.Some? && q.order.value != []
    ensures SortToString(q).value != [] && SortToString(q).value[|SortToString(q).value| - 1] == 'C'
  {
    var os := q.order.value;
    var parts := seq(|os|, i requires 0 <= i < |os| => SortClause(os[i]));
    var last := parts[|parts| - 1];
    var dir := Upper(DirText(os[|os| - 1].dir));
    assert last == FormatFieldString(FieldName(os[|os| - 1].field)) + " " + dir;
    assert dir[|dir| - 1] == 'C';
    JoinEndsWith(parts, ", ", 'C');
  }

  /** An ORDER BY text ending in `C` written right before a LIMIT clause gives
      `CLIMIT`. */
  lemma RunTogether(x: string, sort: Option<string>, limit: Option<string>) returns (i: nat)
    requires sort.Some? && sort.value != [] && sort.value[|sort.value| - 1] == 'C'
    requires limit.Some?
    ensures OccursAt(x + Part("ORDER BY ", NonEmpty(sort), "") + Part("LIMIT ", limit, ""), i, "CLIMIT")
  {
    var s := "ORDER BY " + sort.value + "";
    var l := "LIMIT " + limit.value + "";
    assert Part("ORDER BY ", NonEmpty(sort), "") == s;
    assert Part("LIMIT ", limit, "") == l;
    var t := x + s + l;
    i := |x| + |s| - 1;
    assert t[i] == 'C';
    forall k | 1 <= k < 6 ensures t[i + k] == "CLIMIT"[k] {
      assert t[i + k] == l[k - 1];
    }
    assert t[i..i + 6] == "CLIMIT";
  }

  /** Before trimming, the text as written holds `CLIMIT` at the end of the
      ORDER BY clause. */
  lemma OrderMeetsLimit(q: SqlQueryData, tables: string) returns (i: nat)
    requires q.order.Some? && q.order.value != []
    requires LimitToString(q).Some?
    ensures OccursAt(SelectText(q, tables, false), i, "CLIMIT")
  {
    var x := VerbText(q.verb) + " " + FieldsToString(q) + " " + "FROM " + tables + " "
             + Part("WHERE ", TextOf(WhereToString(q)), " ")
             + Part("GROUP BY ", NonEmpty(GroupingToString(q)), "")
             + Part("HAVING ", TextOf(HavingToString(q)), " ");
    SortEndsInC(q);
    i := RunTogether(x, SortToString(q), LimitToString(q));
  }

  lemma TidyKeepsRunTogether(s: string, i: nat)
    requires OccursAt(s, i, "CLIMIT")
    ensures Contains(Tidy(s), "CLIMIT")
  {
    var w := "CLIMIT";
    assert w == ['C', 'L', 'I', 'M', 'I', 'T'];
    assert forall k | 0 <= k < |w| :: IsUpperAscii(w[k]);
    TidyKeepsWord(s, i, w);
  }

  /** As written, a SELECT with an ORDER BY and a LIMIT runs the sort direction
      into the LIMIT keyword: the text holds `CLIMIT`. */
  lemma OrderRunsIntoLimit(q: SqlQueryData)
    requires q.verb.Select? && q.tables != []
    requires q.order.Some? && q.order.value != []
    requires LimitToString(q).Some?
    ensures ToStringAsWritten(q).Ok? && Contains(ToStringAsWritten(q).value.0, "CLIMIT")
  {
    var tables := TablesToString(q.tables).value;
    var i := OrderMeetsLimit(q, tables);
    TidyKeepsRunTogether(SelectText(q, tables, false), i);
    TextAsWritten(q);
  }

  /** A clause of the corrected text: keyword and text, when present. */
  function Clause(keyword: string, text: Option<string>): seq<string>
  {
    if text.Some? then [keyword + text.value] else []
  }

  /** The clauses of a SELECT in order, each present one exactly once. */
  function Clauses(q: SqlQueryData, tables: string): seq<string>
  {
    [VerbText(q.verb), FieldsToString(q), "FROM " + tables]
    + Clause("WHERE ", TextOf(WhereToString(q)))
    + Clause("GROUP BY ", NonEmpty(GroupingToString(q)))
    + Clause("HAVING ", TextOf(HavingToString(q)))
    + Clause("ORDER BY ", NonEmpty(SortToString(q)))
    + Clause("LIMIT ", LimitToString(q))
  }

  lemma PartIsSpaced(keyword: string, text: Option<string>)
    ensures Part(keyword, text, " ") == Spaced(Clause(keyword, text))
  {
    if text.Some? {
      assert Clause(keyword, text)[1..] == [];
    }
  }

  lemma Spaced3(a: string, b: string, c: string)
    ensures Spaced([a, b, c]) == a + " " + b + " " + c + " "
  {
    assert [a, b, c][1..] == [b, c];
    assert [b, c][1..] == [c];
    assert [c][1..] == [];
    assert Spaced([c]) == c + " " + "";
    assert c + " " + "" == c + " ";
    assert Spaced([b, c]) == b + " " + (c + " ");
    assert b + " " + (c + " ") == b + " " + c + " ";
    assert Spaced([a, b, c]) == a + " " + (b + " " + c + " ");
  }

  /** Head, spaced clauses and an optional last clause without its space are
      the clauses joined by spaces, with a trailing space when there is no last
      clause. */
  lemma SpacedLayout(v: string, f: string, t: string, cw: seq<string>, cg: seq<string>,
                     ch: seq<string>, cs: seq<string>, last: string, cl: seq<string>)
    requires (cl == [] && last == "") || cl == [last]
    ensures v + " " + f + " " + t + " " + Spaced(cw) + Spaced(cg) + Spaced(ch) + Spaced(cs) + last
            == Join([v, f, t] + cw + cg + ch + cs + cl, " ") + (if cl == [] then " " else "")
  {
    var head := [v, f, t];
    Spaced3(v, f, t);
    SpacedAppend(head, cw);
    SpacedAppend(head + cw, cg);
    SpacedAppend(head + cw + cg, ch);
    SpacedAppend(head + cw + cg + ch, cs);
    var body := head + cw + cg + ch + cs;
    SpacedJoin(body);
    if cl == [] {
      assert body + cl == body;
    } else {
      JoinSnoc(body, last, " ");
    }
  }

  /** Corrected, the clauses are joined by single spaces, so no keyword runs
      into the text before it. */
  lemma ClausesApart(q: SqlQueryData, tables: string)
    ensures SelectText(q, tables, true)
            == Join(Clauses(q, tables), " ") + (if LimitToString(q).None? then " " else "")
  {
    var w := TextOf(WhereToString(q));
    var g := NonEmpty(GroupingToString(q));
    var h := TextOf(HavingToString(q));
    var o := NonEmpty(SortToString(q));
    var l := LimitToString(q);
    PartIsSpaced("WHERE ", w);
    PartIsSpaced("GROUP BY ", g);
    PartIsSpaced("HAVING ", h);
    PartIsSpaced("ORDER BY ", o);
    var last := Part("LIMIT ", l, "");
    if l.Some? {
      assert last == "LIMIT " + l.value + "";
      assert "LIMIT " + l.value + "" == "LIMIT " + l.value;
    }
    var v := VerbText(q.verb);
    var f := FieldsToString(q);
    assert v + " " + f + " " + "FROM " + tables + " " == v + " " + f + " " + ("FROM " + tables) + " ";
    SpacedLayout(v, f, "FROM " + tables, Clause("WHERE ", w), Clause("GROUP BY ", g),
                 Clause("HAVING ", h), Clause("ORDER BY ", o), last, Clause("LIMIT ", l));
  }
}
