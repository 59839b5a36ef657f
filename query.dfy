/** src/Query.ts, the Query builder: the SQL query record it holds and the
    operations that set its clauses, parse sort strings and turn pagination
    cursors into a HAVING tree. */
module Queries {
  import opened Types
  import opened Strings
  import opened Functions
  import opened DslQueries

  // ---------------------------------------------------------------------------
  // The query record
  // ---------------------------------------------------------------------------

  datatype Verb = Select | Insert | Update | Delete

  datatype Direction = Asc | Desc

  /** SortData: `[field, "asc" | "desc"]`. */
  datatype SortData = SortData(field: string, dir: Direction)

  /** LimitData: a limit, or `[limit, offset]`. */
  datatype LimitData = Rows(limit: int) | RowsFrom(limit: int, offset: int)

  /** A field: a bare name, or `{f, t?, a?}` with an optional table and alias. */
  datatype FieldData =
    | FieldName(name: string)
    | SimpleField(f: string, t: Option<string>, a: Option<string>)

  /** The `j` of a joined table: the join type and the ON condition. */
  datatype JoinData = JoinData(kind: Option<string>, on: Option<Tree>)

  /** A table: a bare name, or `{t, d?, a?, j?}` with a database, alias and join. */
  datatype TableData =
    | TableName(name: string)
    | SimpleTable(t: string, d: Option<string>, a: Option<string>, j: Option<JoinData>)

  /** SqlQueryData; an absent or null optional member is None. */
  datatype SqlQueryData = SqlQueryData(
    verb: Verb,
    fields: seq<FieldData>,
    tables: seq<TableData>,
    where: Option<Tree>,
    grouping: Option<seq<FieldData>>,
    having: Option<Tree>,
    order: Option<seq<SortData>>,
    limit: Option<LimitData>)

  /** The truthiness of an optional string member. */
  predicate Given(s: Option<string>)
  {
    s.Some? && s.value != ""
  }

  // ---------------------------------------------------------------------------
  // Sorting
  // ---------------------------------------------------------------------------

  /** The argument of `sort`: nothing, a sort string, one tuple or a list of them. */
  datatype SortArg = NoSort | SortString(s: string) | SortTuple(tuple: SortData) | SortList(tuples: seq<SortData>)

  /** One comma-separated item of a sort string: a leading `-` means descending,
      a leading `+` ascending, anything else is an ascending field name. */
  function SortItem(v: string): (r: SortData)
    requires v != ""
    ensures r.dir == Desc <==> v[0] == '-'
    ensures r.field == (if v[0] == '-' || v[0] == '+' then v[1..] else v)
  {
    if v[0] == '-' then SortData(v[1..], Desc)
    else if v[0] == '+' then SortData(v[1..], Asc)
    else SortData(v, Asc)
  }

  /** A sort string, split on commas. An empty item throws: its first character
      is undefined and has no `match`. */
  function ParseSort(s: string): (r: Result<seq<SortData>>)
    ensures r.Ok? ==> |r.value| == Count(s, ',') + 1
    ensures r.Err? ==> r.error == TypeError
    ensures r.Err? <==> exists k | 0 <= k < |Split(s, ',')| :: Split(s, ',')[k] == ""
    ensures r.Ok? ==> forall k | 0 <= k < |r.value| :: r.value[k] == SortItem(Split(s, ',')[k])
  {
    var items := Split(s, ',');
    if exists k | 0 <= k < |items| :: items[k] == "" then
      assert exists k | 0 <= k < |Split(s, ',')| :: Split(s, ',')[k] == "" by {
        var k :| 0 <= k < |items| && items[k] == "";
        assert Split(s, ',')[k] == "";
      }
      Err(TypeError)
    else Ok(seq(|items|, k requires 0 <= k < |items| => SortItem(items[k])))
  }

  /** The order `sort` stores, none when it deletes the order, or the failure. */
  function SortOrder(s: SortArg): Result<Option<seq<SortData>>>
  {
    match s
    case NoSort => Ok(None)
    case SortString(str) =>
      if str == "" then Ok(None)
      else
        (match ParseSort(str)
         case Err(e) => Err(e)
         case Ok(order) => Ok(Some(order)))
    case SortTuple(t) => Ok(Some([t]))
    case SortList(ts) => if ts == [] then Err(OutsideModel) else Ok(Some(ts))
  }

  /** The sort string of an order: `-field` for descending, `field` for ascending. */
  function SortText(s: SortData): string
  {
    if s.dir == Desc then "-" + s.field else s.field
  }

  function FormatSort(order: seq<SortData>): string
  {
    Join(seq(|order|, k requires 0 <= k < |order| => SortText(order[k])), ",")
  }

  /** A field name a sort string can carry: not empty, no comma, no leading sign. */
  predicate SortableField(f: string)
  {
    f != "" && ',' !in f && f[0] != '-' && f[0] != '+'
  }

  /** Parsing the sort string of an order gives the order back. */
  lemma ParseFormatSort(order: seq<SortData>)
    requires |order| > 0
    requires forall k | 0 <= k < |order| :: SortableField(order[k].field)
    ensures ParseSort(FormatSort(order)) == Ok(order)
  {
    var texts := seq(|order|, k requires 0 <= k < |order| => SortText(order[k]));
    forall k | 0 <= k < |texts|
      ensures ',' !in texts[k] && texts[k] != "" && SortItem(texts[k]) == order[k]
    {
      if order[k].dir == Desc {
        assert texts[k] == "-" + order[k].field;
        assert texts[k][1..] == order[k].field;
      }
    }
    SplitJoin(texts, ',');
    var items := Split(FormatSort(order), ',');
    assert items == texts;
    var r := seq(|items|, k requires 0 <= k < |items| => SortItem(items[k]));
    assert r == order;
  }

  // ---------------------------------------------------------------------------
  // Pagination
  // ---------------------------------------------------------------------------

  /** PaginationData `{cursor?, size?}`. */
  datatype PaginationData = PaginationData(cursor: Option<string>, size: Option<int>)

  const InvalidCursorData := "Invalid Cursor Data"
  const InvalidCursorField := "Invalid Cursor Field"

  /** The page size: `p.size` when given and non-zero, else 20. */
  function PageSize(p: Option<PaginationData>): (n: int)
    ensures p.None? || p.value.size.None? || p.value.size == Some(0) ==> n == 20
    ensures p.Some? && p.value.size.Some? && p.value.size.value != 0 ==> n == p.value.size.value
  {
    if p.Some? && p.value.size.Some? && p.value.size.value != 0 then p.value.size.value else 20
  }

  /** `/^num:[0-9]+$/` */
  predicate IsNumCursor(c: string)
  {
    |c| > 4 && c[..4] == "num:" && AllDigits(c[4..])
  }

  predicate InOrder(field: string, order: seq<SortData>)
  {
    exists k | 0 <= k < |order| :: order[k].field == field
  }

  /** The obstructions of the cursor clause `val` at position `i`. */
  function ClauseObstructions(val: string, i: nat, order: Option<seq<SortData>>): seq<CursorObstruction>
  {
    var v := Split(val, ':');
    (if |v| != 2 then [CursorObstruction(InvalidCursorData, val, i)] else [])
    + (if order.Some? && !InOrder(v[0], order.value) then [CursorObstruction(InvalidCursorField, val, i)] else [])
  }

  /** The obstructions of a list of cursor clauses, clause by clause. */
  function CursorObstructions(clauses: seq<string>, order: Option<seq<SortData>>): seq<CursorObstruction>
    decreases |clauses|
  {
    if clauses == [] then []
    else
      var n := |clauses| - 1;
      CursorObstructions(clauses[..n], order) + ClauseObstructions(clauses[n], n, order)
  }

  /** A well-formed clause: `field:value`, with the field in the order when there is one. */
  predicate GoodClause(val: string, order: Option<seq<SortData>>)
  {
    |Split(val, ':')| == 2 && (order.Some? ==> InOrder(Split(val, ':')[0], order.value))
  }

  lemma ClauseObstructionsSpec(val: string, i: nat, order: Option<seq<SortData>>)
    ensures ClauseObstructions(val, i, order) == [] <==> GoodClause(val, order)
    ensures forall ob | ob in ClauseObstructions(val, i, order) ::
              ob.index == i && ob.clause == val && !GoodClause(val, order)
              && (ob.code == InvalidCursorData || ob.code == InvalidCursorField)
  {
  }

  /** The cursor is accepted exactly when every clause is well formed. */
  lemma {:induction false} CursorObstructionsNone(clauses: seq<string>, order: Option<seq<SortData>>)
    ensures CursorObstructions(clauses, order) == [] <==> forall i | 0 <= i < |clauses| :: GoodClause(clauses[i], order)
    decreases |clauses|
  {
    if clauses != [] {
      var n := |clauses| - 1;
      var init := clauses[..n];
      CursorObstructionsNone(init, order);
      ClauseObstructionsSpec(clauses[n], n, order);
      assert CursorObstructions(clauses, order) == CursorObstructions(init, order) + ClauseObstructions(clauses[n], n, order);
      assert forall i | 0 <= i < n :: init[i] == clauses[i];
    }
  }

  /** Every obstruction names a bad clause by its text and position. */
  lemma {:induction false} CursorObstructionsPoint(clauses: seq<string>, order: Option<seq<SortData>>)
    ensures forall ob | ob in CursorObstructions(clauses, order) ::
              ob.index < |clauses| && ob.clause == clauses[ob.index] && !GoodClause(ob.clause, order)
              && (ob.code == InvalidCursorData || ob.code == InvalidCursorField)
    decreases |clauses|
  {
    if clauses != [] {
      var n := |clauses| - 1;
      var init := clauses[..n];
      CursorObstructionsPoint(init, order);
      ClauseObstructionsSpec(clauses[n], n, order);
      var a := CursorObstructions(init, order);
      var b := ClauseObstructions(clauses[n], n, order);
      assert CursorObstructions(clauses, order) == a + b;
      forall ob: CursorObstruction | ob in a + b
        ensures ob.index < |clauses| && ob.clause == clauses[ob.index]
      {
        if ob in a {
          assert ob.clause == init[ob.index];
        }
      }
    }
  }

  /** The cursor is accepted exactly when every clause is well formed; every
      obstruction names a bad clause by its text and position. */
  lemma CursorObstructionsSpec(clauses: seq<string>, order: Option<seq<SortData>>)
    ensures CursorObstructions(clauses, order) == [] <==> forall i | 0 <= i < |clauses| :: GoodClause(clauses[i], order)
    ensures forall ob | ob in CursorObstructions(clauses, order) ::
              ob.index < |clauses| && ob.clause == clauses[ob.index] && !GoodClause(ob.clause, order)
              && (ob.code == InvalidCursorData || ob.code == InvalidCursorField)
  {
    CursorObstructionsNone(clauses, order);
    CursorObstructionsPoint(clauses, order);
  }

  /** A cursor clause as the source keeps it: `[field, operator, value]`. */
  datatype CursorClause = CursorClause(field: string, op: string, value: string)

  /** The data of one clause. The operator is always ">": the sort list the
      source consults holds only ascending entries. A missing value only occurs
      in a clause that has an obstruction. */
  function ClauseData(val: string): CursorClause
  {
    var v := Split(val, ':');
    CursorClause(v[0], ">", if |v| > 1 then v[1] else "")
  }

  /** Every clause compares with ">", as the data paginate builds does. */
  predicate AllGreater(data: seq<CursorClause>)
  {
    forall i | 0 <= i < |data| :: data[i].op == ">"
  }

  function CursorData(clauses: seq<string>): (r: seq<CursorClause>)
    ensures |r| == |clauses|
  {
    seq(|clauses|, i requires 0 <= i < |clauses| => ClauseData(clauses[i]))
  }

  /** The order paginate sets when there is none: each cursor field, ascending. */
  function CursorSort(data: seq<CursorClause>): seq<SortData>
  {
    seq(|data|, i requires 0 <= i < |data| => SortData(data[i].field, Asc))
  }

  /** A leaf argument as `and`/`or` normalise it. */
  function LeafTree(l: Leaf): Tree
  {
    Tree(Some("and"), [LeafNode(l)])
  }

  function GreaterLeaf(c: CursorClause): Leaf { Leaf(c.field, c.op, Str(c.value)) }
  function AtLeastLeaf(c: CursorClause): Leaf { Leaf(c.field, c.op + "=", Str(c.value)) }

  /** The cursor tree for the clauses from `j` on: the last clause alone, and each
      earlier clause folded in as `(rest and f >= v) or f > v`. */
  function CursorFrom(data: seq<CursorClause>, j: nat): (t: Tree)
    requires j < |data|
    ensures t.o == (if j == |data| - 1 then Some("and") else Some("or"))
    decreases |data| - j
  {
    if j == |data| - 1 then LeafTree(GreaterLeaf(data[j]))
    else
      var rest := CursorFrom(data, j + 1);
      var conj := Combine(Some(rest), LeafTree(AtLeastLeaf(data[j])), "and");
      CombineShape(Some(rest), LeafTree(AtLeastLeaf(data[j])), "and");
      CombineShape(Some(conj), LeafTree(GreaterLeaf(data[j])), "or");
      Combine(Some(conj), LeafTree(GreaterLeaf(data[j])), "or")
  }

  /** The cursor tree of all the clauses, the having clause paginate sets. */
  function CursorTree(data: seq<CursorClause>): Tree
    requires |data| > 0
  {
    CursorFrom(data, 0)
  }

  lemma LeafTreeHolds(l: Leaf, env: Leaf -> bool)
    ensures Holds(LeafTree(l), env) == env(l)
  {
    var v := LeafTree(l).v;
    assert v[1..] == [] && AllHold(v[1..], env);
    assert NodeHolds(v[0], env) == env(l);
    assert Holds(LeafTree(l), env) == AllHold(v, env);
  }

  /** Keyset order: a row comes after the cursor from clause `j` on when it is
      past clause `j`, or level with it (at least) and after the rest. */
  function After(data: seq<CursorClause>, j: nat, env: Leaf -> bool): bool
    requires j < |data|
    decreases |data| - j
  {
    if j == |data| - 1 then env(GreaterLeaf(data[j]))
    else env(GreaterLeaf(data[j])) || (After(data, j + 1, env) && env(AtLeastLeaf(data[j])))
  }

  /** The cursor tree holds exactly for the rows after the cursor. */
  lemma {:induction false} CursorMeaning(data: seq<CursorClause>, j: nat, env: Leaf -> bool)
    requires j < |data|
    ensures Holds(CursorFrom(data, j), env) == After(data, j, env)
    decreases |data| - j
  {
    if j == |data| - 1 {
      LeafTreeHolds(GreaterLeaf(data[j]), env);
    } else {
      var rest := CursorFrom(data, j + 1);
      CursorMeaning(data, j + 1, env);
      var ge := LeafTree(AtLeastLeaf(data[j]));
      var gt := LeafTree(GreaterLeaf(data[j]));
      LeafTreeHolds(AtLeastLeaf(data[j]), env);
      LeafTreeHolds(GreaterLeaf(data[j]), env);
      CombineMeaning(Some(rest), ge, "and", env);
      var conj := Combine(Some(rest), ge, "and");
      CombineShape(Some(rest), ge, "and");
      CombineMeaning(Some(conj), gt, "or", env);
    }
  }

  /** The leaves of a cursor tree, as `and`/`or` leave them. */
  lemma {:induction false} CursorFromShaped(data: seq<CursorClause>, j: nat)
    requires j < |data|
    ensures AllShaped(CursorFrom(data, j).v)
    decreases |data| - j
  {
    if j == |data| - 1 {
      assert Leaves(LeafTree(GreaterLeaf(data[j])).v) == [GreaterLeaf(data[j])];
    } else {
      var rest := CursorFrom(data, j + 1);
      CursorFromShaped(data, j + 1);
      var ge := LeafTree(AtLeastLeaf(data[j]));
      var gt := LeafTree(GreaterLeaf(data[j]));
      assert Leaves(ge.v) == [AtLeastLeaf(data[j])];
      assert Leaves(gt.v) == [GreaterLeaf(data[j])];
      CombinedShaped(Some(rest), ge, "and");
      CombinedShaped(Some(Combine(Some(rest), ge, "and")), gt, "or");
    }
  }

  /** paginate as a specification: the new query record, or the failure (the
      record is then left as it was). */
  function Paginated(v: SqlQueryData, p: Option<PaginationData>): Result<SqlQueryData>
  {
    var size := PageSize(p);
    if p.None? || !Given(p.value.cursor) then Ok(v.(limit := Some(Rows(size))))
    else
      var c := p.value.cursor.value;
      if IsNumCursor(c) then
        var n := DigitsValue(c[4..]);
        var page := if n < 1 then 1 else n;
        Ok(v.(limit := Some(RowsFrom(size, size * (page - 1)))))
      else
        PaginatedByCursor(v, Split(c, ','))
  }

  /** Pagination by a cursor of `field:value` clauses: refused with the
      obstructions when there are any, else the order defaults to the cursor
      fields and the HAVING clause becomes the cursor condition. */
  function PaginatedByCursor(v: SqlQueryData, clauses: seq<string>): Result<SqlQueryData>
    requires clauses != []
  {
    var o := CursorObstructions(clauses, v.order);
    if |o| > 0 then Err(InvalidPagination(o))
    else
      var data := CursorData(clauses);
      Ok(v.(order := if v.order.Some? then v.order else Some(CursorSort(data)),
            having := Some(CursorTree(data))))
  }

  /** With no cursor, paginate only sets the limit to the page size. */
  lemma PaginateWithoutCursor(v: SqlQueryData, p: Option<PaginationData>)
    requires p.None? || p.value.cursor.None? || p.value.cursor == Some("")
    ensures Paginated(v, p) == Ok(v.(limit := Some(Rows(PageSize(p)))))
  {
  }

  /** A `num:N` cursor sets limit and offset to page N (page 1 for N = 0). */
  lemma PaginateNumCursor(v: SqlQueryData, size: Option<int>, n: nat)
    ensures var p := Some(PaginationData(Some("num:" + NatToString(n)), size));
            var page := if n < 1 then 1 else n;
            Paginated(v, p) == Ok(v.(limit := Some(RowsFrom(PageSize(p), PageSize(p) * (page - 1)))))
  {
    var c := "num:" + NatToString(n);
    assert c[..4] == "num:" && c[4..] == NatToString(n);
    DigitsValueOfNatToString(n);
  }

  /** A field cursor either fails with its obstructions, leaving the record
      alone, or sets a HAVING tree that selects the rows after the cursor and
      touches nothing but order and having. */
  lemma PaginateFieldCursor(v: SqlQueryData, c: string, size: Option<int>, env: Leaf -> bool)
    requires c != "" && !IsNumCursor(c)
    ensures var r := Paginated(v, Some(PaginationData(Some(c), size)));
            var clauses := Split(c, ',');
            (r.Err? <==> exists i | 0 <= i < |clauses| :: !GoodClause(clauses[i], v.order))
            && (r.Ok? ==>
                  r.value.having.Some? && Holds(r.value.having.value, env) == After(CursorData(clauses), 0, env)
                  && r.value.(order := v.order, having := v.having) == v
                  && (v.order.Some? ==> r.value.order == v.order)
                  && (v.order.None? ==> r.value.order == Some(CursorSort(CursorData(clauses)))))
  {
    var clauses := Split(c, ',');
    var p := Some(PaginationData(Some(c), size));
    var o := CursorObstructions(clauses, v.order);
    CursorObstructionsSpec(clauses, v.order);
    if |o| > 0 {
      assert Paginated(v, p) == Err(InvalidPagination(o));
    } else {
      var data := CursorData(clauses);
      assert Paginated(v, p) == Ok(v.(order := if v.order.Some? then v.order else Some(CursorSort(data)),
                                     having := Some(CursorTree(data))));
      CursorMeaning(data, 0, env);
    }
  }

  // ---------------------------------------------------------------------------
  // The Query object
  // ---------------------------------------------------------------------------

  /** The JSON.parse stand-in for cursor leaves: never called, as they are arrays. */
  function NoJsonText(s: string): Option<Json> { None }

  /** A cursor leaf `[field, ">", value]` parses to the one-leaf "and" tree. */
  lemma CursorLeafParses(l: Leaf)
    requires l.op == ">" && l.val.Str?
    ensures ParseFilter(EncodeLeaf(l), [], NoJsonText) == Ok(Some(LeafTree(l)))
  {
    PrepareSpecFillsDefaults([]);
    var ds := DomainSpec(None, DefaultComparisonOperators);
    ParseEncodedLeaf(l, [], NoJsonText);
    assert KnownField(l, ds);
    assert AllowedOperators(l, ds) == DefaultComparisonOperators;
    assert OperatorAllowed(l, ds) by {
      assert Lower(AllowedOperators(l, ds)[2]) == Lower(l.op);
    }
    assert ValueObstructions(l) == [];
    assert LeafObstructions(l, ds) == [];
    assert Leaves([LeafNode(l)]) == [l];
    NoObstructionsIffCleanLeaves([LeafNode(l)], ds);
  }

  lemma CursorStep(data: seq<CursorClause>, j: nat)
    requires j < |data| - 1
    ensures CursorFrom(data, j)
            == Combine(Some(Combine(Some(CursorFrom(data, j + 1)), LeafTree(AtLeastLeaf(data[j])), "and")),
                       LeafTree(GreaterLeaf(data[j])), "or")
  {
  }

  /** One turn of the cursor loop: `query.and(f >= v).or(f > v)` for clause `j`. */
  method CursorClauseQuery(q: DslQuery, data: seq<CursorClause>, j: nat) returns (r: DslQuery)
    requires j < |data| - 1
    requires q.Valid() && q.value == Some(CursorFrom(data, j + 1))
    ensures r.Valid() && r.value == Some(CursorFrom(data, j))
  {
    var atLeast, greater := AddLeaf(AtLeastLeaf(data[j])), AddLeaf(GreaterLeaf(data[j]));
    assert AdditionTree(atLeast) == LeafTree(AtLeastLeaf(data[j]));
    assert AdditionTree(greater) == LeafTree(GreaterLeaf(data[j]));
    CursorStep(data, j);
    var q1 := q.And(atLeast);
    r := q1.Or(greater);
  }

  /** `new DslQuery([field, ">", value])` for the last cursor clause. */
  method CursorLastQuery(c: CursorClause) returns (q: DslQuery)
    requires c.op == ">"
    ensures q.Valid() && q.value == Some(LeafTree(GreaterLeaf(c)))
  {
    var last := GreaterLeaf(c);
    CursorLeafParses(last);
    var parsed := DslQuery.Parse(EncodeLeaf(last), [], NoJsonText);
    q := parsed.value;
  }

  /** The cursor tree, built as paginate builds it: a DslQuery of the last clause,
      then `.and(f >= v).or(f > v)` for each earlier clause, last to first. */
  method CursorQuery(data: seq<CursorClause>) returns (t: Tree)
    requires |data| > 0
    requires AllGreater(data)
    ensures t == CursorTree(data)
  {
    var i := |data| - 1;
    var q := CursorLastQuery(data[i]);
    var j := i - 1;
    while j >= 0
      invariant -1 <= j < |data| - 1
      invariant q.Valid() && q.value == Some(CursorFrom(data, j + 1))
      decreases j
    {
      q := CursorClauseQuery(q, data, j);
      j := j - 1;
    }
    t := q.value.value;
  }

  /** One more clause of the cursor: its obstructions, data and sort entry are
      appended to those of the clauses before it. */
  lemma CursorPrefixStep(clauses: seq<string>, i: nat, order: Option<seq<SortData>>)
    requires i < |clauses|
    ensures CursorObstructions(clauses[..i + 1], order)
            == CursorObstructions(clauses[..i], order) + ClauseObstructions(clauses[i], i, order)
    ensures CursorData(clauses[..i + 1]) == CursorData(clauses[..i]) + [ClauseData(clauses[i])]
    ensures CursorSort(CursorData(clauses[..i + 1]))
            == CursorSort(CursorData(clauses[..i])) + [SortData(ClauseData(clauses[i]).field, Asc)]
  {
    assert clauses[..i + 1][..i] == clauses[..i];
  }

  /** The clause loop of paginate: the obstructions of every clause, the
      ascending sort over the cursor fields, and the clause data. */
  method ReadCursor(clauses: seq<string>, order: Option<seq<SortData>>)
    returns (o: seq<CursorObstruction>, sort: seq<SortData>, data: seq<CursorClause>)
    ensures o == CursorObstructions(clauses, order)
    ensures data == CursorData(clauses) && sort == CursorSort(data)
    ensures AllGreater(data)
  {
    o := [];
    sort := [];
    data := [];
    for i := 0 to |clauses|
      invariant o == CursorObstructions(clauses[..i], order)
      invariant data == CursorData(clauses[..i])
      invariant sort == CursorSort(data)
    {
      var val := clauses[i];
      var v := Split(val, ':');
      ghost var o0 := o;
      if |v| != 2 {
        o := o + [CursorObstruction(InvalidCursorData, val, i)];
      }
      if order.Some? && !InOrder(v[0], order.value) {
        o := o + [CursorObstruction(InvalidCursorField, val, i)];
      }
      assert o == o0 + ClauseObstructions(val, i, order);
      sort := sort + [SortData(v[0], Asc)];
      data := data + [CursorClause(v[0], ">", if |v| > 1 then v[1] else "")];
      CursorPrefixStep(clauses, i, order);
    }
    assert clauses[..|clauses|] == clauses;
  }

  class Query {
    var value: SqlQueryData

    constructor(v: SqlQueryData)
      ensures value == v
    {
      value := v;
    }

    /** where: sets the WHERE tree and nothing else. */
    method Where(v: Tree)
      modifies this
      ensures value == old(value).(where := Some(v))
    {
      value := value.(where := Some(v));
    }

    /** having: sets the HAVING tree and nothing else. */
    method Having(v: Tree)
      modifies this
      ensures value == old(value).(having := Some(v))
    {
      value := value.(having := Some(v));
    }

    /** limit: sets the limit and nothing else. */
    method Limit(v: LimitData)
      modifies this
      ensures value == old(value).(limit := Some(v))
    {
      value := value.(limit := Some(v));
    }

    /** sort: a falsy argument deletes the order, a tuple becomes a one-element
        list, a list is stored as given and a string is parsed item by item;
        nothing but the order changes, and nothing at all on a failure. */
    method Sort(s: SortArg) returns (r: Outcome)
      modifies this
      ensures SortOrder(s).Ok? ==> r == Pass && value == old(value).(order := SortOrder(s).value)
      ensures SortOrder(s).Err? ==> r == Fail(SortOrder(s).error) && value == old(value)
    {
      match s {
        case NoSort =>
          value := value.(order := None);
        case SortString(str) =>
          if str == "" {
            value := value.(order := None);
          } else {
            var items := Split(str, ',');
            var order: seq<SortData> := [];
            for i := 0 to |items|
              invariant |order| == i
              invariant forall k | 0 <= k < i :: items[k] != "" && order[k] == SortItem(items[k])
            {
              if items[i] == "" {
                return Fail(TypeError);
              }
              order := order + [SortItem(items[i])];
            }
            assert order == seq(|items|, k requires 0 <= k < |items| => SortItem(items[k]));
            value := value.(order := Some(order));
          }
        case SortTuple(t) =>
          value := value.(order := Some([t]));
        case SortList(ts) =>
          if ts == [] {
            return Fail(OutsideModel);
          }
          value := value.(order := Some(ts));
      }
      return Pass;
    }

    /** paginate: the limit for no cursor or a `num:N` cursor; otherwise every
        clause is checked, all obstructions are reported together, and a clean
        cursor becomes the HAVING tree (and the order, when there is none). */
    method Paginate(p: Option<PaginationData>) returns (r: Outcome)
      modifies this
      ensures Paginated(old(value), p).Ok? ==> r == Pass && value == Paginated(old(value), p).value
      ensures Paginated(old(value), p).Err? ==> r == Fail(Paginated(old(value), p).error) && value == old(value)
    {
      ghost var v0 := value;
      var size := if p.Some? && p.value.size.Some? && p.value.size.value != 0 then p.value.size.value else 20;
      assert size == PageSize(p);
      if p.None? || p.value.cursor.None? || p.value.cursor.value == "" {
        Limit(Rows(size));
        return Pass;
      }
      var c := p.value.cursor.value;
      if IsNumCursor(c) {
        var pageNum := DigitsValue(c[4..]);
        if pageNum < 1 {
          pageNum := 1;
        }
        Limit(RowsFrom(size, size * (pageNum - 1)));
        return Pass;
      }
      var clauses := Split(c, ',');
      var o, sort, data := ReadCursor(clauses, value.order);
      assert Paginated(v0, p) == PaginatedByCursor(v0, clauses);
      if |o| > 0 {
        return Fail(InvalidPagination(o));
      }
      if value.order.None? {
        assert SortOrder(SortList(sort)) == Ok(Some(CursorSort(data)));
        var _ := Sort(SortList(sort));
      }
      var cursor := CursorQuery(data);
      Having(cursor);
      return Pass;
    }
  }
}
