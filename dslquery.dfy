/** src/DslQuery.ts: the DslQuery builder object, its lookups and combinators,
    and the deepMerge copy helper they use. */
module DslQueries {
  import opened Types
  import opened Strings
  import opened Functions

  // ---------------------------------------------------------------------------
  // deepMerge
  // ---------------------------------------------------------------------------

  /** `typeof j.length !== "undefined"`: arrays, strings, and objects with a
      `length` property. */
  predicate HasLength(j: Json)
  {
    j.Arr? || j.Str? || (j.Obj? && Get(j.props, "length") != Undefined)
  }

  /** `typeof j === "object" && j !== null` */
  predicate IsObjectValue(j: Json)
  {
    j.Arr? || j.Obj?
  }

  /** deepMerge as a specification. Copies are values here, so a shallow copy is
      the value itself. An object with a `length` property takes the array
      paths, where `map` or `concat` is missing and the call throws; writing
      named properties onto an array is outside the model. */
  function Merged(base: Json, add: Json): Result<Json>
    decreases add, 1
  {
    match add
    case Undefined => Ok(base)
    case Null => Ok(Null)
    case Arr(items) =>
      if !IsObjectValue(base) || !HasLength(base) then Ok(add)
      else if base.Arr? then Ok(Arr(base.items + items))
      else Err(TypeError)
    case Obj(props) =>
      if HasLength(add) then
        if !IsObjectValue(base) then Err(TypeError)
        else if !HasLength(base) then Ok(add)
        else if base.Arr? then Ok(Arr(base.items + [add]))
        else Err(TypeError)
      else if !IsObjectValue(base) then Ok(add)
      else if base.Arr? then Err(OutsideModel)
      else
        (match MergeProps(base.props, props)
         case Err(e) => Err(e)
         case Ok(ps) => Ok(Obj(ps)))
    case _ => Ok(add)
  }

  /** The for-in loop of deepMerge: each property of `add`, in order, merged
      into the property of the same name. */
  function MergeProps(base: seq<Prop>, add: seq<Prop>): Result<seq<Prop>>
    decreases add, 0
  {
    if add == [] then Ok(base)
    else
      match Merged(Get(base, add[0].key), add[0].val)
      case Err(e) => Err(e)
      case Ok(v) => MergeProps(SetProp(base, add[0].key, v), add[1..])
  }

  /** No key appears twice, as in any JavaScript object. */
  predicate DistinctKeys(props: seq<Prop>)
  {
    forall i, j | 0 <= i < j < |props| :: props[i].key != props[j].key
  }

  /** Merging objects works key by key: a key of `add` holds the merge of the
      two values under it, any other key keeps the base's value. */
  lemma {:induction false} MergePropsByKey(base: seq<Prop>, add: seq<Prop>)
    requires DistinctKeys(add)
    requires MergeProps(base, add).Ok?
    ensures forall k :: HasKey(MergeProps(base, add).value, k) <==> HasKey(base, k) || HasKey(add, k)
    ensures forall k | HasKey(add, k) :: Merged(Get(base, k), Get(add, k)) == Ok(Get(MergeProps(base, add).value, k))
    ensures forall k | !HasKey(add, k) :: Get(MergeProps(base, add).value, k) == Get(base, k)
    decreases add
  {
    if add != [] {
      var x := add[0];
      var v := Merged(Get(base, x.key), x.val).value;
      var b1 := SetProp(base, x.key, v);
      var rest := add[1..];
      assert DistinctKeys(rest);
      MergePropsByKey(b1, rest);
      assert !HasKey(rest, x.key) by {
        forall j | 0 <= j < |rest|
          ensures rest[j].key != x.key
        {
          assert rest[j] == add[j + 1];
        }
      }
      forall k | k != x.key
        ensures HasKey(add, k) == HasKey(rest, k) && Get(add, k) == Get(rest, k)
      {
        assert add[1..] == rest;
      }
    }
  }

  /** deepMerge: returns `add` for a scalar, null for null, `base` for undefined,
      and otherwise copies, concatenates, or merges `add` key by key into `base`. */
  method DeepMerge(base: Json, add: Json) returns (r: Result<Json>)
    ensures r == Merged(base, add)
    decreases add, 1
  {
    if add.Undefined? {
      return Ok(base);
    } else if add.Null? {
      return Ok(Null);
    } else if IsObjectValue(add) {
      if !IsObjectValue(base) {
        if HasLength(add) {
          if add.Arr? {
            var copy: seq<Json> := [];
            for i := 0 to |add.items|
              invariant copy == add.items[..i]
            {
              copy := copy + [add.items[i]];
            }
            assert copy == add.items;
            return Ok(Arr(copy));
          }
          return Err(TypeError);
        }
        return Ok(add);
      } else {
        if HasLength(add) {
          if HasLength(base) {
            if base.Arr? {
              return Ok(Arr(base.items + (if add.Arr? then add.items else [add])));
            }
            return Err(TypeError);
          }
          return Ok(add);
        }
        if base.Arr? {
          return Err(OutsideModel);
        }
        var merged := MergeEach(base.props, add.props);
        if merged.Err? {
          return Err(merged.error);
        }
        return Ok(Obj(merged.value));
      }
    } else {
      return Ok(add);
    }
  }
  /** The for-in loop of deepMerge over the properties of `add`. */
  method MergeEach(base: seq<Prop>, props: seq<Prop>) returns (r: Result<seq<Prop>>)
    ensures r == MergeProps(base, props)
    decreases props, 0
  {
    var b := base;
    for i := 0 to |props|
      invariant MergeProps(base, props) == MergeProps(b, props[i..])
    {
      var x := props[i];
      assert props[i..][0] == x && props[i..][1..] == props[i + 1..];
      var merged := DeepMerge(Get(b, x.key), x.val);
      if merged.Err? {
        return Err(merged.error);
      }
      b := SetProp(b, x.key, merged.value);
    }
    return Ok(b);
  }


  /** `deepMerge({}, tree)` copies a tree: the copy equals the original. */
  lemma MergeCopiesTree(t: Tree)
    ensures Merged(Obj([]), EncodeTree(t)) == Ok(EncodeTree(t))
  {
    var q := EncodeTree(t);
    var v := Prop("v", Arr(EncodeNodes(t.v)));
    assert "length" != "o" && "length" != "v" && "o" != "v";
    assert Merged(Undefined, v.val) == Ok(v.val);
    assert Get([], "v") == Undefined && Get([], "o") == Undefined;
    match t.o
    case None =>
      assert q.props == [v];
      assert Get(q.props, "length") == Undefined;
      assert SetProp([], "v", v.val) == [v];
      assert [v][1..] == [];
      assert MergeProps([], [v]) == MergeProps([v], []) == Ok([v]);
    case Some(o) =>
      var p := Prop("o", Str(o));
      assert q.props == [p, v];
      assert Get(q.props, "length") == Undefined;
      assert Merged(Undefined, Str(o)) == Ok(Str(o));
      assert SetProp([], "o", Str(o)) == [p];
      assert Get([p], "v") == Undefined;
      assert SetProp([p], "v", v.val) == [p, v];
      assert [p, v][1..] == [v] && [v][1..] == [];
      assert MergeProps([p], [v]) == MergeProps([p, v], []) == Ok([p, v]);
      assert MergeProps([], [p, v]) == MergeProps([p], [v]);
  }

  // ---------------------------------------------------------------------------
  // Combining queries
  // ---------------------------------------------------------------------------

  /** `{or: "and", and: "or"}[o]` */
  function Opposite(o: string): string
    requires o == "and" || o == "or"
  {
    if o == "and" then "or" else "and"
  }

  /** A root operator the combinators expect: absent, or and / or. */
  predicate RootOk(o: Option<string>)
  {
    o == None || o == Some("and") || o == Some("or")
  }

  /** Whether modifyQuery demotes the base under a new root: its operator,
      defaulted to "and", is the opposite of the joining one. */
  predicate Demotes(base: Tree, op: string)
    requires op == "and" || op == "or"
  {
    (if base.o.None? || base.o == Some("") then "and" else base.o.value) == Opposite(op)
  }

  /** modifyQuery as a specification: the base (an empty tree when there is
      none) gets operator "and" when it has a falsy one; when that operator is
      the opposite of `op` the base is wrapped as the only child of a new `op`
      tree; then the addition is appended as the last child. */
  function Combine(base: Option<Tree>, add: Tree, op: string): (r: Tree)
    requires op == "and" || op == "or"
  {
    var v := if base.Some? then base.value else Tree(None, []);
    var v1 := if v.o.None? || v.o == Some("") then Tree(Some("and"), v.v) else v;
    var v2 := if v1.o == Some(Opposite(op)) then Tree(Some(op), [TreeNode(v1)]) else v1;
    Tree(v2.o, v2.v + [TreeNode(add)])
  }

  /** The result's root operator is the joining operator, its last child is the
      addition, and the children before it are the base's children, or the base
      itself when it was demoted. */
  lemma CombineShape(base: Option<Tree>, add: Tree, op: string)
    requires op == "and" || op == "or"
    requires base.Some? ==> RootOk(base.value.o)
    ensures var r := Combine(base, add, op);
            var b := if base.Some? then base.value else Tree(None, []);
            r.o == Some(op)
            && |r.v| >= 1 && r.v[|r.v| - 1] == TreeNode(add)
            && (Demotes(b, op) ==> r.v[..|r.v| - 1] == [TreeNode(Tree(Some(Opposite(op)), b.v))])
            && (!Demotes(b, op) ==> r.v[..|r.v| - 1] == b.v)
  {
    var r := Combine(base, add, op);
    assert r.v[..|r.v| - 1] == Combine(base, add, op).v[..|r.v| - 1];
  }

  /** The leaves of the result are the base's leaves followed by the addition's. */
  lemma CombineLeaves(base: Option<Tree>, add: Tree, op: string)
    requires op == "and" || op == "or"
    ensures Leaves(Combine(base, add, op).v)
            == (if base.Some? then Leaves(base.value.v) else []) + Leaves(add.v)
  {
    var v := if base.Some? then base.value else Tree(None, []);
    var v1 := if v.o.None? || v.o == Some("") then Tree(Some("and"), v.v) else v;
    var v2 := if v1.o == Some(Opposite(op)) then Tree(Some(op), [TreeNode(v1)]) else v1;
    LeavesAppend(v2.v, [TreeNode(add)]);
    assert Leaves([TreeNode(add)]) == Leaves(add.v) by {
      assert [TreeNode(add)][1..] == [];
    }
    if v1.o == Some(Opposite(op)) {
      assert Leaves([TreeNode(v1)]) == Leaves(v1.v) by {
        assert [TreeNode(v1)][1..] == [];
      }
    }
  }

  /** The truth of a tree when each leaf's truth is given by `env`: an "or" tree
      holds when some child holds, any other tree when every child holds. */
  function Holds(t: Tree, env: Leaf -> bool): bool
    decreases t, 2
  {
    if t.o == Some("or") then AnyHolds(t.v, env) else AllHold(t.v, env)
  }

  function AllHold(nodes: seq<Node>, env: Leaf -> bool): bool
    decreases nodes, 0
  {
    nodes == [] || (NodeHolds(nodes[0], env) && AllHold(nodes[1..], env))
  }

  function AnyHolds(nodes: seq<Node>, env: Leaf -> bool): bool
    decreases nodes, 0
  {
    nodes != [] && (NodeHolds(nodes[0], env) || AnyHolds(nodes[1..], env))
  }

  function NodeHolds(n: Node, env: Leaf -> bool): bool
    decreases n, 1
  {
    match n
    case LeafNode(l) => env(l)
    case TreeNode(t) => Holds(t, env)
  }

  lemma {:induction false} AllHoldAppend(a: seq<Node>, b: seq<Node>, env: Leaf -> bool)
    ensures AllHold(a + b, env) == (AllHold(a, env) && AllHold(b, env))
  {
    if a == [] {
      assert a + b == b;
    } else {
      assert (a + b)[0] == a[0] && (a + b)[1..] == a[1..] + b;
      AllHoldAppend(a[1..], b, env);
    }
  }

  lemma {:induction false} AnyHoldsAppend(a: seq<Node>, b: seq<Node>, env: Leaf -> bool)
    ensures AnyHolds(a + b, env) == (AnyHolds(a, env) || AnyHolds(b, env))
  {
    if a == [] {
      assert a + b == b;
    } else {
      assert (a + b)[0] == a[0] && (a + b)[1..] == a[1..] + b;
      AnyHoldsAppend(a[1..], b, env);
    }
  }

  /** `and` means conjunction and `or` disjunction: the combined query holds
      exactly when the base and the addition both (or either) hold. An absent
      base is the empty "and" tree, which always holds. */
  lemma CombineMeaning(base: Option<Tree>, add: Tree, op: string, env: Leaf -> bool)
    requires op == "and" || op == "or"
    requires base.Some? ==> RootOk(base.value.o)
    ensures var b := if base.Some? then Holds(base.value, env) else true;
            Holds(Combine(base, add, op), env)
            == (if op == "and" then b && Holds(add, env) else b || Holds(add, env))
  {
    var v := if base.Some? then base.value else Tree(None, []);
    var v1 := if v.o.None? || v.o == Some("") then Tree(Some("and"), v.v) else v;
    var v2 := if v1.o == Some(Opposite(op)) then Tree(Some(op), [TreeNode(v1)]) else v1;
    assert Holds(v1, env) == Holds(v, env);
    assert [TreeNode(add)][1..] == [];
    assert AllHold([TreeNode(add)], env) == Holds(add, env);
    assert AnyHolds([TreeNode(add)], env) == Holds(add, env);
    if v1.o == Some(Opposite(op)) {
      assert [TreeNode(v1)][1..] == [];
      assert AllHold([TreeNode(v1)], env) == Holds(v1, env);
      assert AnyHolds([TreeNode(v1)], env) == Holds(v1, env);
    }
    AllHoldAppend(v2.v, [TreeNode(add)], env);
    AnyHoldsAppend(v2.v, [TreeNode(add)], env);
  }

  /** `or` on an empty query: `{o: "or", v: [{o: "and", v: []}, x]}`. */
  lemma OrOnEmpty(x: Tree)
    ensures Combine(None, x, "or") == Tree(Some("or"), [TreeNode(Tree(Some("and"), [])), TreeNode(x)])
  {
    assert [TreeNode(Tree(Some("and"), []))] + [TreeNode(x)] == [TreeNode(Tree(Some("and"), [])), TreeNode(x)];
  }

  // ---------------------------------------------------------------------------
  // Lookups
  // ---------------------------------------------------------------------------

  /** The inner `has` of DslQuery.has: whether some leaf, at any depth, is on field `k`. */
  function HasIn(k: string, nodes: seq<Node>): (b: bool)
    ensures b <==> exists l | l in Leaves(nodes) :: l.field == k
    decreases nodes, 0
  {
    if nodes == [] then false
    else
      var here := NodeHas(k, nodes[0]);
      var rest := HasIn(k, nodes[1..]);
      assert Leaves(nodes) == NodeLeaves(nodes[0]) + Leaves(nodes[1..]);
      here || rest
  }

  function NodeHas(k: string, n: Node): (b: bool)
    ensures b <==> exists l | l in NodeLeaves(n) :: l.field == k
    decreases n, 1
  {
    match n
    case LeafNode(l) => l.field == k
    case TreeNode(t) => HasIn(k, t.v)
  }

  /** The leaves on field `k`, in order: the reference for `get`. */
  function LeavesOn(leaves: seq<Leaf>, k: string): (r: seq<Leaf>)
    ensures forall l | l in r :: l.field == k && l in leaves
    ensures r == [] <==> forall l | l in leaves :: l.field != k
  {
    if leaves == [] then []
    else
      var rest := LeavesOn(leaves[1..], k);
      assert forall l | l in leaves :: l == leaves[0] || l in leaves[1..];
      if leaves[0].field == k then [leaves[0]] + rest else rest
  }

  lemma {:induction false} LeavesOnAppend(a: seq<Leaf>, b: seq<Leaf>, k: string)
    ensures LeavesOn(a + b, k) == LeavesOn(a, k) + LeavesOn(b, k)
  {
    if a == [] {
      assert a + b == b;
    } else {
      assert (a + b)[0] == a[0] && (a + b)[1..] == a[1..] + b;
      LeavesOnAppend(a[1..], b, k);
    }
  }

  /** The inner `get` of DslQuery.get: every leaf on field `k`, depth first and
      left to right (the empty list standing for the source's null). */
  function GetIn(k: string, nodes: seq<Node>): (r: seq<Leaf>)
    ensures r == LeavesOn(Leaves(nodes), k)
    decreases nodes, 0
  {
    if nodes == [] then []
    else
      var here := NodeGet(k, nodes[0]);
      var rest := GetIn(k, nodes[1..]);
      LeavesOnAppend(NodeLeaves(nodes[0]), Leaves(nodes[1..]), k);
      here + rest
  }

  function NodeGet(k: string, n: Node): (r: seq<Leaf>)
    ensures r == LeavesOn(NodeLeaves(n), k)
    decreases n, 1
  {
    match n
    case LeafNode(l) => if l.field == k then [l] else []
    case TreeNode(t) => GetIn(k, t.v)
  }

  /** Renaming fields moves a field lookup onto the renamed fields. */
  lemma HasAfterMapping(k: string, nodes: seq<Node>, m: FieldMap)
    ensures HasIn(k, MappedNodes(nodes, m)) <==> exists l | l in Leaves(nodes) :: Rename(l.field, m) == k
  {
    MappedLeaves(nodes, m);
    var ls := Leaves(nodes);
    if HasIn(k, MappedNodes(nodes, m)) {
      var l' :| l' in RenameLeaves(ls, m) && l'.field == k;
      var i :| 0 <= i < |ls| && l' == RenameLeaf(ls[i], m);
      assert ls[i] in ls;
    }
    if l :| l in ls && Rename(l.field, m) == k {
      var i :| 0 <= i < |ls| && ls[i] == l;
      assert RenameLeaves(ls, m)[i] in RenameLeaves(ls, m);
    }
  }

  // ---------------------------------------------------------------------------
  // The DslQuery object
  // ---------------------------------------------------------------------------

  /** An argument of and / or: a DslQuery, a tree, a node array or a leaf. */
  datatype Addition =
    | AddQuery(query: DslQuery)
    | AddData(tree: Tree)
    | AddNodes(nodes: seq<Node>)
    | AddLeaf(leaf: Leaf)

  /** What the combinators accept: a DslQuery that holds a valid value, or a
      tree, node array or leaf of the shape the duck tests recognise. */
  predicate AdditionOk(q: Addition)
    reads if q.AddQuery? then {q.query} else {}
  {
    match q
    case AddQuery(d) => d.value.Some? && RootOk(d.value.value.o) && AllShaped(d.value.value.v)
    case AddData(t) => AllShaped(t.v)
    case AddNodes(ns) => AllShaped(ns)
    case AddLeaf(l) => LeafShaped(l)
  }

  /** The addition as a tree, normalised as modifyQuery does. */
  function AdditionTree(q: Addition): Tree
    requires AdditionOk(q)
    reads if q.AddQuery? then {q.query} else {}
  {
    match q
    case AddQuery(d) => d.value.value
    case AddData(t) => t
    case AddNodes(ns) => Tree(Some("and"), ns)
    case AddLeaf(l) => Tree(Some("and"), [LeafNode(l)])
  }

  lemma AdditionTreeShaped(q: Addition)
    requires AdditionOk(q)
    ensures AllShaped(AdditionTree(q).v)
  {
    if q.AddLeaf? {
      assert Leaves([LeafNode(q.leaf)]) == [q.leaf];
    }
  }

  /** Combining keeps every leaf in a shape the duck tests accept. */
  lemma CombinedShaped(base: Option<Tree>, add: Tree, op: string)
    requires op == "and" || op == "or"
    requires base.Some? ==> RootOk(base.value.o) && AllShaped(base.value.v)
    requires AllShaped(add.v)
    ensures RootOk(Combine(base, add, op).o) && AllShaped(Combine(base, add, op).v)
  {
    CombineShape(base, add, op);
    CombineLeaves(base, add, op);
  }

  class DslQuery {
    /** The filter tree, or none (the source's null). */
    var value: Option<Tree>

    /** Every leaf is of a shape isFilterLeaf accepts and the root operator is
        absent, "and" or "or". */
    ghost predicate Valid()
      reads this
    {
      value.Some? ==> RootOk(value.value.o) && AllShaped(value.value.v)
    }

    /** `new DslQuery()`: parseFilter of undefined is null. */
    constructor Empty()
      ensures value == None && Valid()
    {
      value := None;
    }

    /** `new DslQuery(q, querySpec)`: the value parseFilter gives, or its failure. */
    static method Parse(q: Json, spec: seq<Prop>, jsonParse: string -> Option<Json>) returns (r: Result<DslQuery>)
      ensures r.Err? <==> ParseFilter(q, spec, jsonParse).Err?
      ensures r.Err? ==> r.error == ParseFilter(q, spec, jsonParse).error
      ensures r.Ok? ==> fresh(r.value) && r.value.value == ParseFilter(q, spec, jsonParse).value && r.value.Valid()
    {
      var parsed := ParseFilter(q, spec, jsonParse);
      if parsed.Err? {
        return Err(parsed.error);
      }
      var d := new DslQuery.Empty();
      d.value := parsed.value;
      return Ok(d);
    }

    /** has: false for an empty query, else whether some leaf is on field `key`. */
    function Has(key: string): (b: bool)
      reads this
      ensures b <==> value.Some? && exists l | l in Leaves(value.value.v) :: l.field == key
    {
      value.Some? && HasIn(key, value.value.v)
    }

    /** get: the leaves on field `key` in depth-first order, or none when there
        are none or the query is empty. */
    function Get(key: string): (r: Option<seq<Leaf>>)
      reads this
      ensures r.Some? <==> Has(key)
      ensures r.Some? ==> r.value == LeavesOn(Leaves(value.value.v), key) && |r.value| > 0
    {
      if value.None? then None
      else
        var leaves := GetIn(key, value.value.v);
        if |leaves| == 0 then None else Some(leaves)
    }

    /** toString: ("", []) for an empty query, else the rendered tree. */
    method ToString(translator: Translator) returns (r: Rendered)
      requires Valid()
      ensures value.None? ==> r == ("", [])
      ensures value.Some? ==> r == Render(value.value, translator, false)
      ensures r.1 == (if value.Some? then LeafParams(Leaves(value.value.v), translator) else [])
    {
      if value.Some? {
        r := FilterToString(value.value, Some(translator), false);
      } else {
        r := ("", []);
      }
    }

    /** modifyQuery: a fresh query whose value combines a copy of this one's
        with the normalised argument; this query is left as it was. */
    method ModifyQuery(q: Addition, operator: string) returns (r: DslQuery)
      requires Valid() && AdditionOk(q)
      requires operator == "and" || operator == "or"
      ensures fresh(r) && r.Valid()
      ensures r.value == Some(Combine(value, AdditionTree(q), operator))
    {
      var v := if value.Some? then value.value else Tree(None, []);
      var add: Tree;
      match q {
        case AddQuery(d) => add := d.value.value;
        case AddLeaf(l) => add := Tree(Some("and"), [LeafNode(l)]);
        case AddNodes(ns) => add := Tree(Some("and"), ns);
        case AddData(t) => add := t;
      }
      assert add == AdditionTree(q);
      AdditionTreeShaped(q);
      if v.o.None? || v.o == Some("") {
        v := Tree(Some("and"), v.v);
      }
      if v.o == Some(Opposite(operator)) {
        v := Tree(Some(operator), [TreeNode(v)]);
      }
      v := Tree(v.o, v.v + [TreeNode(add)]);
      assert v == Combine(value, add, operator);
      CombinedShaped(value, add, operator);
      r := new DslQuery.Empty();
      r.value := Some(v);
    }

    method And(q: Addition) returns (r: DslQuery)
      requires Valid() && AdditionOk(q)
      ensures fresh(r) && r.Valid()
      ensures r.value == Some(Combine(value, AdditionTree(q), "and"))
    {
      r := ModifyQuery(q, "and");
    }

    method Or(q: Addition) returns (r: DslQuery)
      requires Valid() && AdditionOk(q)
      ensures fresh(r) && r.Valid()
      ensures r.value == Some(Combine(value, AdditionTree(q), "or"))
    {
      r := ModifyQuery(q, "or");
    }

    /** mapFields: a fresh query holding the field-mapped copy of this one's
        value (of `{v: []}` when it is empty); this query is left as it was. */
    method MapFields(m: FieldMap) returns (r: DslQuery)
      requires Valid()
      ensures fresh(r) && r.Valid()
      ensures r.value == Some(MappedTree(if value.Some? then value.value else Tree(None, []), m))
    {
      var v := if value.Some? then value.value else Tree(None, []);
      r := new DslQuery.Empty();
      var mapped := ApplyFieldMap(v, m);
      r.value := Some(mapped);
      MappedKeepsShaped(v.v, m);
    }
  }
}
