/** The data model of src/Types.ts, the JavaScript values the core receives before
    they are typed, and the failures the core raises. */
module Types {

  datatype Option<+T> = None | Some(value: T)

  /** A JavaScript value as the core sees it: decoded JSON plus `undefined`.
      An object lists its own properties in insertion order. */
  datatype Json =
    | Undefined
    | Null
    | Bool(b: bool)
    | Num(n: real)
    | Str(s: string)
    | Arr(items: seq<Json>)
    | Obj(props: seq<Prop>)

  datatype Prop = Prop(key: string, val: Json)

  /** `typeof j === "object"` (true of null, arrays and objects). */
  predicate IsObjectType(j: Json)
  {
    j.Null? || j.Arr? || j.Obj?
  }

  /** The TypeScript `Value`: string | number | boolean | null. */
  predicate IsScalar(j: Json)
  {
    j.Null? || j.Bool? || j.Num? || j.Str?
  }

  /** `Value | Array<Value>`, the type of a leaf's third element. */
  predicate IsLeafValue(j: Json)
  {
    IsScalar(j) || (j.Arr? && forall k | 0 <= k < |j.items| :: IsScalar(j.items[k]))
  }

  /** JavaScript truthiness (NaN is not modelled). */
  predicate Truthy(j: Json)
  {
    match j
    case Undefined => false
    case Null => false
    case Bool(b) => b
    case Num(n) => n != 0.0
    case Str(s) => s != ""
    case _ => true
  }

  /** Position of the first property named `key`, or |props| when there is none. */
  function KeyIndex(props: seq<Prop>, key: string): (i: nat)
    ensures i <= |props|
    ensures i < |props| ==> props[i].key == key
    ensures forall k | 0 <= k < i :: props[k].key != key
  {
    if props == [] then 0
    else if props[0].key == key then 0
    else 1 + KeyIndex(props[1..], key)
  }

  /** `obj.hasOwnProperty(key)` */
  predicate HasKey(props: seq<Prop>, key: string)
  {
    KeyIndex(props, key) < |props|
  }

  /** `obj[key]`: undefined when the object has no such property. */
  function Get(props: seq<Prop>, key: string): Json
  {
    var i := KeyIndex(props, key);
    if i < |props| then props[i].val else Undefined
  }

  /** `obj[key] = val`: replaces the property in place, or appends it. */
  function SetProp(props: seq<Prop>, key: string, val: Json): (r: seq<Prop>)
    ensures HasKey(r, key) && Get(r, key) == val
    ensures forall k | k != key :: HasKey(r, k) == HasKey(props, k) && Get(r, k) == Get(props, k)
  {
    var i := KeyIndex(props, key);
    if i < |props| then
      var r := props[i := Prop(key, val)];
      assert forall k | k != key :: KeyIndex(r, k) == KeyIndex(props, k) by {
        forall k | k != key ensures KeyIndex(r, k) == KeyIndex(props, k) {
          KeyIndexUpdate(props, i, key, val, k);
        }
      }
      assert r[i].key == key && forall j | 0 <= j < i :: r[j] == props[j];
      r
    else
      var r := props + [Prop(key, val)];
      assert forall k | k != key :: HasKey(r, k) == HasKey(props, k) && Get(r, k) == Get(props, k) by {
        forall k | k != key ensures HasKey(r, k) == HasKey(props, k) && Get(r, k) == Get(props, k) {
          KeyIndexAppend(props, Prop(key, val), k);
        }
      }
      assert KeyIndex(r, key) == |props| by { KeyIndexAppend(props, Prop(key, val), key); }
      r
  }

  lemma {:induction false} KeyIndexUpdate(props: seq<Prop>, i: nat, key: string, val: Json, k: string)
    requires i < |props| && props[i].key == key && k != key
    ensures KeyIndex(props[i := Prop(key, val)], k) == KeyIndex(props, k)
  {
    if i > 0 {
      assert props[i := Prop(key, val)][1..] == props[1..][i - 1 := Prop(key, val)];
      KeyIndexUpdate(props[1..], i - 1, key, val, k);
    }
  }

  lemma {:induction false} KeyIndexAppend(props: seq<Prop>, p: Prop, k: string)
    ensures KeyIndex(props + [p], k) == if HasKey(props, k) then KeyIndex(props, k) else if p.key == k then |props| else |props| + 1
  {
    if props != [] {
      assert (props + [p])[1..] == props[1..] + [p];
      KeyIndexAppend(props[1..], p, k);
    }
  }

  /** `arr[i]`: undefined outside the array. */
  function Index(xs: seq<Json>, i: int): Json
  {
    if 0 <= i < |xs| then xs[i] else Undefined
  }

  /** FieldName, ComparisonOperator, and FilterLeaf = [field, operator, value]. */
  datatype Leaf = Leaf(field: string, op: string, val: Json)

  /** An element of a tree's `v`: a leaf or a nested tree. */
  datatype Node = LeafNode(leaf: Leaf) | TreeNode(tree: Tree)

  /** FilterData `{o, v}`. `o` is None when the object has no `o` property,
      which the source allows for nested trees. */
  datatype Tree = Tree(o: Option<string>, v: seq<Node>)

  /** DomainSpec, once checked: the field specs (None when absent or null) and
      the default comparison operators. */
  datatype DomainSpec = DomainSpec(fieldSpecs: Option<map<string, seq<string>>>, defaults: seq<string>)

  /** An obstruction `{code, text}`; the human-readable text is not modelled. */
  datatype Obstruction = Obstruction(code: string)

  /** A pagination obstruction with its `params`: the cursor clause and its position. */
  datatype CursorObstruction = CursorObstruction(code: string, clause: string, index: nat)

  datatype Failure =
    | BadDomainSpec(subcode: string)                                  // BadQuerySpec
    | BadFilter(subcode: string, obstructions: seq<Obstruction>)      // BadQuery
    | InvalidPagination(cursorObstructions: seq<CursorObstruction>)  // BadRequest "InvalidPagination"
    | NotImplemented(verb: string)
    | TypeError     // a JavaScript TypeError the source does not catch
    | OutsideModel  // an input shape this model does not represent

  datatype Result<+T> = Ok(value: T) | Err(error: Failure)

  datatype Outcome = Pass | Fail(error: Failure)

  /** `[string, Array<Value>]`: a query fragment and its bound values. */
  type Rendered = (string, seq<Json>)

  /** TranslatorFunction: renders one leaf. */
  type Translator = Leaf -> Rendered

  /** All leaves of a node list, depth first and left to right. */
  function Leaves(nodes: seq<Node>): seq<Leaf>
    decreases nodes
  {
    if nodes == [] then [] else NodeLeaves(nodes[0]) + Leaves(nodes[1..])
  }

  function NodeLeaves(n: Node): seq<Leaf>
    decreases n
  {
    match n
    case LeafNode(l) => [l]
    case TreeNode(t) => Leaves(t.v)
  }

  /** The number of nodes at every depth: a measure that shrinks from a list to
      the children of any tree in it. */
  function NodesSize(nodes: seq<Node>): nat
    decreases nodes
  {
    if nodes == [] then 0 else NodeSize(nodes[0]) + NodesSize(nodes[1..])
  }

  function NodeSize(n: Node): nat
    decreases n
  {
    match n
    case LeafNode(_) => 1
    case TreeNode(t) => 1 + NodesSize(t.v)
  }

  lemma {:induction false} NodeSizeBound(nodes: seq<Node>, i: nat)
    requires i < |nodes|
    ensures NodeSize(nodes[i]) <= NodesSize(nodes)
  {
    if i > 0 {
      NodeSizeBound(nodes[1..], i - 1);
    }
  }

  lemma {:induction false} LeavesAppend(a: seq<Node>, b: seq<Node>)
    ensures Leaves(a + b) == Leaves(a) + Leaves(b)
  {
    if a == [] {
      assert a + b == b;
    } else {
      assert (a + b)[0] == a[0] && (a + b)[1..] == a[1..] + b;
      LeavesAppend(a[1..], b);
    }
  }

  /** The JavaScript object a tree stands for. */
  function EncodeTree(t: Tree): Json
    decreases t
  {
    var v := Prop("v", Arr(EncodeNodes(t.v)));
    match t.o
    case None => Obj([v])
    case Some(o) => Obj([Prop("o", Str(o)), v])
  }

  function EncodeNodes(nodes: seq<Node>): (r: seq<Json>)
    ensures |r| == |nodes|
    decreases nodes
  {
    if nodes == [] then [] else [EncodeNode(nodes[0])] + EncodeNodes(nodes[1..])
  }

  function EncodeNode(n: Node): Json
    decreases n
  {
    match n
    case LeafNode(l) => EncodeLeaf(l)
    case TreeNode(t) => EncodeTree(t)
  }

  function EncodeLeaf(l: Leaf): Json
  {
    Arr([Str(l.field), Str(l.op), l.val])
  }
}
