/** src/Functions.ts: the duck tests on raw input, the domain-spec check, the
    obstruction walk, the field map, the SQL rendering of leaves and trees, and
    parseFilter, which turns raw input into a checked filter tree. */
module Functions {
  import opened Types
  import opened Strings

  // ---------------------------------------------------------------------------
  // Duck tests on raw values
  // ---------------------------------------------------------------------------

  /** isFilterLeaf: a three-element array of two strings and a value or an array. */
  predicate IsFilterLeaf(q: Json)
  {
    q.Arr? && |q.items| == 3 && q.items[0].Str? && q.items[1].Str?
    && (IsScalar(q.items[2]) || q.items[2].Arr?)
  }

  /** isFilterNode: an array that is empty or whose FIRST element is a leaf or a
      tree; the later elements are not looked at. Err(TypeError) is the
      exception `isFilterData` raises on a null head. */
  function IsFilterNode(q: Json, lite: bool): (r: Result<bool>)
    ensures r == Ok(true) ==> q.Arr?
    ensures q.Arr? && |q.items| > 0 && q.items[0].Arr? ==> r == Ok(IsFilterLeaf(q.items[0]))
    decreases q, 1
  {
    if !q.Arr? then Ok(false)
    else if |q.items| == 0 then Ok(true)
    else if IsFilterLeaf(q.items[0]) then Ok(true)
    else IsFilterData(q.items[0], lite)
  }

  /** isFilterData: an object with an own property `v` that, unless `lite`,
      passes isFilterNode. `typeof null === "object"` lets null reach
      `hasOwnProperty`, which throws. Arrays have no own `v`. */
  function IsFilterData(q: Json, lite: bool): (r: Result<bool>)
    ensures r == Ok(true) ==> q.Obj? && HasKey(q.props, "v") && (!lite ==> Get(q.props, "v").Arr?)
    ensures r.Err? <==> q.Null? || (!lite && q.Obj? && HasKey(q.props, "v") && IsFilterNode(Get(q.props, "v"), lite).Err?)
    decreases q, 0
  {
    match q
    case Null => Err(TypeError)
    case Obj(props) =>
      var i := KeyIndex(props, "v");
      if i == |props| then Ok(false)
      else if lite then Ok(true)
      else IsFilterNode(props[i].val, lite)
    case _ => Ok(false)
  }

  /** A leaf of the shape isFilterLeaf recognises once encoded. */
  predicate LeafShaped(l: Leaf)
  {
    IsScalar(l.val) || l.val.Arr?
  }

  /** Every leaf of the nodes, at any depth, is LeafShaped. */
  predicate AllShaped(nodes: seq<Node>)
  {
    forall l | l in Leaves(nodes) :: LeafShaped(l)
  }

  lemma EncodedLeafIsFilterLeaf(l: Leaf)
    ensures IsFilterLeaf(EncodeLeaf(l)) <==> LeafShaped(l)
  {
  }

  /** The encoding of a tree whose leaves are shaped passes the full duck test,
      and its children pass the node test. */
  lemma {:induction false} EncodedTreeIsFilterData(t: Tree)
    requires AllShaped(t.v)
    ensures IsFilterData(EncodeTree(t), false) == Ok(true)
    ensures IsFilterNode(Arr(EncodeNodes(t.v)), false) == Ok(true)
    decreases t, 1
  {
    var props := EncodeTree(t).props;
    assert KeyIndex(props, "v") == |props| - 1;
    EncodedNodesAreFilterNode(t.v);
  }

  lemma {:induction false} EncodedNodesAreFilterNode(nodes: seq<Node>)
    requires AllShaped(nodes)
    ensures IsFilterNode(Arr(EncodeNodes(nodes)), false) == Ok(true)
    decreases nodes, 3
  {
    if nodes != [] {
      var e := EncodeNodes(nodes);
      assert e[0] == EncodeNode(nodes[0]);
      match nodes[0]
      case LeafNode(l) =>
        assert Leaves(nodes) == [l] + Leaves(nodes[1..]);
        assert l in Leaves(nodes);
      case TreeNode(t) =>
        assert Leaves(nodes) == Leaves(t.v) + Leaves(nodes[1..]);
        EncodedNodeIsFilterData(nodes[0]);
    }
  }

  lemma {:induction false} EncodedNodeIsFilterData(n: Node)
    requires n.TreeNode? && AllShaped(n.tree.v)
    ensures IsFilterData(EncodeNode(n), false) == Ok(true)
    decreases n, 2
  {
    EncodedTreeIsFilterData(n.tree);
  }

  /** A raw value recognised by isFilterLeaf is the encoding of a shaped leaf. */
  lemma FilterLeafIsEncodedLeaf(q: Json)
    requires IsFilterLeaf(q)
    ensures var l := Leaf(q.items[0].s, q.items[1].s, q.items[2]); LeafShaped(l) && EncodeLeaf(l) == q
  {
    assert q.items == [q.items[0], q.items[1], q.items[2]];
  }

  /** isFilterNode looks at the head only: whatever follows it does not matter. */
  lemma FilterNodeIgnoresTail(head: Json, tail1: seq<Json>, tail2: seq<Json>, lite: bool)
    ensures IsFilterNode(Arr([head] + tail1), lite) == IsFilterNode(Arr([head] + tail2), lite)
  {
    assert ([head] + tail1)[0] == head == ([head] + tail2)[0];
  }

  // ---------------------------------------------------------------------------
  // The domain spec
  // ---------------------------------------------------------------------------

  const FieldSpecsKey := "fieldSpecs"
  const DefaultsKey := "defaultComparisonOperators"

  predicate IsSpecKey(k: string)
  {
    k == FieldSpecsKey || k == DefaultsKey
  }

  /** The own enumerable keys of a value, as Object.keys lists them (array
      indices for an array). */
  function ObjectKeys(j: Json): seq<string>
  {
    match j
    case Obj(props) => seq(|props|, k requires 0 <= k < |props| => props[k].key)
    case Arr(items) => seq(|items|, k requires 0 <= k < |items| => NatToString(k))
    case _ => []
  }

  /** isDomainSpec: checks the spec in a fixed order and fails on the first
      problem with its subcode. `typeof null === "object"` lets null reach
      Object.keys, which throws. */
  function IsDomainSpec(spec: Json): (r: Outcome)
    ensures r == Pass ==> spec.Obj? && HasKey(spec.props, DefaultsKey) && Get(spec.props, DefaultsKey).Arr?
    ensures r == Pass ==> forall k | 0 <= k < |spec.props| :: IsSpecKey(spec.props[k].key)
    ensures r == Pass ==> var fs := Get(spec.props, FieldSpecsKey); fs.Undefined? || fs.Null? || fs.Obj?
    ensures spec.Arr? ==> r == Fail(BadDomainSpec(if spec.items == [] then "MissingComparisonOperators" else "InvalidKeys"))
    ensures r == Fail(BadDomainSpec("MissingComparisonOperators")) ==> !(spec.Obj? && HasKey(spec.props, DefaultsKey))
  {
    assert |"MissingComparisonOperators"| == 26;
    assert |"InvalidKeys"| == 11 && |"ComparisonOperatorsNotArray"| == 27;
    assert |"MalformedFieldSpecs"| == 19 && |"ObjectRequired"| == 14;
    if !IsObjectType(spec) then Fail(BadDomainSpec("ObjectRequired"))
    else if spec.Null? then Fail(TypeError)
    else
      var keys := ObjectKeys(spec);
      assert spec.Arr? && spec.items != [] ==> !IsSpecKey(keys[0]) by {
        if spec.Arr? && spec.items != [] {
          assert keys[0][0] != 'f' && keys[0][0] != 'd';
        }
      }
      assert spec.Obj? ==> forall k | 0 <= k < |spec.props| :: keys[k] == spec.props[k].key;
      if exists k | 0 <= k < |keys| :: !IsSpecKey(keys[k]) then
        Fail(BadDomainSpec("InvalidKeys"))
      else if spec.Arr? then
        // an empty array: no keys, and no own defaultComparisonOperators
        Fail(BadDomainSpec("MissingComparisonOperators"))
      else if !HasKey(spec.props, DefaultsKey) then
        Fail(BadDomainSpec("MissingComparisonOperators"))
      else if !Get(spec.props, DefaultsKey).Arr? then
        Fail(BadDomainSpec("ComparisonOperatorsNotArray"))
      else
        var fs := Get(spec.props, FieldSpecsKey);
        if (HasKey(spec.props, FieldSpecsKey) && !IsObjectType(fs)) || fs.Arr? then
          Fail(BadDomainSpec("MalformedFieldSpecs"))
        else
          Pass
  }

  /** The checks of isDomainSpec in their order: each subcode is reported
      exactly when the checks before it pass and its own fails, and the spec is
      accepted exactly when all of them pass. */
  lemma IsDomainSpecOrder(spec: Json)
    ensures IsDomainSpec(spec) == Fail(BadDomainSpec("ObjectRequired")) <==> !IsObjectType(spec)
    ensures spec.Null? ==> IsDomainSpec(spec) == Fail(TypeError)
    ensures spec.Obj? ==>
              var ps := spec.props;
              var r := IsDomainSpec(spec);
              var keysOk := forall k | 0 <= k < |ps| :: IsSpecKey(ps[k].key);
              var hasDefaults := HasKey(ps, DefaultsKey);
              var defaultsOk := hasDefaults && Get(ps, DefaultsKey).Arr?;
              var fs := Get(ps, FieldSpecsKey);
              var fieldSpecsBad := (HasKey(ps, FieldSpecsKey) && !IsObjectType(fs)) || fs.Arr?;
              (r == Fail(BadDomainSpec("InvalidKeys")) <==> !keysOk)
              && (r == Fail(BadDomainSpec("MissingComparisonOperators")) <==> keysOk && !hasDefaults)
              && (r == Fail(BadDomainSpec("ComparisonOperatorsNotArray")) <==> keysOk && hasDefaults && !defaultsOk)
              && (r == Fail(BadDomainSpec("MalformedFieldSpecs")) <==> keysOk && defaultsOk && fieldSpecsBad)
              && (r == Pass <==> keysOk && defaultsOk && !fieldSpecsBad)
  {
    assert |"MissingComparisonOperators"| == 26;
    assert |"InvalidKeys"| == 11 && |"ComparisonOperatorsNotArray"| == 27;
    assert |"MalformedFieldSpecs"| == 19 && |"ObjectRequired"| == 14;
    if spec.Obj? {
      var keys := ObjectKeys(spec);
      assert forall k | 0 <= k < |spec.props| :: keys[k] == spec.props[k].key;
    }
  }

  /** The strings of an array of strings; OutsideModel for any other element. */
  function DecodeStrings(items: seq<Json>): (r: Result<seq<string>>)
    ensures r.Ok? ==> |r.value| == |items| && forall k | 0 <= k < |items| :: items[k] == Str(r.value[k])
    ensures r.Err? ==> r.error == OutsideModel && exists k | 0 <= k < |items| :: !items[k].Str?
  {
    if items == [] then Ok([])
    else if !items[0].Str? then Err(OutsideModel)
    else
      var rest := DecodeStrings(items[1..]);
      if rest.Err? then rest else Ok([items[0].s] + rest.value)
  }

  /** The field specs as a map; where a key repeats, the first entry wins, as Get reads it. */
  function DecodeFieldSpecs(props: seq<Prop>): (r: Result<map<string, seq<string>>>)
    ensures r.Ok? ==> forall k :: (k in r.value <==> HasKey(props, k))
    ensures r.Ok? ==> forall k | k in r.value :: Get(props, k) == Arr(EncodeStrings(r.value[k]))
    ensures r.Err? ==> r.error == OutsideModel
  {
    if props == [] then Ok(map[])
    else match props[0].val
      case Arr(items) =>
        var ops := DecodeStrings(items);
        var rest := DecodeFieldSpecs(props[1..]);
        if ops.Err? then Err(ops.error)
        else if rest.Err? then rest
        else
          assert EncodeStrings(ops.value) == items;
          Ok(rest.value[props[0].key := ops.value])
      case _ => Err(OutsideModel)
  }

  function EncodeStrings(ss: seq<string>): (r: seq<Json>)
    ensures |r| == |ss| && forall k | 0 <= k < |ss| :: r[k] == Str(ss[k])
  {
    seq(|ss|, k requires 0 <= k < |ss| => Str(ss[k]))
  }

  /** The checked spec as a DomainSpec value. Operator lists of anything but
      strings are outside the model. */
  function DecodeSpec(props: seq<Prop>): (r: Result<DomainSpec>)
    requires IsDomainSpec(Obj(props)) == Pass
    ensures r.Err? ==> r.error == OutsideModel
    ensures r.Ok? ==> Get(props, DefaultsKey) == Arr(EncodeStrings(r.value.defaults))
    ensures r.Ok? ==> (r.value.fieldSpecs.Some? <==> Get(props, FieldSpecsKey).Obj?)
  {
    var defaults := DecodeStrings(Get(props, DefaultsKey).items);
    var fs := Get(props, FieldSpecsKey);
    if defaults.Err? then Err(defaults.error)
    else if fs.Obj? then
      var m := DecodeFieldSpecs(fs.props);
      if m.Err? then Err(m.error) else Ok(DomainSpec(Some(m.value), defaults.value))
    else
      Ok(DomainSpec(None, defaults.value))
  }

  /** The JavaScript object a DomainSpec stands for. */
  ghost function EncodeSpec(ds: DomainSpec): Json
  {
    var d := Prop(DefaultsKey, Arr(EncodeStrings(ds.defaults)));
    match ds.fieldSpecs
    case None => Obj([d])
    case Some(m) => Obj([Prop(FieldSpecsKey, Obj(EncodeFieldSpecs(m))), d])
  }

  ghost function EncodeFieldSpecs(m: map<string, seq<string>>): seq<Prop>
    decreases |m|
  {
    if m == map[] then []
    else
      var k :| k in m;
      var rest := EncodeFieldSpecs(m - {k});
      [Prop(k, Arr(EncodeStrings(m[k])))] + rest
  }

  /** Every DomainSpec value is accepted by isDomainSpec once encoded, and
      decodes back to itself. */
  lemma EncodeSpecRoundTrip(ds: DomainSpec)
    ensures IsDomainSpec(EncodeSpec(ds)) == Pass
    ensures DecodeSpec(EncodeSpec(ds).props) == Ok(ds)
  {
    var props := EncodeSpec(ds).props;
    var d := EncodeStrings(ds.defaults);
    assert DecodeStrings(d) == Ok(ds.defaults) by { DecodeEncodeStrings(ds.defaults); }
    match ds.fieldSpecs
    case None =>
      assert Get(props, DefaultsKey) == Arr(d);
    case Some(m) =>
      assert FieldSpecsKey != DefaultsKey by { assert FieldSpecsKey[0] != DefaultsKey[0]; }
      assert props == [Prop(FieldSpecsKey, Obj(EncodeFieldSpecs(m))), Prop(DefaultsKey, Arr(d))];
      assert KeyIndex(props[1..], DefaultsKey) == 0;
      assert KeyIndex(props, DefaultsKey) == 1;
      assert Get(props, DefaultsKey) == Arr(d);
      assert Get(props, FieldSpecsKey) == Obj(EncodeFieldSpecs(m));
      DecodeEncodeFieldSpecs(m);
  }

  lemma {:induction false} DecodeEncodeStrings(ss: seq<string>)
    ensures DecodeStrings(EncodeStrings(ss)) == Ok(ss)
  {
    var e := EncodeStrings(ss);
    if ss != [] {
      assert e[0] == Str(ss[0]) && e[1..] == EncodeStrings(ss[1..]);
      DecodeEncodeStrings(ss[1..]);
      assert [ss[0]] + ss[1..] == ss;
    }
  }

  lemma DecodeFieldSpecsCons(p: Prop, props: seq<Prop>, ops: seq<string>, rest: map<string, seq<string>>)
    requires p.val.Arr? && DecodeStrings(p.val.items) == Ok(ops)
    requires DecodeFieldSpecs(props) == Ok(rest)
    ensures DecodeFieldSpecs([p] + props) == Ok(rest[p.key := ops])
  {
    assert ([p] + props)[0] == p && ([p] + props)[1..] == props;
  }

  lemma RemoveRestore(m: map<string, seq<string>>, k: string)
    requires k in m
    ensures (m - {k})[k := m[k]] == m
  {
  }

  lemma {:induction false} DecodeEncodeFieldSpecs(m: map<string, seq<string>>)
    ensures DecodeFieldSpecs(EncodeFieldSpecs(m)) == Ok(m)
    decreases |m|
  {
    var e := EncodeFieldSpecs(m);
    if m != map[] {
      var k :| k in m && e == [Prop(k, Arr(EncodeStrings(m[k])))] + EncodeFieldSpecs(m - {k});
      var rest := m - {k};
      DecodeEncodeFieldSpecs(rest);
      DecodeEncodeStrings(m[k]);
      DecodeFieldSpecsCons(Prop(k, Arr(EncodeStrings(m[k]))), EncodeFieldSpecs(rest), m[k], rest);
      RemoveRestore(m, k);
    }
  }

  // ---------------------------------------------------------------------------
  // Obstructions
  // ---------------------------------------------------------------------------

  const InvalidOperator := Obstruction("DslQueryInvalidOperator")
  const InvalidField := Obstruction("InvalidDslQueryField")
  const InvalidComparison := Obstruction("InvalidDslQueryComparisonOperator")
  const InvalidValue := Obstruction("InvalidDslQueryValue")

  lemma ObstructionCodesDistinct()
    ensures InvalidField != InvalidComparison && InvalidField != InvalidValue
    ensures InvalidComparison != InvalidValue && InvalidOperator != InvalidValue
    ensures InvalidOperator != InvalidField && InvalidOperator != InvalidComparison
  {
    assert InvalidField.code[15] != InvalidValue.code[15];
    assert |InvalidComparison.code| != |InvalidField.code| && |InvalidComparison.code| != |InvalidValue.code|;
    assert |InvalidOperator.code| != |InvalidField.code| && |InvalidOperator.code| != |InvalidComparison.code|;
    assert |InvalidOperator.code| != |InvalidValue.code|;
  }

  /** The operators that may take an array of values (compared case-sensitively). */
  const ArrayOperators: seq<string> := ["in", "not in", "between"]

  /** validateDslQueryOperator: the tree operator must be "and" or "or". The list
      of valid operators it is handed is not consulted. */
  function ValidateDslQueryOperator(op: string, validOperators: seq<string>): (r: seq<Obstruction>)
    ensures r == [] <==> op == "and" || op == "or"
    ensures r != [] ==> r == [InvalidOperator]
  {
    if op in ["and", "or"] then [] else [InvalidOperator]
  }

  /** getValueObstructions: null, a string, a number or a boolean passes. */
  function ValueCheck(v: Json): (r: seq<Obstruction>)
    ensures r == [] <==> IsScalar(v)
    ensures r != [] ==> r == [InvalidValue]
  {
    if v != Null && !(v.Str? || v.Num? || v.Bool?) then [InvalidValue] else []
  }

  /** The number of elements that are not Values. */
  function NonScalars(items: seq<Json>): nat
  {
    if items == [] then 0 else (if IsScalar(items[0]) then 0 else 1) + NonScalars(items[1..])
  }

  /** The value check applied to each element of an array value, in order. */
  function ElementObstructions(items: seq<Json>): (r: seq<Obstruction>)
    ensures |r| == NonScalars(items)
    ensures |r| <= |items|
    ensures forall k | 0 <= k < |r| :: r[k] == InvalidValue
    ensures r == [] <==> forall k | 0 <= k < |items| :: IsScalar(items[k])
  {
    if items == [] then []
    else
      var rest := ElementObstructions(items[1..]);
      assert forall k | 1 <= k < |items| :: items[k] == items[1..][k - 1];
      ValueCheck(items[0]) + rest
  }

  lemma {:induction false} ElementObstructionsAppend(a: seq<Json>, b: seq<Json>)
    ensures ElementObstructions(a + b) == ElementObstructions(a) + ElementObstructions(b)
  {
    if a == [] {
      assert a + b == b;
    } else {
      assert (a + b)[0] == a[0] && (a + b)[1..] == a[1..] + b;
      ElementObstructionsAppend(a[1..], b);
    }
  }

  lemma ElementObstructionsSnoc(a: seq<Json>, x: Json)
    ensures ElementObstructions(a + [x]) == ElementObstructions(a) + ValueCheck(x)
  {
    ElementObstructionsAppend(a, [x]);
    assert [x][1..] == [];
    assert ElementObstructions([x]) == ValueCheck(x) + ElementObstructions([]);
  }

  lemma ElementObstructionsPrefix(items: seq<Json>, j: nat)
    requires j < |items|
    ensures ElementObstructions(items[..j + 1]) == ElementObstructions(items[..j]) + ValueCheck(items[j])
  {
    assert items[..j + 1] == items[..j] + [items[j]];
    ElementObstructionsSnoc(items[..j], items[j]);
  }

  /** The value part of a leaf's check: an empty array, or an array under an
      operator other than in / not in / between, is one obstruction; otherwise
      each element that is not a Value is one. */
  function ValueObstructions(l: Leaf): (r: seq<Obstruction>)
    ensures forall k | 0 <= k < |r| :: r[k] == InvalidValue
    ensures r == [] <==> IsLeafValue(l.val) && (l.val.Arr? ==> |l.val.items| > 0 && l.op in ArrayOperators)
    ensures l.val.Arr? && (|l.val.items| == 0 || l.op !in ArrayOperators) ==> |r| == 1
    ensures l.val.Arr? ==> |r| <= |l.val.items| || |r| == 1
    ensures !l.val.Arr? ==> |r| <= 1
  {
    match l.val
    case Arr(items) =>
      if |items| == 0 then [InvalidValue]
      else if l.op !in ArrayOperators then [InvalidValue]
      else ElementObstructions(items)
    case _ => ValueCheck(l.val)
  }

  /** Whether the leaf's field may be used: no field specs, or the field is one of them. */
  predicate KnownField(l: Leaf, spec: DomainSpec)
  {
    spec.fieldSpecs.None? || l.field in spec.fieldSpecs.value
  }

  /** The operators a leaf may use: its field's own list when that is non-empty,
      else the defaults. */
  function AllowedOperators(l: Leaf, spec: DomainSpec): seq<string>
  {
    match spec.fieldSpecs
    case Some(fs) => if l.field in fs && |fs[l.field]| > 0 then fs[l.field] else spec.defaults
    case None => spec.defaults
  }

  /** The operator equals one of the allowed operators, ignoring (ASCII) case. */
  predicate OperatorAllowed(l: Leaf, spec: DomainSpec)
  {
    var ops := AllowedOperators(l, spec);
    exists k | 0 <= k < |ops| :: Lower(ops[k]) == Lower(l.op)
  }

  /** The field and operator part of a leaf's check: an unknown field is one
      obstruction and skips the operator check; otherwise an operator outside the
      allowed set is one. */
  function FieldObstructions(l: Leaf, spec: DomainSpec): (r: seq<Obstruction>)
    ensures r == [InvalidField] <==> !KnownField(l, spec)
    ensures r == [InvalidComparison] <==> KnownField(l, spec) && !OperatorAllowed(l, spec)
    ensures r == [] <==> KnownField(l, spec) && OperatorAllowed(l, spec)
  {
    ObstructionCodesDistinct();
    var checkOperator := spec.fieldSpecs.None? || l.field in spec.fieldSpecs.value;
    var operatorSet :=
      if spec.fieldSpecs.Some? && l.field in spec.fieldSpecs.value && |spec.fieldSpecs.value[l.field]| > 0
      then spec.fieldSpecs.value[l.field] else spec.defaults;
    assert operatorSet == AllowedOperators(l, spec);
    InLowerAll(Lower(l.op), operatorSet);
    if !checkOperator then [InvalidField]
    else if Lower(l.op) !in LowerAll(operatorSet) then [InvalidComparison]
    else []
  }

  /** The obstructions of one leaf, in the order the source pushes them: the
      field check, the operator check (skipped for an unknown field), then the
      value check. */
  function LeafObstructions(l: Leaf, spec: DomainSpec): (r: seq<Obstruction>)
    ensures (InvalidField in r) <==> !KnownField(l, spec)
    ensures !KnownField(l, spec) ==> r[0] == InvalidField && InvalidComparison !in r
    ensures (InvalidComparison in r) <==> KnownField(l, spec) && !OperatorAllowed(l, spec)
    ensures r == [] <==> KnownField(l, spec) && OperatorAllowed(l, spec) && ValueObstructions(l) == []
    ensures r == [] ==> IsLeafValue(l.val)
  {
    var f := FieldObstructions(l, spec);
    var v := ValueObstructions(l);
    ObstructionCodesDistinct();
    assert InvalidField !in v && InvalidComparison !in v;
    f + v
  }

  /** The value walk of validateDslQueryValue as a specification: every leaf's
      obstructions, depth first and left to right. */
  function NodesObstructions(nodes: seq<Node>, spec: DomainSpec): seq<Obstruction>
    decreases nodes
  {
    if nodes == [] then [] else NodeObstructions(nodes[0], spec) + NodesObstructions(nodes[1..], spec)
  }

  function NodeObstructions(n: Node, spec: DomainSpec): seq<Obstruction>
    decreases n
  {
    match n
    case LeafNode(l) => LeafObstructions(l, spec)
    case TreeNode(t) => NodesObstructions(t.v, spec)
  }

  lemma {:induction false} NodesObstructionsAppend(a: seq<Node>, b: seq<Node>, spec: DomainSpec)
    ensures NodesObstructions(a + b, spec) == NodesObstructions(a, spec) + NodesObstructions(b, spec)
  {
    if a == [] {
      assert a + b == b;
    } else {
      assert (a + b)[0] == a[0] && (a + b)[1..] == a[1..] + b;
      NodesObstructionsAppend(a[1..], b, spec);
    }
  }

  lemma NodesObstructionsStep(nodes: seq<Node>, i: nat, spec: DomainSpec)
    requires i < |nodes|
    ensures NodesObstructions(nodes[..i + 1], spec) == NodesObstructions(nodes[..i], spec) + NodeObstructions(nodes[i], spec)
  {
    assert nodes[..i + 1] == nodes[..i] + [nodes[i]];
    NodesObstructionsAppend(nodes[..i], [nodes[i]], spec);
    assert [nodes[i]][1..] == [];
  }

  /** The obstructions of a list of leaves, one leaf after another. */
  function LeafListObstructions(leaves: seq<Leaf>, spec: DomainSpec): seq<Obstruction>
  {
    if leaves == [] then [] else LeafObstructions(leaves[0], spec) + LeafListObstructions(leaves[1..], spec)
  }

  lemma {:induction false} LeafListObstructionsAppend(a: seq<Leaf>, b: seq<Leaf>, spec: DomainSpec)
    ensures LeafListObstructions(a + b, spec) == LeafListObstructions(a, spec) + LeafListObstructions(b, spec)
  {
    if a == [] {
      assert a + b == b;
    } else {
      assert (a + b)[0] == a[0] && (a + b)[1..] == a[1..] + b;
      LeafListObstructionsAppend(a[1..], b, spec);
    }
  }

  /** The walk visits the leaves in depth-first, left-to-right order: its result
      is the leaves' obstructions concatenated in that order, whatever the nesting. */
  lemma {:induction false} ObstructionsFollowLeaves(nodes: seq<Node>, spec: DomainSpec)
    ensures NodesObstructions(nodes, spec) == LeafListObstructions(Leaves(nodes), spec)
    decreases nodes, 0
  {
    if nodes != [] {
      ObstructionsFollowLeaves(nodes[1..], spec);
      NodeObstructionsFollowLeaves(nodes[0], spec);
      LeafListObstructionsAppend(NodeLeaves(nodes[0]), Leaves(nodes[1..]), spec);
    }
  }

  lemma {:induction false} NodeObstructionsFollowLeaves(n: Node, spec: DomainSpec)
    ensures NodeObstructions(n, spec) == LeafListObstructions(NodeLeaves(n), spec)
    decreases n, 1
  {
    match n
    case LeafNode(l) =>
      assert [l][1..] == [];
    case TreeNode(t) =>
      ObstructionsFollowLeaves(t.v, spec);
  }

  lemma {:induction false} LeafListObstructionsEmpty(leaves: seq<Leaf>, spec: DomainSpec)
    ensures LeafListObstructions(leaves, spec) == [] <==> forall l | l in leaves :: LeafObstructions(l, spec) == []
  {
    if leaves != [] {
      LeafListObstructionsEmpty(leaves[1..], spec);
      var first := LeafObstructions(leaves[0], spec);
      var rest := LeafListObstructions(leaves[1..], spec);
      assert LeafListObstructions(leaves, spec) == first + rest;
      assert first + rest == [] <==> first == [] && rest == [];
      assert forall l | l in leaves :: l == leaves[0] || l in leaves[1..];
    }
  }

  /** A tree has no obstruction exactly when none of its leaves, at any depth,
      has one; every leaf of such a tree holds a Value or an array of Values. */
  lemma NoObstructionsIffCleanLeaves(nodes: seq<Node>, spec: DomainSpec)
    ensures NodesObstructions(nodes, spec) == [] <==> forall l | l in Leaves(nodes) :: LeafObstructions(l, spec) == []
    ensures NodesObstructions(nodes, spec) == [] ==> forall l | l in Leaves(nodes) :: IsLeafValue(l.val)
  {
    ObstructionsFollowLeaves(nodes, spec);
    LeafListObstructionsEmpty(Leaves(nodes), spec);
  }

  /** validateDslQueryValue: walks the nodes in order, recursing into nested
      trees (an object with an own `v`) and checking each leaf's field, operator
      and value, and returns all obstructions found. */
  method ValidateDslQueryValue(val: seq<Node>, spec: DomainSpec) returns (o: seq<Obstruction>)
    ensures o == NodesObstructions(val, spec)
    decreases NodesSize(val)
  {
    o := [];
    if |val| == 0 {
      return;
    }
    for i := 0 to |val|
      invariant o == NodesObstructions(val[..i], spec)
    {
      NodesObstructionsStep(val, i, spec);
      var next := val[i];
      match next
      case TreeNode(t) =>
        NodeSizeBound(val, i);
        var sub := ValidateDslQueryValue(t.v, spec);
        o := o + sub;
      case LeafNode(l) =>
        var leafObstructions := ValidateLeaf(l, spec);
        o := o + leafObstructions;
    }
    assert val[..|val|] == val;
  }

  /** The leaf branch of validateDslQueryValue's loop: the field check sets the
      flags that decide whether, and against which set, the operator is
      checked; the value check follows. */
  method ValidateLeaf(l: Leaf, spec: DomainSpec) returns (o: seq<Obstruction>)
    ensures o == LeafObstructions(l, spec)
  {
    o := [];
    var checkOperator := true;
    var operatorSet := spec.defaults;
    if spec.fieldSpecs.Some? {
      var fs := spec.fieldSpecs.value;
      if l.field !in fs {
        o := o + [InvalidField];
        checkOperator := false;
      } else if |fs[l.field]| > 0 {
        operatorSet := fs[l.field];
      }
    }
    if checkOperator && Lower(l.op) !in LowerAll(operatorSet) {
      o := o + [InvalidComparison];
    }
    assert o == FieldObstructions(l, spec);
    var o1 := o;
    if l.val.Arr? {
      var items := l.val.items;
      if |items| == 0 {
        o := o + [InvalidValue];
      } else if l.op !in ArrayOperators {
        o := o + [InvalidValue];
      } else {
        var elements := CheckElements(items);
        o := o + elements;
      }
    } else {
      o := o + ValueCheck(l.val);
    }
    assert o == o1 + ValueObstructions(l);
  }

  /** The loop over an array value's elements, checking each in turn. */
  method CheckElements(items: seq<Json>) returns (o: seq<Obstruction>)
    ensures o == ElementObstructions(items)
  {
    o := [];
    for j := 0 to |items|
      invariant o == ElementObstructions(items[..j])
    {
      ElementObstructionsPrefix(items, j);
      o := o + ValueCheck(items[j]);
    }
    assert items[..|items|] == items;
  }

  /** The unknown-field branch as the source writes it: the message it builds
      reads `fieldSpecs.keys`, which is the entry of a field named "keys" (an
      array, whose join succeeds) or else undefined, whose join throws. */
  function LeafObstructionsAsWritten(l: Leaf, spec: DomainSpec): (r: Result<seq<Obstruction>>)
    ensures KnownField(l, spec) ==> r == Ok(LeafObstructions(l, spec))
    ensures !KnownField(l, spec) && "keys" !in spec.fieldSpecs.value ==> r == Err(TypeError)
  {
    if spec.fieldSpecs.Some? && l.field !in spec.fieldSpecs.value && "keys" !in spec.fieldSpecs.value
    then Err(TypeError)
    else Ok(LeafObstructions(l, spec))
  }

  /** With field specs {"name": []}, a leaf on field "age" should be reported as
      an unknown field, but the source throws a TypeError instead. */
  lemma UnknownFieldThrowsAsWritten()
    ensures var spec := DomainSpec(Some(map["name" := []]), ["="]);
            var l := Leaf("age", "=", Num(3.0));
            LeafObstructionsAsWritten(l, spec) == Err(TypeError)
            && LeafObstructions(l, spec) == [InvalidField]
  {
    var spec := DomainSpec(Some(map["name" := []]), ["="]);
    var l := Leaf("age", "=", Num(3.0));
    assert "age" != "name" && "keys" != "name";
    assert ValueObstructions(l) == [];
  }

  // ---------------------------------------------------------------------------
  // Field map
  // ---------------------------------------------------------------------------

  /** FieldMap: field names to the names to use instead. */
  type FieldMap = map<string, string>

  /** `map[field] || field`: the mapped name when it is a non-empty string. */
  function Rename(field: string, m: FieldMap): string
  {
    if field in m && m[field] != "" then m[field] else field
  }

  function RenameLeaf(l: Leaf, m: FieldMap): Leaf
  {
    Leaf(Rename(l.field, m), l.op, l.val)
  }

  /** applyFieldMap as a specification: the same tree with every leaf renamed. */
  function MappedTree(t: Tree, m: FieldMap): Tree
    decreases t
  {
    Tree(t.o, MappedNodes(t.v, m))
  }

  function MappedNodes(nodes: seq<Node>, m: FieldMap): (r: seq<Node>)
    ensures |r| == |nodes|
    decreases nodes
  {
    if nodes == [] then [] else [MappedNode(nodes[0], m)] + MappedNodes(nodes[1..], m)
  }

  function MappedNode(n: Node, m: FieldMap): Node
    decreases n
  {
    match n
    case LeafNode(l) => LeafNode(RenameLeaf(l, m))
    case TreeNode(t) => TreeNode(MappedTree(t, m))
  }

  lemma {:induction false} MappedNodesAppend(a: seq<Node>, b: seq<Node>, m: FieldMap)
    ensures MappedNodes(a + b, m) == MappedNodes(a, m) + MappedNodes(b, m)
  {
    if a == [] {
      assert a + b == b;
    } else {
      assert (a + b)[0] == a[0] && (a + b)[1..] == a[1..] + b;
      MappedNodesAppend(a[1..], b, m);
    }
  }

  /** The leaves of a tree, once mapped, are its leaves in the same order, each renamed. */
  lemma {:induction false} MappedLeaves(nodes: seq<Node>, m: FieldMap)
    ensures Leaves(MappedNodes(nodes, m)) == RenameLeaves(Leaves(nodes), m)
    decreases nodes, 0
  {
    if nodes != [] {
      MappedLeaves(nodes[1..], m);
      var mn := MappedNodes(nodes, m);
      assert mn[0] == MappedNode(nodes[0], m) && mn[1..] == MappedNodes(nodes[1..], m);
      MappedNodeLeaves(nodes[0], m);
      RenameLeavesAppend(NodeLeaves(nodes[0]), Leaves(nodes[1..]), m);
    }
  }

  lemma {:induction false} MappedNodeLeaves(n: Node, m: FieldMap)
    ensures NodeLeaves(MappedNode(n, m)) == RenameLeaves(NodeLeaves(n), m)
    decreases n, 1
  {
    if n.TreeNode? {
      MappedLeaves(n.tree.v, m);
    }
  }

  function RenameLeaves(leaves: seq<Leaf>, m: FieldMap): (r: seq<Leaf>)
    ensures |r| == |leaves|
  {
    seq(|leaves|, k requires 0 <= k < |leaves| => RenameLeaf(leaves[k], m))
  }

  lemma RenameLeavesAppend(a: seq<Leaf>, b: seq<Leaf>, m: FieldMap)
    ensures RenameLeaves(a + b, m) == RenameLeaves(a, m) + RenameLeaves(b, m)
  {
  }

  /** A tree with every field name blanked: what applyFieldMap must leave alone. */
  function ShapeTree(t: Tree): Tree
    decreases t
  {
    Tree(t.o, ShapeNodes(t.v))
  }

  function ShapeNodes(nodes: seq<Node>): seq<Node>
    decreases nodes
  {
    if nodes == [] then [] else [ShapeNode(nodes[0])] + ShapeNodes(nodes[1..])
  }

  function ShapeNode(n: Node): Node
    decreases n
  {
    match n
    case LeafNode(l) => LeafNode(Leaf("", l.op, l.val))
    case TreeNode(t) => TreeNode(ShapeTree(t))
  }

  /** applyFieldMap keeps the operators, the nesting, the order of the children
      and every leaf's operator and value: only field names change. */
  lemma {:induction false} MappedTreeKeepsShape(t: Tree, m: FieldMap)
    ensures ShapeTree(MappedTree(t, m)) == ShapeTree(t)
    decreases t, 1
  {
    MappedNodesKeepShape(t.v, m);
  }

  lemma {:induction false} MappedNodesKeepShape(nodes: seq<Node>, m: FieldMap)
    ensures ShapeNodes(MappedNodes(nodes, m)) == ShapeNodes(nodes)
    decreases nodes, 0
  {
    if nodes != [] {
      var mn := MappedNodes(nodes, m);
      assert mn[0] == MappedNode(nodes[0], m) && mn[1..] == MappedNodes(nodes[1..], m);
      MappedNodesKeepShape(nodes[1..], m);
      MappedNodeKeepsShape(nodes[0], m);
    }
  }

  lemma {:induction false} MappedNodeKeepsShape(n: Node, m: FieldMap)
    ensures ShapeNode(MappedNode(n, m)) == ShapeNode(n)
    decreases n, 2
  {
    if n.TreeNode? {
      MappedTreeKeepsShape(n.tree, m);
    }
  }

  /** A map that renames none of the tree's fields leaves the tree as it is. */
  lemma {:induction false} MappedTreeUnchanged(t: Tree, m: FieldMap)
    requires forall l | l in Leaves(t.v) :: Rename(l.field, m) == l.field
    ensures MappedTree(t, m) == t
    decreases t, 1
  {
    MappedNodesUnchanged(t.v, m);
  }

  lemma {:induction false} MappedNodesUnchanged(nodes: seq<Node>, m: FieldMap)
    requires forall l | l in Leaves(nodes) :: Rename(l.field, m) == l.field
    ensures MappedNodes(nodes, m) == nodes
    decreases nodes, 0
  {
    if nodes != [] {
      assert Leaves(nodes) == NodeLeaves(nodes[0]) + Leaves(nodes[1..]);
      MappedNodesUnchanged(nodes[1..], m);
      MappedNodeUnchanged(nodes[0], m);
      assert [nodes[0]] + nodes[1..] == nodes;
    }
  }

  lemma {:induction false} MappedNodeUnchanged(n: Node, m: FieldMap)
    requires forall l | l in NodeLeaves(n) :: Rename(l.field, m) == l.field
    ensures MappedNode(n, m) == n
    decreases n, 2
  {
    match n
    case LeafNode(l) =>
      assert l in NodeLeaves(n);
    case TreeNode(t) =>
      MappedTreeUnchanged(t, m);
  }

  /** The map that does what `m1` then `m2` do. */
  function Compose(m1: FieldMap, m2: FieldMap): (c: FieldMap)
    ensures forall f :: Rename(f, c) == Rename(Rename(f, m1), m2)
  {
    var c := map f | f in m1.Keys + m2.Keys :: Rename(Rename(f, m1), m2);
    assert forall f :: Rename(f, c) == Rename(Rename(f, m1), m2) by {
      forall f ensures Rename(f, c) == Rename(Rename(f, m1), m2) {
        if f !in m1 && f !in m2 {
          assert Rename(f, m1) == f;
        }
      }
    }
    c
  }

  /** Mapping twice is mapping once with the composed map. */
  lemma {:induction false} MappedTreeCompose(t: Tree, m1: FieldMap, m2: FieldMap)
    ensures MappedTree(MappedTree(t, m1), m2) == MappedTree(t, Compose(m1, m2))
    decreases t, 1
  {
    MappedNodesCompose(t.v, m1, m2);
  }

  lemma {:induction false} MappedNodesCompose(nodes: seq<Node>, m1: FieldMap, m2: FieldMap)
    ensures MappedNodes(MappedNodes(nodes, m1), m2) == MappedNodes(nodes, Compose(m1, m2))
    decreases nodes, 0
  {
    if nodes != [] {
      var a := MappedNodes(nodes, m1);
      assert a[0] == MappedNode(nodes[0], m1) && a[1..] == MappedNodes(nodes[1..], m1);
      MappedNodesCompose(nodes[1..], m1, m2);
      MappedNodeCompose(nodes[0], m1, m2);
    }
  }

  lemma {:induction false} MappedNodeCompose(n: Node, m1: FieldMap, m2: FieldMap)
    ensures MappedNode(MappedNode(n, m1), m2) == MappedNode(n, Compose(m1, m2))
    decreases n, 2
  {
    if n.TreeNode? {
      MappedTreeCompose(n.tree, m1, m2);
    }
  }

  /** Renaming keeps every leaf's operator and value, so it keeps LeafShaped. */
  lemma MappedKeepsShaped(nodes: seq<Node>, m: FieldMap)
    requires AllShaped(nodes)
    ensures AllShaped(MappedNodes(nodes, m))
  {
    MappedLeaves(nodes, m);
    var ls := Leaves(nodes);
    forall l | l in Leaves(MappedNodes(nodes, m)) ensures LeafShaped(l) {
      var k :| 0 <= k < |ls| && l == RenameLeaf(ls[k], m);
      assert ls[k] in ls;
    }
  }

  lemma {:induction false} ChildLeaves(nodes: seq<Node>, i: nat)
    requires i < |nodes|
    ensures forall l | l in NodeLeaves(nodes[i]) :: l in Leaves(nodes)
  {
    if i > 0 {
      ChildLeaves(nodes[1..], i - 1);
      assert nodes[1..][i - 1] == nodes[i];
    }
  }

  /** applyFieldMap: copies the tree, pushing each child renamed (a leaf) or
      mapped recursively (a nested tree). A child that isFilterLeaf rejects
      would be treated as a tree and throw, hence the requirement. */
  method ApplyFieldMap(f: Tree, m: FieldMap) returns (r: Tree)
    requires AllShaped(f.v)
    ensures r == MappedTree(f, m)
    decreases f
  {
    var v: seq<Node> := [];
    for i := 0 to |f.v|
      invariant v == MappedNodes(f.v[..i], m)
    {
      assert f.v[..i + 1] == f.v[..i] + [f.v[i]];
      MappedNodesAppend(f.v[..i], [f.v[i]], m);
      match f.v[i]
      case LeafNode(l) =>
        v := v + [LeafNode(Leaf(Rename(l.field, m), l.op, l.val))];
      case TreeNode(t) =>
        ChildLeaves(f.v, i);
        var sub := ApplyFieldMap(t, m);
        v := v + [TreeNode(sub)];
    }
    assert f.v[..|f.v|] == f.v;
    r := Tree(f.o, v);
  }

  // ---------------------------------------------------------------------------
  // Rendering to SQL
  // ---------------------------------------------------------------------------

  /** The field delimiter toSqlQuery uses by default. */
  const Backtick := "`"

  /** The placeholder list of an n-element array value. */
  function Placeholders(n: nat): (r: seq<string>)
    ensures |r| == n && forall k | 0 <= k < n :: r[k] == "?"
  {
    seq(n, _ => "?")
  }

  /** toSqlQuery as a specification: the quoted field, the operator, then one
      placeholder per bound value. */
  function SqlFragment(leaf: Leaf, delim: string): (r: Rendered)
    ensures leaf.val.Arr? && leaf.op == "between" ==> r.1 == [Index(leaf.val.items, 0), Index(leaf.val.items, 1)]
    ensures leaf.val.Arr? && leaf.op != "between" ==> r.1 == leaf.val.items
    ensures !leaf.val.Arr? ==> r.1 == [leaf.val]
    ensures |delim + leaf.field + delim + " " + leaf.op| <= |r.0|
    ensures r.0[..|delim + leaf.field + delim + " " + leaf.op|] == delim + leaf.field + delim + " " + leaf.op
  {
    var head := delim + leaf.field + delim + " " + leaf.op;
    match leaf.val
    case Arr(xs) =>
      if leaf.op == "between" then (head + " ? and ?", [Index(xs, 0), Index(xs, 1)])
      else (head + " (" + Join(Placeholders(|xs|), ", ") + ")", xs)
    case _ => (head + " ?", [leaf.val])
  }

  /** defaultTranslatorFunction: toSqlQuery with the backtick delimiter. */
  function DefaultTranslator(leaf: Leaf): Rendered
  {
    SqlFragment(leaf, Backtick)
  }

  lemma {:induction false} CountAllPlaceholders(n: nat)
    ensures CountAll(Placeholders(n), '?') == n
  {
    if n > 0 {
      assert Placeholders(n)[1..] == Placeholders(n - 1);
      CountAllPlaceholders(n - 1);
    }
  }

  lemma HeadHasNoPlaceholder(delim: string, field: string, op: string)
    requires '?' !in delim && '?' !in field && '?' !in op
    ensures Count(delim + field + delim + " " + op, '?') == 0
  {
    CountAbsent(delim, '?');
    CountAbsent(field, '?');
    CountAbsent(" ", '?');
    CountAbsent(op, '?');
    CountAppend(delim, field, '?');
    CountAppend(delim + field, delim, '?');
    CountAppend(delim + field + delim, " ", '?');
    CountAppend(delim + field + delim + " ", op, '?');
  }

  lemma ListPlaceholders(head: string, n: nat)
    requires Count(head, '?') == 0
    ensures Count(head + " (" + Join(Placeholders(n), ", ") + ")", '?') == n
  {
    var ph := Join(Placeholders(n), ", ");
    CountAbsent(", ", '?');
    CountJoin(Placeholders(n), ", ", '?');
    CountAllPlaceholders(n);
    CountAbsent(" (", '?');
    CountAbsent(")", '?');
    CountAppend(head, " (", '?');
    CountAppend(head + " (", ph, '?');
    CountAppend(head + " (" + ph, ")", '?');
  }

  /** The fragment holds exactly one `?` per bound value, provided the field, the
      operator and the delimiter contain none. */
  lemma SqlFragmentPlaceholders(leaf: Leaf, delim: string)
    requires '?' !in delim && '?' !in leaf.field && '?' !in leaf.op
    ensures Count(SqlFragment(leaf, delim).0, '?') == |SqlFragment(leaf, delim).1|
  {
    var head := delim + leaf.field + delim + " " + leaf.op;
    var r := SqlFragment(leaf, delim);
    HeadHasNoPlaceholder(delim, leaf.field, leaf.op);
    if leaf.val.Arr? && leaf.op == "between" {
      assert r.0 == head + " ? and ?";
      BetweenPlaceholders(head);
    } else if leaf.val.Arr? {
      assert r.0 == head + " (" + Join(Placeholders(|leaf.val.items|), ", ") + ")";
      ListPlaceholders(head, |leaf.val.items|);
    } else {
      assert r.0 == head + " ?";
      SinglePlaceholder(head);
    }
  }

  lemma SinglePlaceholder(head: string)
    requires Count(head, '?') == 0
    ensures Count(head + " ?", '?') == 1
  {
    CountAppend(head, " ?", '?');
    assert " ?"[1..] == "?" && "?"[1..] == "";
  }

  lemma BetweenPlaceholders(head: string)
    requires Count(head, '?') == 0
    ensures Count(head + " ? and ?", '?') == 2
  {
    CountAppend(head, " ? and ?", '?');
    CountAppend(" ?", " and ?", '?');
    CountAppend(" and", " ?", '?');
    assert " ? and ?" == " ?" + " and" + " ?";
    CountAbsent(" and", '?');
    assert " ?"[1..] == "?" && "?"[1..] == "";
  }

  /** toSqlQuery: builds the fragment and pushes the bound values as it goes. */
  method ToSqlQuery(leaf: Leaf, fieldDelimiter: string) returns (r: Rendered)
    ensures r == SqlFragment(leaf, fieldDelimiter)
  {
    var queryString := fieldDelimiter + leaf.field + fieldDelimiter + " " + leaf.op;
    var params: seq<Json> := [];
    var val := leaf.val;
    if val.Arr? {
      if leaf.op == "between" {
        queryString := queryString + " ? and ?";
        params := params + [Index(val.items, 0)];
        params := params + [Index(val.items, 1)];
        assert params == [Index(val.items, 0), Index(val.items, 1)];
      } else {
        var placeholders: seq<string> := [];
        for i := 0 to |val.items|
          invariant placeholders == Placeholders(i)
          invariant params == val.items[..i]
        {
          placeholders := placeholders + ["?"];
          params := params + [val.items[i]];
        }
        assert val.items[..|val.items|] == val.items;
        queryString := queryString + " (" + Join(placeholders, ", ") + ")";
      }
    } else {
      queryString := queryString + " ?";
      params := params + [val];
    }
    r := (queryString, params);
    assert r.1 == SqlFragment(leaf, fieldDelimiter).1;
    assert r.0 == SqlFragment(leaf, fieldDelimiter).0;
  }

  /** `${filter.o}` in a template: an absent operator prints as "undefined". */
  function OperatorText(o: Option<string>): string
  {
    match o
    case Some(s) => s
    case None => "undefined"
  }

  /** filterToString as a specification: the children's fragments joined with
      the tree's operator, in parentheses when asked (nested trees always are),
      and their bound values concatenated in child order, which makes them the
      bound values of every leaf in depth-first, left-to-right order. */
  function Render(t: Tree, tr: Translator, parens: bool): (r: Rendered)
    ensures t.v == [] && !parens ==> r == ("", [])
    ensures parens ==> |r.0| >= 2 && r.0[0] == '(' && r.0[|r.0| - 1] == ')'
    ensures r.1 == LeafParams(Leaves(t.v), tr)
    decreases t, 2
  {
    var (parts, params) := RenderNodes(t.v, tr);
    var s := Join(parts, " " + OperatorText(t.o) + " ");
    (if parens then "(" + s + ")" else s, params)
  }

  function RenderNodes(nodes: seq<Node>, tr: Translator): (r: (seq<string>, seq<Json>))
    ensures |r.0| == |nodes|
    ensures r.1 == LeafParams(Leaves(nodes), tr)
    decreases nodes, 0
  {
    if nodes == [] then ([], [])
    else
      var first := RenderNode(nodes[0], tr);
      var rest := RenderNodes(nodes[1..], tr);
      LeafParamsAppend(NodeLeaves(nodes[0]), Leaves(nodes[1..]), tr);
      ([first.0] + rest.0, first.1 + rest.1)
  }

  function RenderNode(n: Node, tr: Translator): (r: Rendered)
    ensures r.1 == LeafParams(NodeLeaves(n), tr)
    decreases n, 1
  {
    match n
    case LeafNode(l) =>
      assert [l][1..] == [];
      tr(l)
    case TreeNode(t) => Render(t, tr, true)
  }

  lemma RenderNodesAppend(a: seq<Node>, b: seq<Node>, tr: Translator)
    ensures RenderNodes(a + b, tr).0 == RenderNodes(a, tr).0 + RenderNodes(b, tr).0
    ensures RenderNodes(a + b, tr).1 == RenderNodes(a, tr).1 + RenderNodes(b, tr).1
  {
    RenderPartsAppend(a, b, tr);
    LeavesAppend(a, b);
    LeafParamsAppend(Leaves(a), Leaves(b), tr);
  }

  /** Rendering one more child appends its fragment and its bound values. */
  lemma RenderNodesSnoc(nodes: seq<Node>, i: nat, tr: Translator)
    requires i < |nodes|
    ensures RenderNodes(nodes[..i + 1], tr).0 == RenderNodes(nodes[..i], tr).0 + [RenderNode(nodes[i], tr).0]
    ensures RenderNodes(nodes[..i + 1], tr).1 == RenderNodes(nodes[..i], tr).1 + RenderNode(nodes[i], tr).1
  {
    assert nodes[..i + 1] == nodes[..i] + [nodes[i]];
    RenderNodesAppend(nodes[..i], [nodes[i]], tr);
    assert [nodes[i]][1..] == [];
  }

  lemma {:induction false} RenderPartsAppend(a: seq<Node>, b: seq<Node>, tr: Translator)
    ensures RenderNodes(a + b, tr).0 == RenderNodes(a, tr).0 + RenderNodes(b, tr).0
  {
    if a == [] {
      assert a + b == b;
    } else {
      assert (a + b)[0] == a[0] && (a + b)[1..] == a[1..] + b;
      RenderPartsAppend(a[1..], b, tr);
    }
  }

  /** The bound values of every leaf, one leaf after another. */
  function LeafParams(leaves: seq<Leaf>, tr: Translator): seq<Json>
  {
    if leaves == [] then [] else tr(leaves[0]).1 + LeafParams(leaves[1..], tr)
  }

  lemma {:induction false} LeafParamsAppend(a: seq<Leaf>, b: seq<Leaf>, tr: Translator)
    ensures LeafParams(a + b, tr) == LeafParams(a, tr) + LeafParams(b, tr)
  {
    if a == [] {
      assert a + b == b;
    } else {
      assert (a + b)[0] == a[0] && (a + b)[1..] == a[1..] + b;
      LeafParamsAppend(a[1..], b, tr);
    }
  }

  /** The operator texts of every tree nested in the nodes. */
  function NestedOperators(nodes: seq<Node>): seq<string>
    decreases nodes
  {
    if nodes == [] then [] else NodeOperators(nodes[0]) + NestedOperators(nodes[1..])
  }

  function NodeOperators(n: Node): seq<string>
    decreases n
  {
    match n
    case LeafNode(_) => []
    case TreeNode(t) => [OperatorText(t.o)] + NestedOperators(t.v)
  }

  /** What the placeholder count needs of a tree: every leaf's fragment holds
      one `?` per value, and no operator text holds a `?`. */
  predicate CountsAgree(nodes: seq<Node>, tr: Translator)
  {
    (forall l | l in Leaves(nodes) :: Count(tr(l).0, '?') == |tr(l).1|)
    && (forall s | s in NestedOperators(nodes) :: '?' !in s)
  }

  /** The rendered string holds exactly one `?` per bound value, in any tree
      whose leaves each render that way and whose operators hold no `?`. */
  lemma {:induction false} RenderPlaceholders(t: Tree, tr: Translator, parens: bool)
    requires '?' !in OperatorText(t.o)
    requires CountsAgree(t.v, tr)
    ensures Count(Render(t, tr, parens).0, '?') == |Render(t, tr, parens).1|
    decreases t, 2
  {
    var (parts, params) := RenderNodes(t.v, tr);
    var sep := " " + OperatorText(t.o) + " ";
    assert Count(sep, '?') == 0 by {
      assert '?' !in sep;
      CountAbsent(sep, '?');
    }
    CountJoin(parts, sep, '?');
    RenderNodesPlaceholders(t.v, tr);
    var s := Join(parts, sep);
    if parens {
      CountAppend("(" + s, ")", '?');
      CountAppend("(", s, '?');
    }
  }

  lemma {:induction false} RenderNodesPlaceholders(nodes: seq<Node>, tr: Translator)
    requires CountsAgree(nodes, tr)
    ensures CountAll(RenderNodes(nodes, tr).0, '?') == |RenderNodes(nodes, tr).1|
    decreases nodes, 0
  {
    if nodes != [] {
      assert Leaves(nodes) == NodeLeaves(nodes[0]) + Leaves(nodes[1..]);
      assert NestedOperators(nodes) == NodeOperators(nodes[0]) + NestedOperators(nodes[1..]);
      RenderNodesPlaceholders(nodes[1..], tr);
      RenderNodePlaceholders(nodes[0], tr);
      var r := RenderNodes(nodes, tr);
      assert r.0[1..] == RenderNodes(nodes[1..], tr).0;
    }
  }

  lemma {:induction false} RenderNodePlaceholders(n: Node, tr: Translator)
    requires forall l | l in NodeLeaves(n) :: Count(tr(l).0, '?') == |tr(l).1|
    requires forall s | s in NodeOperators(n) :: '?' !in s
    ensures Count(RenderNode(n, tr).0, '?') == |RenderNode(n, tr).1|
    decreases n, 1
  {
    match n
    case LeafNode(l) =>
      assert l in NodeLeaves(n);
    case TreeNode(t) =>
      assert OperatorText(t.o) in NodeOperators(n);
      RenderPlaceholders(t, tr, true);
  }

  /** With the default translator, the rendered string of a tree holds exactly
      one `?` per bound value, provided no field, comparison operator or tree
      operator in it holds a `?`. */
  lemma DefaultRenderPlaceholders(t: Tree, parens: bool)
    requires '?' !in OperatorText(t.o)
    requires forall s | s in NestedOperators(t.v) :: '?' !in s
    requires forall l | l in Leaves(t.v) :: '?' !in l.field && '?' !in l.op
    ensures Count(Render(t, DefaultTranslator, parens).0, '?') == |Render(t, DefaultTranslator, parens).1|
  {
    forall l | l in Leaves(t.v)
      ensures Count(DefaultTranslator(l).0, '?') == |DefaultTranslator(l).1|
    {
      SqlFragmentPlaceholders(l, Backtick);
    }
    RenderPlaceholders(t, DefaultTranslator, parens);
  }

  /** The translator to use: the one given, or the default. */
  function TranslatorOrDefault(translator: Option<Translator>): Translator
  {
    if translator.None? then DefaultTranslator else translator.value
  }

  /** filterToString: renders each child in turn (a leaf with the translator, a
      nested tree recursively and in parentheses), collecting the fragments and
      concatenating the bound values, then joins the fragments with the operator.
      A child that isFilterLeaf rejects would be rendered as a tree, hence the
      requirement. */
  method FilterToString(filter: Tree, translator: Option<Translator>, parens: bool) returns (r: Rendered)
    requires AllShaped(filter.v)
    ensures r == Render(filter, TranslatorOrDefault(translator), parens)
    decreases filter
  {
    var tr := TranslatorOrDefault(translator);
    var parts: seq<string> := [];
    var params: seq<Json> := [];
    for i := 0 to |filter.v|
      invariant parts == RenderNodes(filter.v[..i], tr).0
      invariant params == RenderNodes(filter.v[..i], tr).1
    {
      RenderNodesSnoc(filter.v, i, tr);
      var el := filter.v[i];
      var result: Rendered;
      match el {
        case LeafNode(l) =>
          result := tr(l);
        case TreeNode(t) =>
          ChildLeaves(filter.v, i);
          result := FilterToString(t, Some(tr), true);
      }
      assert result == RenderNode(el, tr);
      parts := parts + [result.0];
      params := params + result.1;
    }
    assert filter.v[..|filter.v|] == filter.v;
    var queryString := Join(parts, " " + OperatorText(filter.o) + " ");
    if parens {
      queryString := "(" + queryString + ")";
    }
    r := (queryString, params);
  }

  // ---------------------------------------------------------------------------
  // parseFilter
  // ---------------------------------------------------------------------------

  /** dslQueryDefaultComparisonOperators */
  const DefaultComparisonOperators: seq<string> :=
    ["=", "!=", ">", "<", ">=", "<=", "regexp", "not regexp", "like", "not like",
     "in", "not in", "between", "is", "is not"]

  /** The spec parseFilter checks: the caller's, with the default comparison
      operators added when it has none. */
  function WithDefaults(spec: seq<Prop>): (r: seq<Prop>)
    ensures HasKey(r, DefaultsKey)
    ensures HasKey(spec, DefaultsKey) ==> r == spec
    ensures !HasKey(spec, DefaultsKey) ==> Get(r, DefaultsKey) == Arr(EncodeStrings(DefaultComparisonOperators))
    ensures forall k | k != DefaultsKey :: HasKey(r, k) == HasKey(spec, k) && Get(r, k) == Get(spec, k)
  {
    if HasKey(spec, DefaultsKey) then spec
    else SetProp(spec, DefaultsKey, Arr(EncodeStrings(DefaultComparisonOperators)))
  }

  /** The domain spec parseFilter works with, or the failure its check raises. */
  function PrepareSpec(spec: seq<Prop>): Result<DomainSpec>
  {
    var s := WithDefaults(spec);
    match IsDomainSpec(Obj(s))
    case Fail(e) => Err(e)
    case Pass => DecodeSpec(s)
  }

  /** Since the defaults are filled in first, parseFilter never reports a spec
      without default comparison operators, and a spec without them and without
      field specs gets exactly the built-in list. */
  lemma PrepareSpecFillsDefaults(spec: seq<Prop>)
    ensures PrepareSpec(spec) != Err(BadDomainSpec("MissingComparisonOperators"))
    ensures spec == [] ==> PrepareSpec(spec) == Ok(DomainSpec(None, DefaultComparisonOperators))
  {
    var s := WithDefaults(spec);
    if spec == [] {
      assert s == [Prop(DefaultsKey, Arr(EncodeStrings(DefaultComparisonOperators)))];
      assert FieldSpecsKey != DefaultsKey by { assert FieldSpecsKey[0] != DefaultsKey[0]; }
      assert IsDomainSpec(Obj(s)) == Pass;
      DecodeEncodeStrings(DefaultComparisonOperators);
    }
  }

  /** The normalised `o` and raw children of the input, per the duck tests: a
      leaf and a node array are wrapped under "and"; a tree keeps its children
      and has its operator defaulted to "and" when falsy, then lower-cased. */
  function Normalise(q: Json): (r: Result<(string, seq<Json>)>)
    ensures r.Ok? && IsFilterLeaf(q) ==> r.value == ("and", [q])
    ensures r.Ok? && !IsFilterLeaf(q) && q.Arr? ==> r.value == ("and", q.items)
    ensures r.Ok? && q.Obj? ==> Get(q.props, "v").Arr? && r.value.1 == Get(q.props, "v").items
  {
    if IsFilterLeaf(q) then Ok(("and", [q]))
    else match IsFilterNode(q, false)
      case Err(e) => Err(e)
      case Ok(isNode) =>
        if isNode then Ok(("and", q.items))
        else match IsFilterData(q, false)
          case Err(e) => Err(e)
          case Ok(isData) =>
            if !isData then Err(BadFilter("MalformedInputObject", []))
            else
              var o := Get(q.props, "o");
              var v := Get(q.props, "v").items;
              if !Truthy(o) then Ok(("and", v))
              else if o.Str? then Ok((Lower(o.s), v))
              else Err(TypeError)  // toLowerCase is not a function
  }

  /** The raw children as typed nodes. A null child makes the validator's
      hasOwnProperty call throw; other shapes are outside the model. */
  function DecodeNodes(items: seq<Json>): (r: Result<seq<Node>>)
    ensures r.Ok? ==> |r.value| == |items|
    decreases items
  {
    if items == [] then Ok([])
    else
      match DecodeNode(items[0])
      case Err(e) => Err(e)
      case Ok(n) =>
        match DecodeNodes(items[1..])
        case Err(e) => Err(e)
        case Ok(rest) => Ok([n] + rest)
  }

  /** One raw child: an object with an own `v` array is a nested tree (its `o`
      absent or a string, and not normalised); an array of a field and an
      operator, with or without a value, is a leaf (a missing value is
      undefined, which the value check rejects). */
  function DecodeNode(j: Json): Result<Node>
    decreases j
  {
    match j
    case Null => Err(TypeError)
    case Obj(props) =>
      var i := KeyIndex(props, "v");
      if i == |props| then Err(OutsideModel)
      else
        var v := props[i].val;
        var o := Get(props, "o");
        if !v.Arr? || !(o.Undefined? || o.Str?) then Err(OutsideModel)
        else
          (match DecodeNodes(v.items)
           case Err(e) => Err(e)
           case Ok(children) => Ok(TreeNode(Tree(if o.Str? then Some(o.s) else None, children))))
    case Arr(items) =>
      if (|items| == 2 || |items| == 3) && items[0].Str? && items[1].Str?
      then Ok(LeafNode(Leaf(items[0].s, items[1].s, Index(items, 2))))
      else Err(OutsideModel)
    case _ => Err(OutsideModel)
  }

  /** How the validation loop reads a child that is not a nested tree:
      `next[0]`, `next[1]` and `next[2]` of whatever the child is. A string is
      read character by character, and an array's entries after the third are
      never looked at. None where the reading does not give two strings. */
  function ChildReadAsLeaf(j: Json): (r: Option<Leaf>)
    ensures j.Arr? && DecodeNode(j).Ok? ==> r == Some(DecodeNode(j).value.leaf)
    ensures j.Str? ==> (r.Some? <==> |j.s| >= 2)
  {
    match j
    case Str(s) =>
      if |s| >= 2 then Some(Leaf([s[0]], [s[1]], if |s| > 2 then Str([s[2]]) else Undefined)) else None
    case Arr(items) =>
      if |items| >= 2 && items[0].Str? && items[1].Str? then Some(Leaf(items[0].s, items[1].s, Index(items, 2)))
      else None
    case _ => None
  }

  /** isFilterNode tests only the first element of a node array, so the source
      validates `[["a","=",1],"b=c"]` and `[["a","=",1],["b","=",2,"x"]]` with
      no obstruction under the default spec and returns them. The model refuses
      both children. */
  lemma ShallowNodeTestAsWritten()
    ensures var first := EncodeLeaf(Leaf("a", "=", Num(1.0)));
            var text := Str("b=c");
            var long := Arr([Str("b"), Str("="), Num(2.0), Str("x")]);
            var spec := DomainSpec(None, DefaultComparisonOperators);
            IsFilterNode(Arr([first, text]), false) == Ok(true)
            && IsFilterNode(Arr([first, long]), false) == Ok(true)
            && ChildReadAsLeaf(text) == Some(Leaf("b", "=", Str("c")))
            && ChildReadAsLeaf(long) == Some(Leaf("b", "=", Num(2.0)))
            && LeafObstructions(Leaf("b", "=", Str("c")), spec) == []
            && LeafObstructions(Leaf("b", "=", Num(2.0)), spec) == []
            && DecodeNode(text) == Err(OutsideModel)
            && DecodeNode(long) == Err(OutsideModel)
  {
    var spec := DomainSpec(None, DefaultComparisonOperators);
    var text, long := Leaf("b", "=", Str("c")), Leaf("b", "=", Num(2.0));
    assert AllowedOperators(text, spec)[0] == AllowedOperators(long, spec)[0] == "=";
    assert Lower(AllowedOperators(text, spec)[0]) == Lower(text.op);
    assert Lower(AllowedOperators(long, spec)[0]) == Lower(long.op);
    EncodedLeafIsFilterLeaf(Leaf("a", "=", Num(1.0)));
  }

  /** Decoding undoes encoding, at every depth. */
  lemma {:induction false} DecodeEncodeNodes(nodes: seq<Node>)
    ensures DecodeNodes(EncodeNodes(nodes)) == Ok(nodes)
    decreases nodes, 0
  {
    if nodes != [] {
      var e := EncodeNodes(nodes);
      assert e[0] == EncodeNode(nodes[0]) && e[1..] == EncodeNodes(nodes[1..]);
      DecodeEncodeNode(nodes[0]);
      DecodeEncodeNodes(nodes[1..]);
      assert [nodes[0]] + nodes[1..] == nodes;
    }
  }

  lemma {:induction false} DecodeEncodeNode(n: Node)
    ensures DecodeNode(EncodeNode(n)) == Ok(n)
    decreases n, 1
  {
    match n
    case LeafNode(l) =>
    case TreeNode(t) =>
      var props := EncodeTree(t).props;
      assert KeyIndex(props, "v") == |props| - 1;
      assert "o" != "v";
      DecodeEncodeNodes(t.v);
  }

  /** The root operator parseFilter gives a tree object: "and" when its `o` is
      absent or empty, else `o` lower-cased. */
  function RootOperator(o: Option<string>): string
  {
    match o
    case None => "and"
    case Some(s) => if s == "" then "and" else Lower(s)
  }

  /** The last step of parseFilter: the root operator check and the value walk,
      failing with every obstruction at once. */
  function Checked(t: Tree, ds: DomainSpec): (r: Result<Option<Tree>>)
    requires t.o.Some?
    ensures r.Ok? ==> r == Ok(Some(t))
    ensures r.Ok? <==> Accepted(t, ds)
    ensures r.Err? ==> r.error.BadFilter? && r.error.subcode == "Obstructions" && r.error.obstructions != []
  {
    var o := ValidateDslQueryOperator(t.o.value, ["and", "or"]) + NodesObstructions(t.v, ds);
    NoObstructionsIffCleanLeaves(t.v, ds);
    if |o| > 0 then Err(BadFilter("Obstructions", o)) else Ok(Some(t))
  }

  /** What a parsed filter guarantees: an and/or root, no obstruction anywhere,
      and a Value at every leaf. */
  predicate Accepted(t: Tree, ds: DomainSpec)
  {
    (t.o == Some("and") || t.o == Some("or"))
    && NodesObstructions(t.v, ds) == []
    && forall l | l in Leaves(t.v) :: IsLeafValue(l.val)
  }

  /** parseFilter after the blank check and the spec: the JSON text or value,
      its normalised root and children, and the check. */
  function ParseValue(parsed: Option<Json>, ds: DomainSpec): (r: Result<Option<Tree>>)
    ensures r.Ok? ==> r.value.Some? && Accepted(r.value.value, ds)
  {
    if parsed.None? then Err(BadFilter("InvalidJson", []))
    else
      var raw := parsed.value;
      if !(raw.Arr? || raw.Obj?) then Err(BadFilter("NonObject", []))
      else
        match Normalise(raw)
        case Err(e) => Err(e)
        case Ok((o, children)) =>
          match DecodeNodes(children)
          case Err(e) => Err(e)
          case Ok(nodes) => Checked(Tree(Some(o), nodes), ds)
  }

  /** parseFilter. `jsonParse` stands for JSON.parse on a string input: None
      when the text is not valid JSON. */
  function ParseFilter(q: Json, spec: seq<Prop>, jsonParse: string -> Option<Json>): (r: Result<Option<Tree>>)
    ensures r == Ok(None) <==> q.Null? || q.Undefined? || (q.Str? && IsBlank(q.s))
    ensures r.Ok? && r.value.Some? ==>
              var t := r.value.value;
              (t.o == Some("and") || t.o == Some("or"))
              && PrepareSpec(spec).Ok? && NodesObstructions(t.v, PrepareSpec(spec).value) == []
              && forall l | l in Leaves(t.v) :: IsLeafValue(l.val)
  {
    if q.Null? || q.Undefined? || (q.Str? && Trim(q.s) == "") then Ok(None)
    else
      match PrepareSpec(spec)
      case Err(e) => Err(e)
      case Ok(ds) => ParseValue(if q.Str? then jsonParse(Trim(q.s)) else Some(q), ds)
  }

  /** A tree-shaped object comes back as the same tree with its root operator
      normalised, or fails with exactly the obstructions of that tree. */
  lemma ParseEncodedTree(t: Tree, spec: seq<Prop>, jsonParse: string -> Option<Json>)
    requires AllShaped(t.v)
    requires PrepareSpec(spec).Ok?
    ensures ParseFilter(EncodeTree(t), spec, jsonParse)
            == Checked(Tree(Some(RootOperator(t.o)), t.v), PrepareSpec(spec).value)
  {
    var q := EncodeTree(t);
    var ds := PrepareSpec(spec).value;
    EncodedTreeIsFilterData(t);
    DecodeEncodeNodes(t.v);
    assert KeyIndex(q.props, "v") == |q.props| - 1;
    assert "o" != "v";
    assert Normalise(q) == Ok((RootOperator(t.o), EncodeNodes(t.v)));
    assert ParseValue(Some(q), ds) == Checked(Tree(Some(RootOperator(t.o)), t.v), ds);
    assert ParseFilter(q, spec, jsonParse) == ParseValue(Some(q), ds);
  }

  /** A single leaf comes back wrapped as `{o: "and", v: [leaf]}`. */
  lemma ParseEncodedLeaf(l: Leaf, spec: seq<Prop>, jsonParse: string -> Option<Json>)
    requires LeafShaped(l)
    requires PrepareSpec(spec).Ok?
    ensures ParseFilter(EncodeLeaf(l), spec, jsonParse)
            == Checked(Tree(Some("and"), [LeafNode(l)]), PrepareSpec(spec).value)
  {
    assert EncodeNodes([LeafNode(l)]) == [EncodeLeaf(l)];
    DecodeEncodeNodes([LeafNode(l)]);
  }

  /** An array of nodes comes back wrapped as `{o: "and", v: nodes}`. */
  lemma ParseEncodedNodes(nodes: seq<Node>, spec: seq<Prop>, jsonParse: string -> Option<Json>)
    requires AllShaped(nodes)
    requires PrepareSpec(spec).Ok?
    ensures ParseFilter(Arr(EncodeNodes(nodes)), spec, jsonParse)
            == Checked(Tree(Some("and"), nodes), PrepareSpec(spec).value)
  {
    var q := Arr(EncodeNodes(nodes));
    EncodedNodesAreFilterNode(nodes);
    DecodeEncodeNodes(nodes);
    if nodes != [] {
      assert q.items[0] == EncodeNode(nodes[0]);
      assert !q.items[0].Str?;
    }
    assert !IsFilterLeaf(q);
  }

  /** A value that is an object or an array but none of leaf, node array and
      tree is rejected as malformed, once the spec is valid. */
  lemma ParseMalformed(q: Json, spec: seq<Prop>, jsonParse: string -> Option<Json>)
    requires q.Arr? || q.Obj?
    requires !IsFilterLeaf(q) && IsFilterNode(q, false) == Ok(false) && IsFilterData(q, false) == Ok(false)
    requires PrepareSpec(spec).Ok?
    ensures ParseFilter(q, spec, jsonParse) == Err(BadFilter("MalformedInputObject", []))
  {
  }

  /** A string input is trimmed and parsed as JSON first; text that does not
      parse fails with InvalidJson. */
  lemma ParseString(s: string, spec: seq<Prop>, jsonParse: string -> Option<Json>)
    requires !IsBlank(s)
    requires PrepareSpec(spec).Ok?
    ensures jsonParse(Trim(s)).None? ==> ParseFilter(Str(s), spec, jsonParse) == Err(BadFilter("InvalidJson", []))
    ensures jsonParse(Trim(s)).Some? && (jsonParse(Trim(s)).value.Arr? || jsonParse(Trim(s)).value.Obj?) ==>
              ParseFilter(Str(s), spec, jsonParse) == ParseFilter(jsonParse(Trim(s)).value, spec, jsonParse)
  {
  }
}
