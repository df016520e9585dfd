/**
 * The configuration tree (lib/config/config.js): every parsed directive
 * becomes a `ConfigNode` holding its name, argument strings, position and
 * depth, and the nodes answer lookups by name, by a name test or by an
 * arbitrary predicate.
 *
 * The source links each node to its parent. Here a node is a value and its
 * ancestry is a `chain`: the node, then its parent, then the parent's parent,
 * up to the root, each one among the children of the next.
 */
module ConfigTree {
  import opened Common
  import opened ConfigLexer
  import opened Parser

  /** A typed argument value, as the schema's converters produce them. */
  datatype Value =
    | BoolV(b: bool)
    | IntV(i: int)
    | NaN
    | FloatV(text: string)
    | StringV(s: string)
    | ListV(items: seq<Value>)

  /**
   * `ConfigNode`: `values` is None (`null`) until the schema has been
   * applied; the root has no name and no position.
   */
  datatype Node = Node(name: Option<string>, args: seq<string>, position: Option<Position>, depth: nat,
                       values: Option<map<string, Value>>, children: seq<Node>)

  // ---------------------------------------------------------------------
  // Building the tree
  // ---------------------------------------------------------------------

  /** `directiveToConfig`: the node of a directive at the given depth, its children one deeper. */
  function ToConfig(d: Directive, depth: nat): (r: Node)
    ensures r.name == d.Name() && r.args == d.ArgValues() && r.depth == depth && r.values.None?
    ensures r.position.Some? <==> d.nameToken.Some?
    ensures |r.children| == |d.children|
    decreases d, 1
  {
    Node(d.Name(), d.ArgValues(), if d.nameToken.Some? then Some(d.nameToken.value.position) else None,
         depth, None, ToConfigs(d.children, depth + 1))
  }

  function ToConfigs(ds: seq<Directive>, depth: nat): (rs: seq<Node>)
    ensures |rs| == |ds|
    decreases ds, 0
  {
    if ds == [] then [] else [ToConfig(ds[0], depth)] + ToConfigs(ds[1..], depth)
  }

  /** `parse`: the root node of the parsed data, or the parser's error with its position. */
  function ParseConfig(data: string, file: string): (r: Try<Node>)
    ensures r.Return? <==> Parse(data, file).Return?
    ensures r.Return? ==> r.value == ToConfig(Parse(data, file).value, 0) && r.value.name.None?
  {
    var root := Parse(data, file);
    if root.Return? then Return(ToConfig(root.value, 0)) else Throw(root.error)
  }

  /** Every node of `n` sits one level below its parent, `n` itself at `depth`. */
  ghost predicate DepthsFrom(n: Node, depth: nat)
    decreases n, 1
  {
    n.depth == depth && DepthsAll(n.children, depth + 1)
  }

  ghost predicate DepthsAll(ns: seq<Node>, depth: nat)
    decreases ns, 0
  {
    forall i :: 0 <= i < |ns| ==> DepthsFrom(ns[i], depth)
  }

  /** The depth of the root is 0 and each child's is its parent's plus one. */
  lemma {:induction false} ToConfigDepths(d: Directive, depth: nat)
    ensures DepthsFrom(ToConfig(d, depth), depth)
    decreases d, 1
  {
    ToConfigsDepths(d.children, depth + 1);
  }

  lemma {:induction false} ToConfigsDepths(ds: seq<Directive>, depth: nat)
    ensures DepthsAll(ToConfigs(ds, depth), depth)
    decreases ds, 0
  {
    if ds != [] {
      ToConfigDepths(ds[0], depth);
      ToConfigsDepths(ds[1..], depth);
      var rs := ToConfigs(ds, depth);
      assert rs == [ToConfig(ds[0], depth)] + ToConfigs(ds[1..], depth);
      forall i | 0 <= i < |rs|
        ensures DepthsFrom(rs[i], depth)
      {
        if i > 0 {
          assert rs[i] == ToConfigs(ds[1..], depth)[i - 1];
        }
      }
    }
  }

  /** Each directive becomes one node, in source order, with its name, arguments and position. */
  lemma {:induction false} ToConfigsInOrder(ds: seq<Directive>, depth: nat)
    ensures forall i :: 0 <= i < |ds| ==> ToConfigs(ds, depth)[i] == ToConfig(ds[i], depth)
    decreases ds
  {
    if ds != [] {
      ToConfigsInOrder(ds[1..], depth);
      var rs := ToConfigs(ds, depth);
      forall i | 0 <= i < |ds|
        ensures rs[i] == ToConfig(ds[i], depth)
      {
        if i > 0 {
          assert rs[i] == ToConfigs(ds[1..], depth)[i - 1];
        }
      }
    }
  }

  lemma ToConfigFields(d: Directive, depth: nat)
    ensures ToConfig(d, depth).name == d.Name() && ToConfig(d, depth).args == d.ArgValues()
    ensures d.nameToken.Some? ==> ToConfig(d, depth).position == Some(d.nameToken.value.position)
    ensures d.nameToken.None? ==> ToConfig(d, depth).position.None?
    ensures ToConfig(d, depth).values.None? && |ToConfig(d, depth).children| == |d.children|
  {
  }

  // ---------------------------------------------------------------------
  // Criteria
  // ---------------------------------------------------------------------

  /**
   * What a lookup may be given: `true` or `false`, a name, a function of the
   * node, a regular expression (its `test`, applied to the name), or a value
   * of any other type (named by its `typeof`).
   */
  datatype Criteria =
    | Always(b: bool)
    | Named(s: string)
    | Satisfies(f: Node -> bool)
    | NameMatches(test: string -> bool)
    | Unsupported(typeName: string)

  /** What `RegExp.prototype.test` sees of a name: the root's `null` reads as "null". */
  function NameText(name: Option<string>): string
  {
    if name.Some? then name.value else "null"
  }

  /** `$makePredicate` */
  function MakePredicate(c: Criteria): (r: Result<Node -> bool>)
    ensures r.Err? <==> c.Unsupported?
    ensures r.Err? ==> r.error == "Unexpected criteria type " + c.typeName
    ensures c.Always? ==> forall n :: r.value(n) == c.b
    ensures c.Named? ==> forall n :: r.value(n) <==> n.name == Some(c.s)
    ensures c.Satisfies? ==> forall n :: r.value(n) == c.f(n)
    ensures c.NameMatches? ==> forall n :: r.value(n) == c.test(NameText(n.name))
  {
    match c
    case Always(b) => Ok((n: Node) => b)
    case Named(s) => Ok((n: Node) => n.name == Some(s))
    case Satisfies(f) => Ok(f)
    case NameMatches(test) => Ok((n: Node) => test(NameText(n.name)))
    case Unsupported(t) => Err("Unexpected criteria type " + t)
  }

  /** The root is never matched by a name. */
  lemma RootHasNoName(root: Node, s: string)
    requires root.name.None?
    ensures !MakePredicate(Named(s)).value(root)
    ensures MakePredicate(NameMatches((t: string) => t == "null")).value(root)
  {
  }

  // ---------------------------------------------------------------------
  // Lookups
  // ---------------------------------------------------------------------

  /** `_.find`: the index of the first element satisfying `pred`. */
  function FirstMatch(s: seq<Node>, pred: Node -> bool): (r: Option<nat>)
    ensures r.Some? ==> r.value < |s| && pred(s[r.value]) && forall j :: 0 <= j < r.value ==> !pred(s[j])
    ensures r.None? ==> forall j :: 0 <= j < |s| ==> !pred(s[j])
  {
    if s == [] then None
    else if pred(s[0]) then Some(0)
    else
      var k := FirstMatch(s[1..], pred);
      if k.Some? then Some(k.value + 1) else None
  }

  ghost predicate HasMatch(s: seq<Node>, pred: Node -> bool)
  {
    exists j :: 0 <= j < |s| && pred(s[j])
  }

  /** The node and how many of its ancestors a lookup may visit. */
  function Reach(chain: seq<Node>, inherit: bool): nat
  {
    if inherit then |chain| else if chain == [] then 0 else 1
  }

  /**
   * `getOne` once the predicate is made: the first matching child of the
   * node, else, when inheriting, the parent's answer.
   */
  function FindUp(chain: seq<Node>, pred: Node -> bool, inherit: bool): (r: Option<Node>)
    requires chain != []
    ensures r.Some? ==> pred(r.value)
    ensures !inherit ==> (r.Some? <==> exists j :: 0 <= j < |chain[0].children| && pred(chain[0].children[j]))
    decreases |chain|
  {
    var i := FirstMatch(chain[0].children, pred);
    if i.Some? then Some(chain[0].children[i.value])
    else if inherit && |chain| > 1 then FindUp(chain[1..], pred, true)
    else None
  }

  /**
   * A lookup finds a node exactly when some level within reach has a
   * matching child, and then it is the first match of the nearest such level.
   */
  lemma {:induction false} FindUpNearest(chain: seq<Node>, pred: Node -> bool, inherit: bool)
    requires chain != []
    ensures FindUp(chain, pred, inherit).Some? <==> exists k :: 0 <= k < Reach(chain, inherit) && HasMatch(chain[k].children, pred)
    ensures FindUp(chain, pred, inherit).Some? ==>
      exists k :: 0 <= k < Reach(chain, inherit) && FirstMatch(chain[k].children, pred).Some?
        && FindUp(chain, pred, inherit).value == chain[k].children[FirstMatch(chain[k].children, pred).value]
        && forall j :: 0 <= j < k ==> !HasMatch(chain[j].children, pred)
    decreases |chain|
  {
    var i := FirstMatch(chain[0].children, pred);
    if i.Some? {
      assert HasMatch(chain[0].children, pred);
    } else if inherit && |chain| > 1 {
      var up := chain[1..];
      FindUpNearest(up, pred, true);
      assert !HasMatch(chain[0].children, pred);
      if FindUp(up, pred, true).Some? {
        var k :| 0 <= k < |up| && FirstMatch(up[k].children, pred).Some?
          && FindUp(up, pred, true).value == up[k].children[FirstMatch(up[k].children, pred).value]
          && forall j :: 0 <= j < k ==> !HasMatch(up[j].children, pred);
        assert chain[k + 1] == up[k];
        forall j | 0 <= j < k + 1
          ensures !HasMatch(chain[j].children, pred)
        {
          if j > 0 {
            assert chain[j] == up[j - 1];
          }
        }
      } else {
        forall k | 0 <= k < |chain|
          ensures !HasMatch(chain[k].children, pred)
        {
          if k > 0 {
            assert chain[k] == up[k - 1];
          }
        }
      }
    } else {
      assert !HasMatch(chain[0].children, pred);
    }
  }

  /** `getOne(criteria, inherit)` on the first node of `chain`; `inherit` is `true` when omitted. */
  function GetOne(chain: seq<Node>, c: Criteria, inherit: bool): (r: Result<Option<Node>>)
    requires chain != []
    ensures r.Err? <==> c.Unsupported?
    ensures r.Ok? ==> r.value == FindUp(chain, MakePredicate(c).value, inherit)
  {
    var pred := MakePredicate(c);
    if pred.Err? then Err(pred.error) else Ok(FindUp(chain, pred.value, inherit))
  }

  /** `getValues`: the values of the node found, or an empty map when there is none or it has none. */
  function GetValues(chain: seq<Node>, c: Criteria, inherit: bool): (r: Result<map<string, Value>>)
    requires chain != []
    ensures r.Err? <==> c.Unsupported?
    ensures r.Ok? && r.value != map[] ==>
      GetOne(chain, c, inherit).value.Some? && GetOne(chain, c, inherit).value.value.values == Some(r.value)
    ensures r.Ok? && (GetOne(chain, c, inherit).value.None? || GetOne(chain, c, inherit).value.value.values.None?) ==> r.value == map[]
  {
    var node := GetOne(chain, c, inherit);
    if node.Err? then Err(node.error)
    else if node.value.Some? && node.value.value.values.Some? then Ok(node.value.value.values.value)
    else Ok(map[])
  }

  /**
   * `getValue`: the first argument of the node found, or None where the
   * source returns the caller's default (nothing found, or no arguments).
   */
  function GetValue(chain: seq<Node>, c: Criteria, inherit: bool): (r: Result<Option<string>>)
    requires chain != []
    ensures r.Err? <==> c.Unsupported?
    ensures r.Ok? ==> (r.value.Some? <==> GetOne(chain, c, inherit).value.Some? && GetOne(chain, c, inherit).value.value.args != [])
    ensures r.Ok? && r.value.Some? ==> r.value.value == GetOne(chain, c, inherit).value.value.args[0]
  {
    var node := GetOne(chain, c, inherit);
    if node.Err? then Err(node.error)
    else if node.value.None? then Ok(None)
    else if |node.value.value.args| < 1 then Ok(None)
    else Ok(Some(node.value.value.args[0]))
  }

  /** `_.filter` */
  function Filter(s: seq<Node>, pred: Node -> bool): (r: seq<Node>)
    ensures |r| <= |s|
    ensures forall x :: x in r <==> x in s && pred(x)
  {
    if s == [] then [] else (if pred(s[0]) then [s[0]] else []) + Filter(s[1..], pred)
  }

  /** Filtering keeps the order: it distributes over concatenation, and keeps all when all match. */
  lemma {:induction false} FilterAppend(s: seq<Node>, t: seq<Node>, pred: Node -> bool)
    ensures Filter(s + t, pred) == Filter(s, pred) + Filter(t, pred)
  {
    if s == [] {
      assert s + t == t;
    } else {
      assert (s + t)[1..] == s[1..] + t;
      FilterAppend(s[1..], t, pred);
    }
  }

  lemma {:induction false} FilterAll(s: seq<Node>, pred: Node -> bool)
    requires forall x :: x in s ==> pred(x)
    ensures Filter(s, pred) == s
  {
    if s != [] {
      FilterAll(s[1..], pred);
    }
  }

  /** `getAll`: the direct children that match, in order. */
  function GetAll(n: Node, c: Criteria): (r: Result<seq<Node>>)
    ensures r.Err? <==> c.Unsupported?
    ensures r.Ok? ==> forall x :: x in r.value <==> x in n.children && MakePredicate(c).value(x)
    ensures r.Ok? ==> r.value == Filter(n.children, MakePredicate(c).value)
  {
    var pred := MakePredicate(c);
    if pred.Err? then Err(pred.error) else Ok(Filter(n.children, pred.value))
  }

  // ---------------------------------------------------------------------
  // Search
  // ---------------------------------------------------------------------

  /** `search` once the predicate is made: matching descendants depth first, and the node itself when `includeSelf`. */
  function SearchFrom(n: Node, pred: Node -> bool, includeSelf: bool, postOrder: bool): (r: seq<Node>)
    ensures includeSelf && pred(n) ==> n in r
    ensures !includeSelf && n.children == [] ==> r == []
    decreases n, 1
  {
    (if includeSelf && !postOrder && pred(n) then [n] else [])
    + SearchAll(n.children, pred, postOrder)
    + (if includeSelf && postOrder && pred(n) then [n] else [])
  }

  function SearchAll(ns: seq<Node>, pred: Node -> bool, postOrder: bool): (r: seq<Node>)
    decreases ns, 0
  {
    if ns == [] then [] else SearchFrom(ns[0], pred, true, postOrder) + SearchAll(ns[1..], pred, postOrder)
  }

  /** `search(criteria, includeSelf, postOrder)` */
  function Search(n: Node, c: Criteria, includeSelf: bool, postOrder: bool): (r: Result<seq<Node>>)
    ensures r.Err? <==> c.Unsupported?
    ensures r.Ok? ==> r.value == SearchFrom(n, MakePredicate(c).value, includeSelf, postOrder)
  {
    var pred := MakePredicate(c);
    if pred.Err? then Err(pred.error) else Ok(SearchFrom(n, pred.value, includeSelf, postOrder))
  }

  /** The nodes of a tree, each before its descendants. */
  function Preorder(n: Node): seq<Node>
    decreases n, 1
  {
    [n] + PreorderAll(n.children)
  }

  function PreorderAll(ns: seq<Node>): seq<Node>
    decreases ns, 0
  {
    if ns == [] then [] else Preorder(ns[0]) + PreorderAll(ns[1..])
  }

  /** The nodes of a tree, each after its descendants. */
  function Postorder(n: Node): seq<Node>
    decreases n, 1
  {
    PostorderAll(n.children) + [n]
  }

  function PostorderAll(ns: seq<Node>): seq<Node>
    decreases ns, 0
  {
    if ns == [] then [] else Postorder(ns[0]) + PostorderAll(ns[1..])
  }

  /** The search is the matching nodes of the tree in pre-order, the node itself only when included. */
  lemma {:induction false} SearchIsPreorder(n: Node, pred: Node -> bool)
    ensures SearchFrom(n, pred, true, false) == Filter(Preorder(n), pred)
    ensures SearchFrom(n, pred, false, false) == Filter(PreorderAll(n.children), pred)
    decreases n, 1
  {
    SearchAllIsPreorder(n.children, pred);
    FilterAppend([n], PreorderAll(n.children), pred);
    assert SearchFrom(n, pred, false, false) == SearchAll(n.children, pred, false);
    assert SearchFrom(n, pred, true, false) == (if pred(n) then [n] else []) + SearchAll(n.children, pred, false);
  }

  lemma {:induction false} SearchAllIsPreorder(ns: seq<Node>, pred: Node -> bool)
    ensures SearchAll(ns, pred, false) == Filter(PreorderAll(ns), pred)
    decreases ns, 0
  {
    if ns != [] {
      SearchIsPreorder(ns[0], pred);
      SearchAllIsPreorder(ns[1..], pred);
      FilterAppend(Preorder(ns[0]), PreorderAll(ns[1..]), pred);
    }
  }

  /** With `postOrder`, the matching nodes in post-order. */
  lemma {:induction false} SearchIsPostorder(n: Node, pred: Node -> bool)
    ensures SearchFrom(n, pred, true, true) == Filter(Postorder(n), pred)
    ensures SearchFrom(n, pred, false, true) == Filter(PostorderAll(n.children), pred)
    decreases n, 1
  {
    SearchAllIsPostorder(n.children, pred);
    FilterAppend(PostorderAll(n.children), [n], pred);
    assert SearchFrom(n, pred, false, true) == SearchAll(n.children, pred, true);
    assert SearchFrom(n, pred, true, true) == SearchAll(n.children, pred, true) + (if pred(n) then [n] else []);
  }

  lemma {:induction false} SearchAllIsPostorder(ns: seq<Node>, pred: Node -> bool)
    ensures SearchAll(ns, pred, true) == Filter(PostorderAll(ns), pred)
    decreases ns, 0
  {
    if ns != [] {
      SearchIsPostorder(ns[0], pred);
      SearchAllIsPostorder(ns[1..], pred);
      FilterAppend(Postorder(ns[0]), PostorderAll(ns[1..]), pred);
    }
  }

  // ---------------------------------------------------------------------
  // The lookups of the tree test
  // ---------------------------------------------------------------------

  function Leaf(name: string, arg: string, line: nat, col: nat, offset: nat, depth: nat): Node
  {
    Node(Some(name), [arg], Some(Position(line, col, offset, "")), depth, None, [])
  }

  /**
   * The tree of
   *   runas nobody; max_workers 10; server { location / { runas jcheng; app_dir ~/myshinyapp; } }
   * written over six lines.
   */
  function SampleTree(): Node
  {
    var location := Node(Some("location"), ["/"], Some(Position(4, 3, 44, "")), 2, None,
      [Leaf("runas", "jcheng", 5, 5, 61, 3), Leaf("app_dir", "~/myshinyapp", 6, 5, 80, 3)]);
    var server := Node(Some("server"), [], Some(Position(3, 1, 33, "")), 1, None, [location]);
    Node(None, [], None, 0, None, [Leaf("runas", "nobody", 1, 1, 0, 1), Leaf("max_workers", "10", 2, 1, 14, 1), server])
  }

  /** `getValue('runas')` at the root, `getOne('runas').args`, and the lookups below `server` and from `search`. */
  lemma SampleLookups()
    ensures GetValue([SampleTree()], Named("runas"), true) == Ok(Some("nobody"))
    ensures GetOne([SampleTree()], Named("runas"), true).value.value.args == ["nobody"]
    ensures GetOne([SampleTree()], Named("server"), true) == Ok(Some(SampleTree().children[2]))
    ensures GetOne([SampleTree().children[2], SampleTree()], Named("location"), true) == Ok(Some(SampleTree().children[2].children[0]))
    ensures GetValue([SampleTree().children[2].children[0], SampleTree().children[2], SampleTree()], Named("runas"), true)
      == Ok(Some("jcheng"))
    ensures Search(SampleTree(), Named("location"), false, false) == Ok([SampleTree().children[2].children[0]])
  {
    var root := SampleTree();
    var server := root.children[2];
    var location := server.children[0];
    var isRunas := MakePredicate(Named("runas")).value;
    assert FirstMatch(root.children, isRunas) == Some(0);
    var isServer := MakePredicate(Named("server")).value;
    assert FirstMatch(root.children[1..], isServer) == Some(1);
    assert FirstMatch(root.children, isServer) == Some(2);
    var isLocation := MakePredicate(Named("location")).value;
    assert FirstMatch(server.children, isLocation) == Some(0);
    assert FirstMatch(location.children, isRunas) == Some(0);
    assert SearchAll(location.children[1..], isLocation, false) == [];
    assert SearchAll(location.children, isLocation, false) == [];
    assert SearchFrom(location, isLocation, true, false) == [location];
    assert SearchFrom(server, isLocation, true, false) == [location];
    assert SearchAll(root.children[3..], isLocation, false) == [];
    assert SearchAll(root.children[2..], isLocation, false) == [location];
    assert SearchFrom(root.children[1], isLocation, true, false) == [];
    assert SearchAll(root.children[1..], isLocation, false) == [location];
    assert SearchFrom(root.children[0], isLocation, true, false) == [];
    assert SearchAll(root.children, isLocation, false) == [location];
  }

  /** A lookup that does not inherit stops at the node; one that does reaches the root. */
  lemma SampleInheritance()
    ensures GetValue([SampleTree().children[2], SampleTree()], Named("runas"), true) == Ok(Some("nobody"))
    ensures GetValue([SampleTree().children[2], SampleTree()], Named("runas"), false) == Ok(None)
  {
    var root := SampleTree();
    var isRunas := MakePredicate(Named("runas")).value;
    assert FirstMatch(root.children[2].children[1..], isRunas) == None;
    assert FirstMatch(root.children[2].children, isRunas) == None;
    assert FirstMatch(root.children, isRunas) == Some(0);
    assert [root.children[2], root][1..] == [root];
    assert FindUp([root], isRunas, true) == Some(root.children[0]);
    assert FindUp([root.children[2], root], isRunas, true) == Some(root.children[0]);
    assert FindUp([root.children[2], root], isRunas, false) == None;
  }
}
