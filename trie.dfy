/**
 * The segment trie of router.go (`RouteNode`), shared by all methods. The
 * nodes live in an arena: a node's children are indices into the same
 * sequence, in insertion order, and node 0 is the root.
 */
module Trie {
  import opened Types
  import opened Paths

  /** A RouteNode. `handler` is the composed chain of the last route that
      ended here (None for Go's nil), `path` that route's normalised path. */
  datatype Node = Node(
    path: string,
    part: string,
    children: seq<nat>,
    handler: Option<Chain>,
    isParam: bool,
    isWild: bool)

  /** What `findChild` compares: (part, isParam, isWild). */
  datatype Key = Key(part: string, isParam: bool, isWild: bool)

  function KeyOf(n: Node): Key {
    Key(n.part, n.isParam, n.isWild)
  }

  const Root := Node("", "", [], None, false, false)

  /** How Add reads one segment: `:name` is a parameter called `name`, a
      segment starting with `*` is the wildcard, named "*" whatever follows. */
  function Classify(seg: string): (r: Key)
    ensures !(r.isParam && r.isWild)
    ensures r.isParam <==> seg != "" && seg[0] == ':'
    ensures r.isParam ==> seg == ":" + r.part
    ensures r.isWild <==> seg != "" && seg[0] == '*'
    ensures r.isWild ==> r.part == "*"
    ensures !r.isParam && !r.isWild ==> r.part == seg
  {
    if seg != "" && seg[0] == ':' then Key(seg[1..], true, false)
    else if seg != "" && seg[0] == '*' then Key("*", false, true)
    else Key(seg, false, false)
  }

  /** Child indices in range, and no two siblings with the same key. */
  predicate Siblings(nodes: seq<Node>, cs: seq<nat>) {
    && (forall j :: 0 <= j < |cs| ==> cs[j] < |nodes|)
    && (forall j, k :: 0 <= j < k < |cs| ==> KeyOf(nodes[cs[j]]) != KeyOf(nodes[cs[k]]))
  }

  predicate ValidNodes(nodes: seq<Node>) {
    |nodes| > 0 && forall i :: 0 <= i < |nodes| ==> Siblings(nodes, nodes[i].children)
  }

  /** Growth of the arena: nodes are only appended, no key changes, and
      children lists are only extended at the end. */
  predicate Extends(nodes: seq<Node>, nodes': seq<Node>) {
    |nodes'| >= |nodes| &&
    forall i :: 0 <= i < |nodes| ==>
      KeyOf(nodes'[i]) == KeyOf(nodes[i]) && nodes[i].children <= nodes'[i].children
  }

  /** `findChild`: the first child, in insertion order, with key k. */
  function ChildWith(nodes: seq<Node>, cs: seq<nat>, k: Key): (r: Option<nat>)
    requires forall j :: 0 <= j < |cs| ==> cs[j] < |nodes|
    ensures r.Some? ==> r.value < |nodes| && KeyOf(nodes[r.value]) == k
    ensures r.Some? ==> exists j :: 0 <= j < |cs| && cs[j] == r.value
    ensures r.None? <==> forall j :: 0 <= j < |cs| ==> KeyOf(nodes[cs[j]]) != k
  {
    if cs == [] then None
    else if KeyOf(nodes[cs[0]]) == k then Some(cs[0])
    else
      var r := ChildWith(nodes, cs[1..], k);
      assert forall j :: 1 <= j < |cs| ==> cs[j] == cs[1..][j - 1];
      r
  }

  /** One iteration of Add's trie loop before the last-segment check: reuse
      the child with the segment's key or append a fresh one. */
  function Descend(nodes: seq<Node>, cur: nat, seg: string): (r: (seq<Node>, nat))
    requires ValidNodes(nodes) && cur < |nodes|
    ensures ValidNodes(r.0) && Extends(nodes, r.0)
    ensures r.1 < |r.0| && KeyOf(r.0[r.1]) == Classify(seg)
    ensures exists j :: 0 <= j < |r.0[cur].children| && r.0[cur].children[j] == r.1
    ensures forall i :: 0 <= i < |nodes| ==> r.0[i].path == nodes[i].path && r.0[i].handler == nodes[i].handler
  {
    var k := Classify(seg);
    var existing := ChildWith(nodes, nodes[cur].children, k);
    if existing.Some? then (nodes, existing.value)
    else
      var r := Grow(nodes, cur, k);
      assert r[cur].children[|nodes[cur].children|] == |nodes|;
      (r, |nodes|)
  }

  /** Appending a fresh child with key k below node cur, when no child of
      cur has that key. */
  function Grow(nodes: seq<Node>, cur: nat, k: Key): (r: seq<Node>)
    requires ValidNodes(nodes) && cur < |nodes|
    requires forall j :: 0 <= j < |nodes[cur].children| ==> KeyOf(nodes[nodes[cur].children[j]]) != k
    ensures ValidNodes(r) && Extends(nodes, r) && |r| == |nodes| + 1
    ensures KeyOf(r[|nodes|]) == k && r[cur].children == nodes[cur].children + [|nodes|]
    ensures forall i :: 0 <= i < |nodes| ==> r[i].path == nodes[i].path && r[i].handler == nodes[i].handler
  {
    var leaf := Node("", k.part, [], None, k.isParam, k.isWild);
    var grown := nodes + [leaf];
    var r := grown[cur := grown[cur].(children := grown[cur].children + [|nodes|])];
    GrowSiblings(nodes, cur, k, r);
    r
  }

  lemma GrowSiblings(nodes: seq<Node>, cur: nat, k: Key, r: seq<Node>)
    requires ValidNodes(nodes) && cur < |nodes|
    requires forall j :: 0 <= j < |nodes[cur].children| ==> KeyOf(nodes[nodes[cur].children[j]]) != k
    requires var grown := nodes + [Node("", k.part, [], None, k.isParam, k.isWild)];
      r == grown[cur := grown[cur].(children := grown[cur].children + [|nodes|])]
    ensures forall i :: 0 <= i < |r| ==> Siblings(r, r[i].children)
  {
    assert |r| == |nodes| + 1;
    assert forall i :: 0 <= i < |nodes| ==> KeyOf(r[i]) == KeyOf(nodes[i]);
    forall i | 0 <= i < |r|
      ensures Siblings(r, r[i].children)
    {
      if i == cur {
        var cs := r[cur].children;
        assert cs == nodes[cur].children + [|nodes|];
        forall j, l | 0 <= j < l < |cs|
          ensures KeyOf(r[cs[j]]) != KeyOf(r[cs[l]])
        {
          assert cs[j] == nodes[cur].children[j];
          if l < |cs| - 1 {
            assert cs[l] == nodes[cur].children[l];
          }
        }
      } else if i < |nodes| {
        assert r[i].children == nodes[i].children;
        assert Siblings(nodes, nodes[i].children);
      }
    }
  }

  /** Setting `handler` and `path` on the node of the last segment. */
  function Mark(nodes: seq<Node>, c: nat, path: string, handler: Option<Chain>): (r: seq<Node>)
    requires ValidNodes(nodes) && c < |nodes|
    ensures ValidNodes(r) && Extends(nodes, r) && |r| == |nodes|
    ensures r[c].path == path && r[c].handler == handler
    ensures forall i :: 0 <= i < |r| && i != c ==> r[i] == nodes[i]
  {
    var r := nodes[c := nodes[c].(path := path, handler := handler)];
    assert forall i :: 0 <= i < |r| ==> r[i].children == nodes[i].children && KeyOf(r[i]) == KeyOf(nodes[i]);
    assert forall i :: 0 <= i < |r| ==> Siblings(r, r[i].children) by {
      forall i | 0 <= i < |r|
        ensures Siblings(r, r[i].children)
      {
        assert Siblings(nodes, nodes[i].children);
      }
    }
    r
  }

  /** Add's trie loop over the remaining segments, starting at node cur. */
  function Insert(nodes: seq<Node>, cur: nat, parts: seq<string>, path: string, handler: Option<Chain>): (r: seq<Node>)
    requires ValidNodes(nodes) && cur < |nodes|
    ensures ValidNodes(r) && Extends(nodes, r)
    decreases |parts|
  {
    if parts == [] then nodes
    else
      var (grown, c) := Descend(nodes, cur, parts[0]);
      var marked := if |parts| == 1 then Mark(grown, c, path, handler) else grown;
      var r := Insert(marked, c, parts[1..], path, handler);
      ExtendsTrans(nodes, grown, marked);
      ExtendsTrans(nodes, marked, r);
      r
  }

  lemma ExtendsTrans(a: seq<Node>, b: seq<Node>, c: seq<Node>)
    requires Extends(a, b) && Extends(b, c)
    ensures Extends(a, c)
  {
    forall i | 0 <= i < |a|
      ensures KeyOf(c[i]) == KeyOf(a[i]) && a[i].children <= c[i].children
    {
      assert KeyOf(b[i]) == KeyOf(a[i]) && a[i].children <= b[i].children;
    }
  }

  /** The node Insert stops at. */
  function InsertEnd(nodes: seq<Node>, cur: nat, parts: seq<string>, path: string, handler: Option<Chain>): (r: nat)
    requires ValidNodes(nodes) && cur < |nodes|
    ensures r < |Insert(nodes, cur, parts, path, handler)|
    decreases |parts|
  {
    if parts == [] then cur
    else
      var (grown, c) := Descend(nodes, cur, parts[0]);
      var marked := if |parts| == 1 then Mark(grown, c, path, handler) else grown;
      InsertEnd(marked, c, parts[1..], path, handler)
  }

  /** Of the nodes present before an insertion, only the one the last
      segment lands on changes its route data. */
  lemma {:induction false} InsertMarksEnd(nodes: seq<Node>, cur: nat, parts: seq<string>, path: string, handler: Option<Chain>)
    requires ValidNodes(nodes) && cur < |nodes| && parts != []
    ensures var r := Insert(nodes, cur, parts, path, handler);
      var e := InsertEnd(nodes, cur, parts, path, handler);
      r[e].path == path && r[e].handler == handler
    decreases |parts|
  {
    var (grown, c) := Descend(nodes, cur, parts[0]);
    if |parts| > 1 {
      InsertMarksEnd(grown, c, parts[1..], path, handler);
    }
  }

  /** Insert never touches the route data of a node it does not end at. */
  lemma {:induction false} InsertKeepsOthers(nodes: seq<Node>, cur: nat, parts: seq<string>, path: string, handler: Option<Chain>, i: nat)
    requires ValidNodes(nodes) && cur < |nodes| && i < |nodes|
    requires parts == [] || i != InsertEnd(nodes, cur, parts, path, handler)
    ensures var r := Insert(nodes, cur, parts, path, handler);
      r[i].path == nodes[i].path && r[i].handler == nodes[i].handler
    decreases |parts|
  {
    if parts != [] {
      var (grown, c) := Descend(nodes, cur, parts[0]);
      assert grown[i].path == nodes[i].path && grown[i].handler == nodes[i].handler;
      var marked := if |parts| == 1 then Mark(grown, c, path, handler) else grown;
      if |parts| == 1 {
        assert InsertEnd(nodes, cur, parts, path, handler) == c;
      } else {
        InsertKeepsOthers(grown, c, parts[1..], path, handler, i);
      }
    }
  }

  /** Result of a trie search: the node reached (None for nil) and the
      parameter map as the search leaves it. */
  datatype Hit = Hit(node: Option<nat>, params: map<string, string>)

  /** RouteNode.find from node n, threading the one shared params map. */
  function FindNodeF(nodes: seq<Node>, n: nat, parts: seq<string>, params: map<string, string>): (r: Hit)
    requires ValidNodes(nodes) && n < |nodes|
    ensures r.node.Some? ==> r.node.value < |nodes|
    decreases |parts|, 1, 0
  {
    if parts == [] then Hit(Some(n), params)
    else FindAmong(nodes, n, 0, parts[0], parts[1..], params)
  }

  /** The loop of RouteNode.find over the children of n, from the i-th. */
  function FindAmong(nodes: seq<Node>, n: nat, i: nat, part: string, rest: seq<string>, params: map<string, string>): (r: Hit)
    requires ValidNodes(nodes) && n < |nodes| && i <= |nodes[n].children|
    ensures r.node.Some? ==> r.node.value < |nodes|
    decreases |rest| + 1, 0, |nodes[n].children| - i
  {
    if i == |nodes[n].children| then Hit(None, params)
    else
      var c := nodes[n].children[i];
      assert Siblings(nodes, nodes[n].children);
      if nodes[c].isWild then Hit(Some(c), params["*" := Join([part] + rest)])
      else if nodes[c].isParam then
        var h := FindNodeF(nodes, c, rest, params[nodes[c].part := part]);
        if h.node.Some? then h else FindAmong(nodes, n, i + 1, part, rest, h.params)
      else if nodes[c].part == part then
        var h := FindNodeF(nodes, c, rest, params);
        if h.node.Some? then h else FindAmong(nodes, n, i + 1, part, rest, h.params)
      else FindAmong(nodes, n, i + 1, part, rest, params)
  }

  /** Reference matching, independent of order and of parameter binding:
      node e can be reached from n along the segments. A wildcard child
      swallows all remaining segments, a parameter child any one segment,
      a literal child only its own. */
  ghost predicate Reaches(nodes: seq<Node>, n: nat, parts: seq<string>, e: nat)
    requires ValidNodes(nodes) && n < |nodes|
    decreases |parts|, 1
  {
    if parts == [] then e == n
    else
      assert Siblings(nodes, nodes[n].children);
      exists j :: 0 <= j < |nodes[n].children| && ChildReaches(nodes, nodes[n].children[j], parts, e)
  }

  ghost predicate ChildReaches(nodes: seq<Node>, c: nat, parts: seq<string>, e: nat)
    requires ValidNodes(nodes) && c < |nodes| && parts != []
    decreases |parts|, 0
  {
    if nodes[c].isWild then e == c
    else (nodes[c].isParam || nodes[c].part == parts[0]) && Reaches(nodes, c, parts[1..], e)
  }

  /** The search is sound and complete for reachability: it returns a node
      exactly when some node is reachable, and the node it returns is. */
  lemma {:induction false} FindNodeReaches(nodes: seq<Node>, n: nat, parts: seq<string>, params: map<string, string>)
    requires ValidNodes(nodes) && n < |nodes|
    ensures var r := FindNodeF(nodes, n, parts, params);
      && (r.node.Some? ==> Reaches(nodes, n, parts, r.node.value))
      && (r.node.None? ==> forall e :: !Reaches(nodes, n, parts, e))
    decreases |parts|, 1, 0
  {
    if parts != [] {
      FindAmongReaches(nodes, n, 0, parts[0], parts[1..], params);
      assert parts == [parts[0]] + parts[1..];
    }
  }

  lemma {:induction false} FindAmongReaches(nodes: seq<Node>, n: nat, i: nat, part: string, rest: seq<string>, params: map<string, string>)
    requires ValidNodes(nodes) && n < |nodes| && i <= |nodes[n].children|
    ensures var cs := nodes[n].children;
      var parts := [part] + rest;
      var r := FindAmong(nodes, n, i, part, rest, params);
      && (r.node.Some? ==> exists j :: i <= j < |cs| && ChildReaches(nodes, cs[j], parts, r.node.value))
      && (r.node.None? ==> forall j, e :: i <= j < |cs| ==> !ChildReaches(nodes, cs[j], parts, e))
    decreases |rest| + 1, 0, |nodes[n].children| - i
  {
    var cs := nodes[n].children;
    var parts := [part] + rest;
    assert parts[0] == part && parts[1..] == rest;
    if i < |cs| {
      var c := cs[i];
      assert Siblings(nodes, cs);
      if nodes[c].isWild {
        assert ChildReaches(nodes, c, parts, c);
      } else if nodes[c].isParam {
        var ps1 := params[nodes[c].part := part];
        var h := FindNodeF(nodes, c, rest, ps1);
        FindNodeReaches(nodes, c, rest, ps1);
        if h.node.None? {
          FindAmongReaches(nodes, n, i + 1, part, rest, h.params);
        }
      } else if nodes[c].part == part {
        var h := FindNodeF(nodes, c, rest, params);
        FindNodeReaches(nodes, c, rest, params);
        if h.node.None? {
          FindAmongReaches(nodes, n, i + 1, part, rest, h.params);
        }
      } else {
        FindAmongReaches(nodes, n, i + 1, part, rest, params);
        assert forall e :: !ChildReaches(nodes, c, parts, e);
      }
    }
  }

  /** Bindings are never removed: a failed branch leaves its parameters in
      the map, and every key present before the search is still there. */
  lemma {:induction false} FindNodeKeepsKeys(nodes: seq<Node>, n: nat, parts: seq<string>, params: map<string, string>)
    requires ValidNodes(nodes) && n < |nodes|
    ensures params.Keys <= FindNodeF(nodes, n, parts, params).params.Keys
    decreases |parts|, 1, 0
  {
    if parts != [] {
      FindAmongKeepsKeys(nodes, n, 0, parts[0], parts[1..], params);
    }
  }

  lemma {:induction false} FindAmongKeepsKeys(nodes: seq<Node>, n: nat, i: nat, part: string, rest: seq<string>, params: map<string, string>)
    requires ValidNodes(nodes) && n < |nodes| && i <= |nodes[n].children|
    ensures params.Keys <= FindAmong(nodes, n, i, part, rest, params).params.Keys
    decreases |rest| + 1, 0, |nodes[n].children| - i
  {
    var cs := nodes[n].children;
    if i < |cs| {
      var c := cs[i];
      assert Siblings(nodes, cs);
      if nodes[c].isWild {
      } else if nodes[c].isParam {
        var ps1 := params[nodes[c].part := part];
        var h := FindNodeF(nodes, c, rest, ps1);
        FindNodeKeepsKeys(nodes, c, rest, ps1);
        if h.node.None? {
          FindAmongKeepsKeys(nodes, n, i + 1, part, rest, h.params);
        }
      } else if nodes[c].part == part {
        var h := FindNodeF(nodes, c, rest, params);
        FindNodeKeepsKeys(nodes, c, rest, params);
        if h.node.None? {
          FindAmongKeepsKeys(nodes, n, i + 1, part, rest, h.params);
        }
      } else {
        FindAmongKeepsKeys(nodes, n, i + 1, part, rest, params);
      }
    }
  }

  /** When the search ends on a wildcard node, "*" holds the segments that
      node swallowed, joined by "/": the suffix of the input from the depth
      at which the wildcard hangs. The first k segments lead to the node p
      whose child the wildcard is; segments k.. are bound. */
  lemma {:induction false} WildcardBindsSuffix(nodes: seq<Node>, n: nat, parts: seq<string>, params: map<string, string>)
    requires ValidNodes(nodes) && n < |nodes|
    requires var r := FindNodeF(nodes, n, parts, params); r.node.Some? && nodes[r.node.value].isWild
    requires parts != [] || !nodes[n].isWild
    ensures var r := FindNodeF(nodes, n, parts, params);
      "*" in r.params
      && exists k, p: nat :: 0 <= k < |parts| && p < |nodes| && Reaches(nodes, n, parts[..k], p)
           && r.node.value in nodes[p].children && r.params["*"] == Join(parts[k..])
    decreases |parts|, 1, 0
  {
    FindAmongBindsSuffix(nodes, n, 0, parts[0], parts[1..], params);
    assert [parts[0]] + parts[1..] == parts;
  }

  lemma {:induction false} FindAmongBindsSuffix(nodes: seq<Node>, n: nat, i: nat, part: string, rest: seq<string>, params: map<string, string>)
    requires ValidNodes(nodes) && n < |nodes| && i <= |nodes[n].children|
    requires var r := FindAmong(nodes, n, i, part, rest, params); r.node.Some? && nodes[r.node.value].isWild
    ensures var r := FindAmong(nodes, n, i, part, rest, params);
      var parts := [part] + rest;
      "*" in r.params
      && exists k, p: nat :: 0 <= k <= |rest| && p < |nodes| && Reaches(nodes, n, parts[..k], p)
           && r.node.value in nodes[p].children && r.params["*"] == Join(parts[k..])
    decreases |rest| + 1, 0, |nodes[n].children| - i
  {
    var cs := nodes[n].children;
    var parts := [part] + rest;
    assert parts[1..] == rest;
    var c := cs[i];
    assert Siblings(nodes, cs);
    if nodes[c].isWild {
      assert parts[0..] == parts && parts[..0] == [];
      assert Reaches(nodes, n, parts[..0], n);
    } else if nodes[c].isParam || nodes[c].part == part {
      var ps1 := if nodes[c].isParam then params[nodes[c].part := part] else params;
      var h := FindNodeF(nodes, c, rest, ps1);
      if h.node.Some? {
        assert rest != [];
        WildcardBindsSuffix(nodes, c, rest, ps1);
        var k, p: nat :| 0 <= k < |rest| && p < |nodes| && Reaches(nodes, c, rest[..k], p)
          && h.node.value in nodes[p].children && h.params["*"] == Join(rest[k..]);
        ReachThroughChild(nodes, n, i, part, rest, k, p);
      } else {
        FindAmongBindsSuffix(nodes, n, i + 1, part, rest, h.params);
      }
    } else {
      FindAmongBindsSuffix(nodes, n, i + 1, part, rest, params);
    }
  }

  /** Reaching p from the i-th child of n along the first k remaining
      segments is reaching p from n along the first k + 1 segments. */
  lemma ReachThroughChild(nodes: seq<Node>, n: nat, i: nat, part: string, rest: seq<string>, k: nat, p: nat)
    requires ValidNodes(nodes) && n < |nodes| && i < |nodes[n].children| && k <= |rest|
    requires var c := nodes[n].children[i];
      c < |nodes| && !nodes[c].isWild && (nodes[c].isParam || nodes[c].part == part) && Reaches(nodes, c, rest[..k], p)
    ensures Reaches(nodes, n, ([part] + rest)[..k + 1], p) && ([part] + rest)[k + 1..] == rest[k..]
  {
    var parts := [part] + rest;
    var pre := parts[..k + 1];
    assert pre[0] == part && pre[1..] == rest[..k];
    assert ChildReaches(nodes, nodes[n].children[i], pre, p);
  }

  /** Whether trying node nd can write key x: the wildcard writes "*", a
      parameter node writes its own name. */
  predicate WritesKey(nd: Node, x: string) {
    if nd.isWild then x == "*" else nd.isParam && nd.part == x
  }

  /** No node that the search from n over parts may try writes key x. */
  ghost predicate Unbound(nodes: seq<Node>, n: nat, parts: seq<string>, x: string)
    requires ValidNodes(nodes) && n < |nodes|
    decreases |parts|
  {
    parts == [] ||
    (assert Siblings(nodes, nodes[n].children);
     forall j :: 0 <= j < |nodes[n].children| ==>
       && !WritesKey(nodes[nodes[n].children[j]], x)
       && (!nodes[nodes[n].children[j]].isWild ==> Unbound(nodes, nodes[n].children[j], parts[1..], x)))
  }

  /** A key that no node on the way writes keeps its value. */
  lemma {:induction false} FindNodeKeepsUnbound(nodes: seq<Node>, n: nat, parts: seq<string>, params: map<string, string>, x: string)
    requires ValidNodes(nodes) && n < |nodes| && x in params && Unbound(nodes, n, parts, x)
    ensures var r := FindNodeF(nodes, n, parts, params); x in r.params && r.params[x] == params[x]
    decreases |parts|, 1, 0
  {
    if parts != [] {
      FindAmongKeepsUnbound(nodes, n, 0, parts[0], parts[1..], params, x);
    }
  }

  lemma {:induction false} FindAmongKeepsUnbound(nodes: seq<Node>, n: nat, i: nat, part: string, rest: seq<string>, params: map<string, string>, x: string)
    requires ValidNodes(nodes) && n < |nodes| && i <= |nodes[n].children|
    requires x in params && Unbound(nodes, n, [part] + rest, x)
    ensures var r := FindAmong(nodes, n, i, part, rest, params); x in r.params && r.params[x] == params[x]
    decreases |rest| + 1, 0, |nodes[n].children| - i
  {
    var cs := nodes[n].children;
    assert ([part] + rest)[1..] == rest;
    if i < |cs| {
      var c := cs[i];
      assert Siblings(nodes, cs);
      assert !WritesKey(nodes[c], x) && (!nodes[c].isWild ==> Unbound(nodes, c, rest, x));
      if nodes[c].isWild {
      } else if nodes[c].isParam {
        var ps1 := params[nodes[c].part := part];
        var h := FindNodeF(nodes, c, rest, ps1);
        FindNodeKeepsUnbound(nodes, c, rest, ps1, x);
        if h.node.None? {
          FindAmongKeepsUnbound(nodes, n, i + 1, part, rest, h.params, x);
        }
      } else if nodes[c].part == part {
        var h := FindNodeF(nodes, c, rest, params);
        FindNodeKeepsUnbound(nodes, c, rest, params, x);
        if h.node.None? {
          FindAmongKeepsUnbound(nodes, n, i + 1, part, rest, h.params, x);
        }
      } else {
        FindAmongKeepsUnbound(nodes, n, i + 1, part, rest, params, x);
      }
    }
  }

  /** A parameter child binds its name to the segment it consumed: when the
      search below it succeeds and nothing further down writes that name,
      the loop returns that result, with the name mapped to the segment. */
  lemma ParamBindsSegment(nodes: seq<Node>, n: nat, i: nat, part: string, rest: seq<string>, params: map<string, string>)
    requires ValidNodes(nodes) && n < |nodes| && i < |nodes[n].children|
    requires var c := nodes[n].children[i]; c < |nodes| && !nodes[c].isWild && nodes[c].isParam
    requires var c := nodes[n].children[i];
      c < |nodes| && FindNodeF(nodes, c, rest, params[nodes[c].part := part]).node.Some?
    requires var c := nodes[n].children[i]; c < |nodes| && Unbound(nodes, c, rest, nodes[c].part)
    ensures var c := nodes[n].children[i];
      var r := FindAmong(nodes, n, i, part, rest, params);
      && r == FindNodeF(nodes, c, rest, params[nodes[c].part := part])
      && nodes[c].part in r.params && r.params[nodes[c].part] == part
  {
    var c := nodes[n].children[i];
    FindNodeKeepsUnbound(nodes, c, rest, params[nodes[c].part := part], nodes[c].part);
  }

  /** The node the search finds does not depend on the parameter map. */
  lemma {:induction false} FindNodeIgnoresParams(nodes: seq<Node>, n: nat, parts: seq<string>, p1: map<string, string>, p2: map<string, string>)
    requires ValidNodes(nodes) && n < |nodes|
    ensures FindNodeF(nodes, n, parts, p1).node == FindNodeF(nodes, n, parts, p2).node
    decreases |parts|, 1, 0
  {
    if parts != [] {
      FindAmongIgnoresParams(nodes, n, 0, parts[0], parts[1..], p1, p2);
    }
  }

  lemma {:induction false} FindAmongIgnoresParams(nodes: seq<Node>, n: nat, i: nat, part: string, rest: seq<string>, p1: map<string, string>, p2: map<string, string>)
    requires ValidNodes(nodes) && n < |nodes| && i <= |nodes[n].children|
    ensures FindAmong(nodes, n, i, part, rest, p1).node == FindAmong(nodes, n, i, part, rest, p2).node
    decreases |rest| + 1, 0, |nodes[n].children| - i
  {
    var cs := nodes[n].children;
    if i < |cs| {
      var c := cs[i];
      assert Siblings(nodes, cs);
      if nodes[c].isWild {
      } else if nodes[c].isParam || nodes[c].part == part {
        var q1 := if nodes[c].isParam then p1[nodes[c].part := part] else p1;
        var q2 := if nodes[c].isParam then p2[nodes[c].part := part] else p2;
        var h1 := FindNodeF(nodes, c, rest, q1);
        var h2 := FindNodeF(nodes, c, rest, q2);
        FindNodeIgnoresParams(nodes, c, rest, q1, q2);
        if h1.node.None? {
          FindAmongIgnoresParams(nodes, n, i + 1, part, rest, h1.params, h2.params);
        }
      } else {
        FindAmongIgnoresParams(nodes, n, i + 1, part, rest, p1, p2);
      }
    }
  }

  /** What trying child c yields for the segment part followed by rest:
      the wildcard matches at once, a parameter or an equal literal
      continues below c, any other literal fails. */
  ghost function ChildResult(nodes: seq<Node>, c: nat, part: string, rest: seq<string>): Option<nat>
    requires ValidNodes(nodes) && c < |nodes|
  {
    if nodes[c].isWild then Some(c)
    else if nodes[c].isParam || nodes[c].part == part then FindNodeF(nodes, c, rest, map[]).node
    else None
  }

  /** First match: the children are tried in insertion order and the loop
      returns the result of the first child that yields a node; it yields
      nothing only when no child does. */
  lemma {:induction false} FindAmongFirstMatch(nodes: seq<Node>, n: nat, i: nat, part: string, rest: seq<string>, params: map<string, string>)
    requires ValidNodes(nodes) && n < |nodes| && i <= |nodes[n].children|
    ensures var cs := nodes[n].children;
      var r := FindAmong(nodes, n, i, part, rest, params);
      && (forall j :: i <= j < |cs| ==> cs[j] < |nodes|)
      && (r.node.Some? ==>
            exists j :: (i <= j < |cs| && ChildResult(nodes, cs[j], part, rest) == r.node
                         && forall l :: i <= l < j ==> ChildResult(nodes, cs[l], part, rest).None?))
      && (r.node.None? ==> forall j :: i <= j < |cs| ==> ChildResult(nodes, cs[j], part, rest).None?)
    decreases |nodes[n].children| - i
  {
    var cs := nodes[n].children;
    assert Siblings(nodes, cs);
    if i < |cs| {
      var c := cs[i];
      if nodes[c].isWild {
      } else if nodes[c].isParam || nodes[c].part == part {
        var q := if nodes[c].isParam then params[nodes[c].part := part] else params;
        var h := FindNodeF(nodes, c, rest, q);
        FindNodeIgnoresParams(nodes, c, rest, q, map[]);
        if h.node.None? {
          FindAmongFirstMatch(nodes, n, i + 1, part, rest, h.params);
        }
      } else {
        FindAmongFirstMatch(nodes, n, i + 1, part, rest, params);
      }
    }
  }


  /** A child that admits the first segment and reaches e from there makes
      e reachable from its parent. */
  lemma ReachThrough(nodes: seq<Node>, n: nat, j: nat, parts: seq<string>, e: nat)
    requires ValidNodes(nodes) && n < |nodes| && j < |nodes[n].children| && parts != []
    requires ChildReaches(nodes, nodes[n].children[j], parts, e)
    ensures Reaches(nodes, n, parts, e)
  {
  }

  /** A registered pattern reaches the node Insert marked for it, provided
      no wildcard segment comes before its last segment (a wildcard node
      swallows everything, so nodes below it can never be reached). */
  lemma {:induction false} InsertReachable(nodes: seq<Node>, cur: nat, parts: seq<string>, path: string, handler: Option<Chain>)
    requires ValidNodes(nodes) && cur < |nodes|
    requires forall j :: 0 <= j < |parts| - 1 ==> !Classify(parts[j]).isWild
    ensures Reaches(Insert(nodes, cur, parts, path, handler), cur, parts,
                    InsertEnd(nodes, cur, parts, path, handler))
    decreases |parts|
  {
    if parts != [] {
      var (grown, c) := Descend(nodes, cur, parts[0]);
      var marked := if |parts| == 1 then Mark(grown, c, path, handler) else grown;
      var r := Insert(marked, c, parts[1..], path, handler);
      var e := InsertEnd(marked, c, parts[1..], path, handler);
      assert r == Insert(nodes, cur, parts, path, handler);
      assert e == InsertEnd(nodes, cur, parts, path, handler);
      assert forall k :: 0 <= k < |parts[1..]| - 1 ==> !Classify(parts[1..][k]).isWild by {
        forall k | 0 <= k < |parts[1..]| - 1
          ensures !Classify(parts[1..][k]).isWild
        {
          assert parts[1..][k] == parts[k + 1];
        }
      }
      InsertReachable(marked, c, parts[1..], path, handler);
      assert Reaches(r, c, parts[1..], e);
      var j :| 0 <= j < |grown[cur].children| && grown[cur].children[j] == c;
      assert Extends(marked, r);
      assert r[cur].children[j] == c by {
        assert grown[cur].children <= marked[cur].children;
        assert marked[cur].children <= r[cur].children;
      }
      assert KeyOf(r[c]) == KeyOf(marked[c]) == Classify(parts[0]);
      if |parts| == 1 {
        assert e == c && r == marked;
      } else {
        assert !Classify(parts[0]).isWild;
      }
      assert ChildReaches(r, c, parts, e);
      ReachThrough(r, cur, j, parts, e);
    }
  }

  /** The keys Add derives from a pattern's segments. */
  function KeysOf(parts: seq<string>): (r: seq<Key>)
    ensures |r| == |parts| && forall j :: 0 <= j < |parts| ==> r[j] == Classify(parts[j])
  {
    if parts == [] then [] else [Classify(parts[0])] + KeysOf(parts[1..])
  }

  /** A fresh chain of nodes at indices base.., one per key, each the only
      child of the one before; the last carries the route data. */
  function ChainNodes(base: nat, keys: seq<Key>, path: string, handler: Option<Chain>): (r: seq<Node>)
    requires keys != []
    ensures |r| == |keys|
    decreases |keys|
  {
    var k := keys[0];
    if |keys| == 1 then [Node(path, k.part, [], handler, k.isParam, k.isWild)]
    else [Node("", k.part, [base + 1], None, k.isParam, k.isWild)] + ChainNodes(base + 1, keys[1..], path, handler)
  }

  /** Updating an element before an appended one. */
  lemma UpdateBeforeAppend(a: seq<Node>, x: Node, i: nat, y: Node)
    requires i < |a|
    ensures (a + [x])[i := y] == a[i := y] + [x]
  {
  }

  /** Growing a node that has no children: the new leaf is appended and is
      its only child. */
  lemma GrowFresh(nodes: seq<Node>, cur: nat, k: Key)
    requires ValidNodes(nodes) && cur < |nodes| && nodes[cur].children == []
    ensures Grow(nodes, cur, k)
            == nodes[cur := nodes[cur].(children := [|nodes|])] + [Node("", k.part, [], None, k.isParam, k.isWild)]
  {
    var leaf := Node("", k.part, [], None, k.isParam, k.isWild);
    assert nodes[cur].children + [|nodes|] == [|nodes|];
    assert (nodes + [leaf])[cur] == nodes[cur];
    UpdateBeforeAppend(nodes, leaf, cur, nodes[cur].(children := [|nodes|]));
  }

  lemma DescendFresh(nodes: seq<Node>, cur: nat, seg: string)
    requires ValidNodes(nodes) && cur < |nodes| && nodes[cur].children == []
    ensures var k := Classify(seg);
      Descend(nodes, cur, seg)
        == (nodes[cur := nodes[cur].(children := [|nodes|])] + [Node("", k.part, [], None, k.isParam, k.isWild)], |nodes|)
  {
    assert ChildWith(nodes, [], Classify(seg)) == None;
    GrowFresh(nodes, cur, Classify(seg));
  }

  /** One unfolding of Insert. */
  lemma InsertUnfold(nodes: seq<Node>, cur: nat, parts: seq<string>, path: string, handler: Option<Chain>)
    requires ValidNodes(nodes) && cur < |nodes| && parts != []
    ensures var (grown, c) := Descend(nodes, cur, parts[0]);
      Insert(nodes, cur, parts, path, handler)
        == Insert(if |parts| == 1 then Mark(grown, c, path, handler) else grown, c, parts[1..], path, handler)
  {
  }

  /** Registering below a node without children appends a fresh chain for
      the pattern and makes its first node that node's only child. */
  lemma {:induction false} InsertFresh(nodes: seq<Node>, cur: nat, parts: seq<string>, path: string, handler: Option<Chain>)
    requires ValidNodes(nodes) && cur < |nodes| && nodes[cur].children == [] && parts != []
    ensures Insert(nodes, cur, parts, path, handler)
            == nodes[cur := nodes[cur].(children := [|nodes|])] + ChainNodes(|nodes|, KeysOf(parts), path, handler)
    decreases |parts|
  {
    var k := Classify(parts[0]);
    var leaf := Node("", k.part, [], None, k.isParam, k.isWild);
    var top := nodes[cur := nodes[cur].(children := [|nodes|])];
    DescendFresh(nodes, cur, parts[0]);
    InsertUnfold(nodes, cur, parts, path, handler);
    if |parts| == 1 {
      FreshLast(nodes, cur, parts, path, handler);
    } else {
      assert (top + [leaf])[|nodes|].children == [];
      InsertFresh(top + [leaf], |nodes|, parts[1..], path, handler);
      FreshStep(nodes, cur, parts, path, handler);
    }
  }

  lemma FreshLast(nodes: seq<Node>, cur: nat, parts: seq<string>, path: string, handler: Option<Chain>)
    requires ValidNodes(nodes) && cur < |nodes| && |parts| == 1
    ensures var k := Classify(parts[0]);
      var grown := nodes[cur := nodes[cur].(children := [|nodes|])] + [Node("", k.part, [], None, k.isParam, k.isWild)];
      Mark(grown, |nodes|, path, handler)
        == nodes[cur := nodes[cur].(children := [|nodes|])] + ChainNodes(|nodes|, KeysOf(parts), path, handler)
  {
    assert KeysOf(parts)[0] == Classify(parts[0]);
  }

  lemma FreshStep(nodes: seq<Node>, cur: nat, parts: seq<string>, path: string, handler: Option<Chain>)
    requires cur < |nodes| && |parts| > 1
    ensures var k := Classify(parts[0]);
      var top := nodes[cur := nodes[cur].(children := [|nodes|])];
      var grown := top + [Node("", k.part, [], None, k.isParam, k.isWild)];
      grown[|nodes| := grown[|nodes|].(children := [|grown|])] + ChainNodes(|grown|, KeysOf(parts[1..]), path, handler)
        == top + ChainNodes(|nodes|, KeysOf(parts), path, handler)
  {
    var k := Classify(parts[0]);
    var keys := KeysOf(parts);
    var leaf := Node("", k.part, [], None, k.isParam, k.isWild);
    var leaf' := leaf.(children := [|nodes| + 1]);
    var top := nodes[cur := nodes[cur].(children := [|nodes|])];
    var grown := top + [leaf];
    var tail := ChainNodes(|nodes| + 1, keys[1..], path, handler);
    assert |top| == |nodes| && |grown| == |nodes| + 1 && grown[|nodes|] == leaf;
    UpdateLast(top, leaf, leaf');
    assert grown[|nodes| := leaf'] == top + [leaf'];
    KeysOfTail(parts);
    assert ChainNodes(|grown|, KeysOf(parts[1..]), path, handler) == tail;
    ChainUnfold(|nodes|, keys, path, handler);
    assert ChainNodes(|nodes|, keys, path, handler) == [leaf'] + tail;
    assert grown[|nodes|].(children := [|grown|]) == leaf';
    var lhs := grown[|nodes| := grown[|nodes|].(children := [|grown|])];
    assert lhs == top + [leaf'];
    SeqAssoc(top, [leaf'], tail);
  }

  lemma SeqAssoc(a: seq<Node>, b: seq<Node>, c: seq<Node>)
    ensures a + b + c == a + (b + c)
  {
  }

  lemma KeysOfTail(parts: seq<string>)
    requires parts != []
    ensures KeysOf(parts)[0] == Classify(parts[0]) && KeysOf(parts)[1..] == KeysOf(parts[1..])
  {
  }

  lemma UpdateLast(a: seq<Node>, x: Node, y: Node)
    ensures (a + [x])[|a| := y] == a + [y]
  {
  }

  /** One unfolding of ChainNodes. */
  lemma ChainUnfold(base: nat, keys: seq<Key>, path: string, handler: Option<Chain>)
    requires |keys| > 1
    ensures ChainNodes(base, keys, path, handler)
            == [Node("", keys[0].part, [base + 1], None, keys[0].isParam, keys[0].isWild)]
               + ChainNodes(base + 1, keys[1..], path, handler)
  {
  }

  /** The head of a chain laid out at base, and the rest of the chain
      after it. */
  lemma ChainHead(nodes: seq<Node>, base: nat, keys: seq<Key>, path: string, handler: Option<Chain>)
    requires keys != [] && base + |keys| <= |nodes| && nodes[base..base + |keys|] == ChainNodes(base, keys, path, handler)
    ensures KeyOf(nodes[base]) == keys[0]
    ensures |keys| == 1 ==> nodes[base].children == []
    ensures |keys| > 1 ==> nodes[base].children == [base + 1]
                           && nodes[base + 1..base + |keys|] == ChainNodes(base + 1, keys[1..], path, handler)
  {
    var c := ChainNodes(base, keys, path, handler);
    assert nodes[base] == c[0];
    if |keys| > 1 {
      ChainUnfold(base, keys, path, handler);
      assert nodes[base + 1..base + |keys|] == c[1..];
    }
  }

  /** Whether a request fits a chain's keys: a literal needs its own
      segment, a parameter takes any one segment, and the wildcard, which
      must be the last key, takes the one or more segments left. */
  predicate Fits(keys: seq<Key>, req: seq<string>)
    requires keys != []
    decreases |keys|
  {
    req != [] &&
    if keys[0].isWild then |keys| == 1
    else
      (keys[0].isParam || keys[0].part == req[0])
      && if |keys| == 1 then |req| == 1 else Fits(keys[1..], req[1..])
  }

  /** The bindings a fitting request makes along the chain, in order: each
      parameter gets its segment, the wildcard gets "*" bound to the
      remaining segments joined by "/". */
  function BindChain(keys: seq<Key>, req: seq<string>, params: map<string, string>): map<string, string>
    requires keys != [] && Fits(keys, req)
    decreases |keys|
  {
    if keys[0].isWild then params["*" := Join(req)]
    else
      var p := if keys[0].isParam then params[keys[0].part := req[0]] else params;
      if |keys| == 1 then p else BindChain(keys[1..], req[1..], p)
  }

  /** Searching a chain whose first node is the only child of n: a fitting
      request reaches the chain's last node, and the map comes back with
      exactly the chain's bindings added. */
  lemma {:induction false} ChainFind(nodes: seq<Node>, n: nat, base: nat, keys: seq<Key>, req: seq<string>,
                                     params: map<string, string>, path: string, handler: Option<Chain>)
    requires ValidNodes(nodes) && n < |nodes| && nodes[n].children == [base]
    requires keys != [] && base + |keys| <= |nodes| && nodes[base..base + |keys|] == ChainNodes(base, keys, path, handler)
    requires Fits(keys, req)
    ensures FindNodeF(nodes, n, req, params) == Hit(Some(base + |keys| - 1), BindChain(keys, req, params))
    decreases |keys|
  {
    ChainHead(nodes, base, keys, path, handler);
    assert [req[0]] + req[1..] == req;
    if !keys[0].isWild {
      var p := if keys[0].isParam then params[keys[0].part := req[0]] else params;
      if |keys| == 1 {
        assert req[1..] == [];
        assert FindNodeF(nodes, base, req[1..], p) == Hit(Some(base), p);
      } else {
        ChainFind(nodes, base, base + 1, keys[1..], req[1..], p, path, handler);
      }
    }
  }

  /** The last node of a chain carries the route data; the others carry no
      handler. */
  lemma {:induction false} ChainLast(base: nat, keys: seq<Key>, path: string, handler: Option<Chain>)
    requires keys != []
    ensures var c := ChainNodes(base, keys, path, handler);
      c[|keys| - 1].path == path && c[|keys| - 1].handler == handler && c[|keys| - 1].children == []
      && forall j :: 0 <= j < |keys| - 1 ==> c[j].handler.None? && c[j].children == [base + j + 1]
    decreases |keys|
  {
    if |keys| > 1 {
      var c := ChainNodes(base, keys, path, handler);
      var tail := ChainNodes(base + 1, keys[1..], path, handler);
      ChainLast(base + 1, keys[1..], path, handler);
      assert forall j :: 1 <= j < |keys| ==> c[j] == tail[j - 1];
    }
  }

  /** Conversely, a search below n stops at n (on no segments), inside the
      chain, or nowhere; and it reaches the chain's last node only for a
      request that fits. */
  lemma {:induction false} ChainOnlyFits(nodes: seq<Node>, n: nat, base: nat, keys: seq<Key>, req: seq<string>,
                                         params: map<string, string>, path: string, handler: Option<Chain>)
    requires keys != [] && base + |keys| <= |nodes| && n < base
    requires ValidNodes(nodes) && nodes[n].children == [base]
    requires nodes[base..base + |keys|] == ChainNodes(base, keys, path, handler)
    ensures var r := FindNodeF(nodes, n, req, params);
      r.node.Some? ==> (req == [] && r.node.value == n) || base <= r.node.value < base + |keys|
    ensures FindNodeF(nodes, n, req, params).node == Some(base + |keys| - 1) ==> Fits(keys, req)
    decreases |keys|
  {
    if req != [] {
      ChainHead(nodes, base, keys, path, handler);
      OnlyChildNode(nodes, n, base, req, params);
      if !keys[0].isWild && (keys[0].isParam || keys[0].part == req[0]) {
        var p := if keys[0].isParam then params[keys[0].part := req[0]] else params;
        if |keys| > 1 {
          ChainOnlyFits(nodes, base, base + 1, keys[1..], req[1..], p, path, handler);
        } else if req[1..] != [] {
          assert FindNodeF(nodes, base, req[1..], p) == FindAmong(nodes, base, 0, req[1..][0], req[1..][1..], p);
        }
      }
    }
  }

  /** The node a search reaches through an only child. */
  lemma OnlyChildNode(nodes: seq<Node>, n: nat, base: nat, req: seq<string>, params: map<string, string>)
    requires ValidNodes(nodes) && n < |nodes| && nodes[n].children == [base] && req != []
    ensures base < |nodes|
    ensures var c := nodes[base];
      var r := FindNodeF(nodes, n, req, params);
      if c.isWild then r.node == Some(base)
      else if c.isParam || c.part == req[0] then
        r.node == FindNodeF(nodes, base, req[1..], if c.isParam then params[c.part := req[0]] else params).node
      else r.node.None?
  {
    assert Siblings(nodes, nodes[n].children);
    assert FindNodeF(nodes, n, req, params) == FindAmong(nodes, n, 0, req[0], req[1..], params);
    var c := nodes[base];
    if !c.isWild {
      var p := if c.isParam then params[c.part := req[0]] else params;
      var h := FindNodeF(nodes, base, req[1..], p);
      assert FindAmong(nodes, n, 1, req[0], req[1..], h.params).node.None?;
      assert FindAmong(nodes, n, 1, req[0], req[1..], params).node.None?;
    }
  }

  lemma AfterHead(x: Node, c: seq<Node>)
    ensures ([x] + c)[1..1 + |c|] == c
  {
  }

  /** A chain hung below a handler-less node n as its only child: a
      fitting request reaches the chain's last node, which carries the
      route, and any other request ends nowhere or on a node without a
      handler. */
  lemma ChainSearch(nodes: seq<Node>, n: nat, base: nat, keys: seq<Key>, req: seq<string>,
                    params: map<string, string>, path: string, handler: Option<Chain>)
    requires keys != [] && base + |keys| <= |nodes| && n < base
    requires ValidNodes(nodes) && nodes[n].children == [base] && nodes[n].handler.None?
    requires nodes[base..base + |keys|] == ChainNodes(base, keys, path, handler)
    ensures var r := FindNodeF(nodes, n, req, params);
      && (Fits(keys, req) ==> r == Hit(Some(base + |keys| - 1), BindChain(keys, req, params))
                              && nodes[base + |keys| - 1].path == path && nodes[base + |keys| - 1].handler == handler)
      && (!Fits(keys, req) && handler.Some? ==> r.node.None? || nodes[r.node.value].handler.None?)
  {
    var chain := ChainNodes(base, keys, path, handler);
    ChainLast(base, keys, path, handler);
    assert nodes[base + |keys| - 1] == chain[|keys| - 1];
    ChainOnlyFits(nodes, n, base, keys, req, params, path, handler);
    if Fits(keys, req) {
      ChainFind(nodes, n, base, keys, req, params, path, handler);
    } else {
      var e := FindNodeF(nodes, n, req, params).node;
      if e.Some? && e.value != n {
        assert nodes[e.value] == chain[e.value - base];
      }
    }
  }
}
