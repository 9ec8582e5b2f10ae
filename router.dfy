/**
 * router.go: the route table (`method -> path -> Route`), the shared trie,
 * registration (`Add`), lookup (`Find`, `findRoute`), router middleware and
 * the composed chain that a registration stores.
 */
module Routing {
  import opened Types
  import opened Paths
  import opened Trie
  import C = Contexts

  const MethodGet := "GET"
  const MethodPost := "POST"
  const MethodPut := "PUT"
  const MethodPatch := "PATCH"
  const MethodDelete := "DELETE"
  const MethodHead := "HEAD"
  const MethodOptions := "OPTIONS"
  const MethodConnect := "CONNECT"
  const MethodTrace := "TRACE"

  /** A Route. `handler` is Some(hs) for `chain(hs)`, None for nil. */
  datatype Route = Route(path: string, handler: Option<Chain>, verb: string, parts: seq<string>)

  /** The fields of a Router, as one value. */
  datatype RouterModel = RouterModel(
    routes: map<string, map<string, Route>>,
    nodes: seq<Node>,
    middleware: seq<Handler>)

  /** A route filed under method m and path p describes m and p. */
  predicate Placed(route: Route, m: string, p: string) {
    route.path == p && route.verb == m && route.parts == Segments(p)
  }

  /** Every table entry sits under its own method and path. */
  predicate RoutesWellFormed(routes: map<string, map<string, Route>>) {
    forall m, p :: m in routes && p in routes[m] ==> Placed(routes[m][p], m, p)
  }

  predicate ValidModel(m: RouterModel) {
    ValidNodes(m.nodes) && RoutesWellFormed(m.routes)
  }

  /** A new router. Its trie root exists from the start. */
  const EmptyRouter := RouterModel(map[], [Root], [])

  /** convertToRouteHandler: None is the panic on an unsupported type. A
      string becomes a handler that sends it, journaled under the string. */
  function ConvertToRouteHandler(input: Input): (r: Option<Handler>)
    ensures r.None? <==> input.OtherInput?
    ensures input.FuncInput? ==> r == Some(input.h)
    ensures input.StringInput? ==> r.Some? && r.value.script == [SendValue(Str(input.s))]
  {
    match input
    case StringInput(s) => Some(Handler(s, [SendValue(Str(s))]))
    case FuncInput(h) => Some(h)
    case OtherInput(_) => None
  }

  /** Converting the registration arguments in order; None if any panics. */
  function ConvertAll(inputs: seq<Input>): (r: Option<seq<Handler>>)
    ensures r.Some? <==> forall i :: 0 <= i < |inputs| ==> !inputs[i].OtherInput?
    ensures r.Some? ==> |r.value| == |inputs|
    ensures r.Some? ==> forall i :: 0 <= i < |inputs| ==> ConvertToRouteHandler(inputs[i]) == Some(r.value[i])
  {
    if inputs == [] then Some([])
    else
      var init := inputs[..|inputs| - 1];
      var front := ConvertAll(init);
      var last := ConvertToRouteHandler(inputs[|inputs| - 1]);
      assert forall i :: 0 <= i < |init| ==> init[i] == inputs[i];
      if front.None? || last.None? then None
      else Some(front.value + [last.value])
  }

  /** `chain(hs)` when hs is non-empty, nil otherwise. */
  function Composed(hs: seq<Handler>): (r: Option<Chain>)
    ensures r.None? <==> hs == []
    ensures r.Some? ==> r.value == hs
  {
    if hs == [] then None else Some(hs)
  }

  datatype AddResult = AddResult(router: RouterModel, panicked: bool)

  /** Router.Add */
  function AddSpec(m: RouterModel, verb: string, path: string, inputs: seq<Input>): (r: AddResult)
    requires ValidModel(m)
    ensures ValidModel(r.router) && r.router.middleware == m.middleware
    ensures r.panicked <==> exists i :: 0 <= i < |inputs| && inputs[i].OtherInput?
    ensures r.panicked ==> r.router.nodes == m.nodes
    ensures verb in r.router.routes
    ensures !r.panicked ==>
      var np := NormalizePath(path);
      np in r.router.routes[verb] &&
      r.router.routes[verb][np] == Route(np, Composed(m.middleware + ConvertAll(inputs).value), verb, Segments(np))
    ensures forall v, q :: v in m.routes && q in m.routes[v] && (v != verb || q != NormalizePath(path)) ==>
      v in r.router.routes && q in r.router.routes[v] && r.router.routes[v][q] == m.routes[v][q]
    ensures forall v, q :: v in r.router.routes && q in r.router.routes[v] ==>
      (v in m.routes && q in m.routes[v]) || (!r.panicked && v == verb && q == NormalizePath(path))
  {
    var routes := if verb in m.routes then m.routes else m.routes[verb := map[]];
    var converted := ConvertAll(inputs);
    if converted.None? then AddResult(m.(routes := routes), true)
    else
      var main := Composed(m.middleware + converted.value);
      var np := NormalizePath(path);
      var parts := Segments(np);
      var routes' := routes[verb := routes[verb][np := Route(np, main, verb, parts)]];
      assert RoutesWellFormed(routes') by {
        forall v, q | v in routes' && q in routes'[v]
          ensures Placed(routes'[v][q], v, q)
        {
          if v != verb || q != np {
            assert routes'[v][q] == m.routes[v][q];
          }
        }
      }
      AddResult(m.(routes := routes', nodes := Insert(m.nodes, 0, parts, np, main)), false)
  }

  /** What Find returns: the handler (None for nil) and the params map
      (None for a nil map, as on a table hit). */
  datatype Lookup = Lookup(handler: Option<Chain>, params: Option<map<string, string>>)

  const Miss := Lookup(None, None)

  /** Router.Find: the exact table entry for the raw path, else the trie
      node's route under this method, provided the node carries a handler. */
  function FindSpec(m: RouterModel, verb: string, path: string): (r: Lookup)
    requires ValidNodes(m.nodes)
    ensures verb !in m.routes ==> r == Miss
    ensures verb in m.routes && path in m.routes[verb] ==> r == Lookup(m.routes[verb][path].handler, None)
    ensures r.params.Some? ==>
      verb in m.routes && path !in m.routes[verb]
      && exists q :: q in m.routes[verb] && r.handler == m.routes[verb][q].handler
  {
    if verb in m.routes && path in m.routes[verb] then Lookup(m.routes[verb][path].handler, None)
    else
      var hit := FindNodeF(m.nodes, 0, Segments(path), map[]);
      if hit.node.Some? && m.nodes[hit.node.value].handler.Some?
         && verb in m.routes && m.nodes[hit.node.value].path in m.routes[verb]
      then Lookup(m.routes[verb][m.nodes[hit.node.value].path].handler, Some(hit.params))
      else Miss
  }

  /** An exact key of the table is answered from the table, with nil params,
      whatever the trie holds. */
  lemma FindExact(m: RouterModel, verb: string, path: string)
    requires ValidNodes(m.nodes) && verb in m.routes && path in m.routes[verb]
    ensures FindSpec(m, verb, path) == Lookup(m.routes[verb][path].handler, None)
  {
  }

  /** A trie answer comes from a node the path reaches, which carries a
      handler, and whose recorded path is registered under this method; the
      handler returned is that route's. */
  lemma FindTrieSound(m: RouterModel, verb: string, path: string)
    requires ValidNodes(m.nodes)
    requires FindSpec(m, verb, path).params.Some?
    ensures !(verb in m.routes && path in m.routes[verb])
    ensures exists e: nat :: e < |m.nodes| && Reaches(m.nodes, 0, Segments(path), e)
              && m.nodes[e].handler.Some? && verb in m.routes && m.nodes[e].path in m.routes[verb]
              && FindSpec(m, verb, path).handler == m.routes[verb][m.nodes[e].path].handler
  {
    var hit := FindNodeF(m.nodes, 0, Segments(path), map[]);
    FindNodeReaches(m.nodes, 0, Segments(path), map[]);
    assert Reaches(m.nodes, 0, Segments(path), hit.node.value);
  }

  /** A path that reaches no trie node and is no exact key is not found. */
  lemma FindUnreachableMisses(m: RouterModel, verb: string, path: string)
    requires ValidNodes(m.nodes)
    requires !(verb in m.routes && path in m.routes[verb])
    requires forall e :: !Reaches(m.nodes, 0, Segments(path), e)
    ensures FindSpec(m, verb, path) == Miss
  {
    FindNodeReaches(m.nodes, 0, Segments(path), map[]);
  }

  /** Nothing is found under a method that has no table. */
  lemma FindUnknownMethod(m: RouterModel, verb: string, path: string)
    requires ValidNodes(m.nodes) && verb !in m.routes
    ensures FindSpec(m, verb, path) == Miss
  {
  }

  /** Router.Find as written on a router whose trie root is still nil, as
      it is from New until the first registration reaches the trie. The
      table is consulted first; then `find` is called on the nil root,
      which returns nil for a path without segments and dereferences nil
      (None here) otherwise. */
  function FindWithoutRoot(m: RouterModel, verb: string, path: string): Option<Lookup> {
    if verb in m.routes && path in m.routes[verb] then Some(Lookup(m.routes[verb][path].handler, None))
    else if Segments(path) == [] then Some(Miss)
    else None
  }

  /** On a new router, a request path with a segment crashes Find as
      written, while the router with its root in place answers Miss. */
  lemma NilRootPanics(verb: string, path: string)
    requires Segments(path) != []
    ensures FindWithoutRoot(EmptyRouter, verb, path).None?
    ensures FindSpec(EmptyRouter, verb, path) == Miss
  {
    assert FindNodeF(EmptyRouter.nodes, 0, Segments(path), map[]).node.None?;
  }

  /** The concrete input: GET /users before any route is added. */
  lemma NilRootExample()
    ensures FindWithoutRoot(EmptyRouter, MethodGet, "/users").None?
  {
    var w := "users";
    assert NoSlash(w);
    ScanWord(w, "", "");
    assert w + "" == w && "" + w == w;
    LeadingSlash(w);
    assert "/" + w == "/users";
  }

  /** After a registration, its normalised path is found under its method
      as an exact hit, with the composed chain. */
  lemma AddThenFind(m: RouterModel, verb: string, path: string, inputs: seq<Input>)
    requires ValidModel(m)
    requires forall i :: 0 <= i < |inputs| ==> !inputs[i].OtherInput?
    ensures var r := AddSpec(m, verb, path, inputs);
      !r.panicked &&
      FindSpec(r.router, verb, NormalizePath(path))
        == Lookup(Composed(m.middleware + ConvertAll(inputs).value), None)
  {
  }

  /** A registration leaves the lookups of every other method alone when
      they are exact hits. */
  lemma AddKeepsOtherExactHits(m: RouterModel, verb: string, path: string, inputs: seq<Input>, other: string, q: string)
    requires ValidModel(m) && other != verb && other in m.routes && q in m.routes[other]
    ensures FindSpec(AddSpec(m, verb, path, inputs).router, other, q) == FindSpec(m, other, q)
  {
  }

  /** A registration with segments marks the trie node its pattern leads
      to with its path and chain; when no wildcard comes before the last
      segment, the pattern reaches that node. */
  lemma AddMarksTrie(m: RouterModel, verb: string, path: string, inputs: seq<Input>)
    requires ValidModel(m)
    requires forall i :: 0 <= i < |inputs| ==> !inputs[i].OtherInput?
    requires Segments(NormalizePath(path)) != []
    ensures var r := AddSpec(m, verb, path, inputs);
      var np := NormalizePath(path);
      var main := Composed(m.middleware + ConvertAll(inputs).value);
      var e := InsertEnd(m.nodes, 0, Segments(np), np, main);
      e < |r.router.nodes| && r.router.nodes[e].path == np && r.router.nodes[e].handler == main
      && ((forall j :: 0 <= j < |Segments(np)| - 1 ==> !Classify(Segments(np)[j]).isWild)
          ==> Reaches(r.router.nodes, 0, Segments(np), e))
  {
    var np := NormalizePath(path);
    var main := Composed(m.middleware + ConvertAll(inputs).value);
    InsertMarksEnd(m.nodes, 0, Segments(np), np, main);
    if forall j :: 0 <= j < |Segments(np)| - 1 ==> !Classify(Segments(np)[j]).isWild {
      InsertReachable(m.nodes, 0, Segments(np), np, main);
    }
  }

  /** The composed chain: the router middleware first, then the arguments
      in order; a string argument becomes a handler sending that string. */
  lemma AddChainOrder(m: RouterModel, verb: string, path: string, inputs: seq<Input>, i: nat)
    requires ValidModel(m)
    requires forall k :: 0 <= k < |inputs| ==> !inputs[k].OtherInput?
    requires i < |inputs|
    ensures var r := AddSpec(m, verb, path, inputs);
      var route := r.router.routes[verb][NormalizePath(path)];
      && route.handler.Some?
      && route.handler.value[..|m.middleware|] == m.middleware
      && |route.handler.value| == |m.middleware| + |inputs|
      && (inputs[i].FuncInput? ==> route.handler.value[|m.middleware| + i] == inputs[i].h)
      && (inputs[i].StringInput? ==>
            route.handler.value[|m.middleware| + i] == Handler(inputs[i].s, [SendValue(Str(inputs[i].s))]))
  {
    var hs := ConvertAll(inputs).value;
    assert (m.middleware + hs)[|m.middleware| + i] == hs[i];
    assert (m.middleware + hs)[..|m.middleware|] == m.middleware;
  }

  /** A single function argument converts to that handler. */
  lemma ConvertOne(h: Handler)
    ensures ConvertAll([FuncInput(h)]) == Some([h])
  {
    var inputs := [FuncInput(h)];
    assert inputs[..0] == [] && inputs[0] == FuncInput(h);
    assert ConvertAll([]) == Some([]);
    assert [] + [h] == [h];
  }

  /** Add on convertible arguments: the table entry, then the trie insert. */
  lemma AddUnfold(m: RouterModel, verb: string, path: string, inputs: seq<Input>)
    requires ValidModel(m) && ConvertAll(inputs).Some?
    ensures var np := NormalizePath(path);
      var main := Composed(m.middleware + ConvertAll(inputs).value);
      var routes := if verb in m.routes then m.routes else m.routes[verb := map[]];
      AddSpec(m, verb, path, inputs).router
        == m.(routes := routes[verb := routes[verb][np := Route(np, main, verb, Segments(np))]],
              nodes := Insert(m.nodes, 0, Segments(np), np, main))
  {
  }

  /** The router one registration of a single function handler builds on a
      new router: one table entry, and below the root a fresh chain of nodes
      for the pattern's segments. */
  function SingleRouter(verb: string, np: string, h: Handler): (r: RouterModel)
    ensures ValidNodes([Root]) && r.nodes == Insert([Root], 0, Segments(np), np, Some([h]))
  {
    RouterModel(map[verb := map[np := Route(np, Some([h]), verb, Segments(np))]],
                Insert([Root], 0, Segments(np), np, Some([h])), [])
  }

  lemma SingleRouteBuilt(verb: string, pattern: string, h: Handler)
    ensures AddSpec(EmptyRouter, verb, pattern, [FuncInput(h)]).router == SingleRouter(verb, NormalizePath(pattern), h)
  {
    var np := NormalizePath(pattern);
    var rt := Route(np, Some([h]), verb, Segments(np));
    ConvertOne(h);
    assert [] + [h] == [h];
    AddUnfold(EmptyRouter, verb, pattern, [FuncInput(h)]);
    assert map[verb := map[]][verb := map[][np := rt]] == map[verb := map[np := rt]];
  }

  lemma SingleRouteNodes(np: string, h: Handler)
    requires Segments(np) != []
    ensures ValidNodes([Root])
    ensures Insert([Root], 0, Segments(np), np, Some([h]))
            == [Root.(children := [1])] + ChainNodes(1, KeysOf(Segments(np)), np, Some([h]))
  {
    InsertFresh([Root], 0, Segments(np), np, Some([h]));
    RootUpdate();
  }

  lemma RootUpdate()
    ensures [Root][0 := Root.(children := [1])] == [Root.(children := [1])]
  {
  }

  /** Find on a router holding one route registered with one function
      handler: the pattern's own normalised path is the exact hit with nil
      params; any other path is found exactly when its segments fit the
      pattern's keys, and then with exactly the bindings the pattern makes
      (each `:name` its segment, `*` the remaining segments joined by "/");
      every other path misses. */
  lemma SingleRouteFind(verb: string, pattern: string, h: Handler, path: string)
    ensures var np := NormalizePath(pattern);
      var keys := KeysOf(Segments(np));
      var req := Segments(path);
      FindSpec(AddSpec(EmptyRouter, verb, pattern, [FuncInput(h)]).router, verb, path)
        == if path == np then Lookup(Some([h]), None)
           else if keys != [] && Fits(keys, req) then Lookup(Some([h]), Some(BindChain(keys, req, map[])))
           else Miss
  {
    var np := NormalizePath(pattern);
    var m := SingleRouter(verb, np, h);
    SingleRouteBuilt(verb, pattern, h);
    if path != np {
      if Segments(np) == [] {
        assert m.nodes == [Root];
        if Segments(path) != [] {
          assert FindNodeF(m.nodes, 0, Segments(path), map[]).node.None?;
        }
      } else {
        SingleRouteTrie(verb, np, h, path);
      }
    }
  }

  lemma SingleRouteTrie(verb: string, np: string, h: Handler, path: string)
    requires Segments(np) != [] && path != np
    ensures var keys := KeysOf(Segments(np));
      var req := Segments(path);
      FindSpec(SingleRouter(verb, np, h), verb, path)
        == if Fits(keys, req) then Lookup(Some([h]), Some(BindChain(keys, req, map[]))) else Miss
  {
    SingleRouteNodes(np, h);
    SingleChainSearch(np, h, Segments(path));
    SingleRouterTable(verb, np, h, path);
  }

  lemma SingleRouterTable(verb: string, np: string, h: Handler, path: string)
    requires path != np
    ensures var m := SingleRouter(verb, np, h);
      verb in m.routes && np in m.routes[verb] && m.routes[verb][np].handler == Some([h])
      && path !in m.routes[verb]
  {
  }

  /** The search on the one-chain trie: a fitting request reaches the
      chain's last node, which carries the route; any other request ends
      nowhere or on a node without a handler. */
  lemma SingleChainSearch(np: string, h: Handler, req: seq<string>)
    requires Segments(np) != []
    ensures var keys := KeysOf(Segments(np));
      var t := [Root.(children := [1])] + ChainNodes(1, keys, np, Some([h]));
      ValidNodes(t)
      && var r := FindNodeF(t, 0, req, map[]);
      && (Fits(keys, req) ==> r == Hit(Some(|keys|), BindChain(keys, req, map[]))
                              && t[|keys|].path == np && t[|keys|].handler == Some([h]))
      && (!Fits(keys, req) ==> r.node.None? || t[r.node.value].handler.None?)
  {
    var keys := KeysOf(Segments(np));
    var chain := ChainNodes(1, keys, np, Some([h]));
    var t := [Root.(children := [1])] + chain;
    SingleRouteNodes(np, h);
    assert |chain| == |keys| && t[0] == Root.(children := [1]);
    AfterHead(Root.(children := [1]), chain);
    ChainSearch(t, 0, 1, keys, req, map[], np, Some([h]));
    assert 1 + |keys| - 1 == |keys|;
  }

  /** chain: run the handlers in order, each on the same context, stopping
      after the first one that leaves the response written. */
  function RunChainF(st: State, hs: Chain): (r: C.Outcome)
    requires st.index >= -1
    ensures C.Keeps(st, r.state)
    decreases |hs|
  {
    if hs == [] then C.Outcome(st, false)
    else
      var o := C.InvokeSpec(st, hs[0]);
      if o.panicked || o.state.written then o
      else
        var r := RunChainF(o.state, hs[1..]);
        assert r.state.journal[..|st.journal|] == r.state.journal[..|o.state.journal|][..|st.journal|];
        r
  }

  /** Running a + b is running a, then b unless a panicked or wrote. */
  lemma {:induction false} ChainAppend(st: State, a: Chain, b: Chain)
    requires st.index >= -1 && a != []
    ensures var o := RunChainF(st, a);
      RunChainF(st, a + b) == if o.panicked || o.state.written then o else RunChainF(o.state, b)
    decreases |a|
  {
    assert (a + b)[0] == a[0] && (a + b)[1..] == a[1..] + b;
    var o := C.InvokeSpec(st, a[0]);
    if !(o.panicked || o.state.written) && |a| > 1 {
      ChainAppend(o.state, a[1..], b);
    } else if !(o.panicked || o.state.written) {
      assert a[1..] + b == b;
    }
  }

  /** The handlers after the first one that writes never run: if running a
      completes with nothing written and h then writes, running a, h and any
      tail equals running a then h. */
  lemma ChainStopsAtWrite(st: State, a: Chain, h: Handler, tail: Chain)
    requires st.index >= -1
    requires var o := RunChainF(st, a); !o.panicked && !o.state.written
    requires var o := RunChainF(st, a); C.InvokeSpec(o.state, h).state.written
    ensures RunChainF(st, a + [h] + tail) == C.InvokeSpec(RunChainF(st, a).state, h)
  {
    var o := RunChainF(st, a);
    assert a + [h] + tail == a + ([h] + tail);
    if a != [] {
      ChainAppend(st, a, [h] + tail);
    } else {
      assert o.state == st;
    }
    assert ([h] + tail)[0] == h;
  }

  /** The Router object. The trie is the arena `nodes`; node 0 is the root. */
  class Router {
    var routes: map<string, map<string, Route>>
    var nodes: seq<Node>
    var middleware: seq<Handler>

    ghost function Model(): RouterModel
      reads this
    {
      RouterModel(routes, nodes, middleware)
    }

    ghost predicate Valid()
      reads this
    {
      ValidModel(Model())
    }

    constructor ()
      ensures Valid() && Model() == EmptyRouter
    {
      routes := map[];
      nodes := [Root];
      middleware := [];
    }

    /** Router.Use: append, keeping the earlier entries. */
    method Use(mw: seq<Handler>)
      modifies this
      ensures Model() == old(Model()).(middleware := old(middleware) + mw)
    {
      middleware := middleware + mw;
    }

    /** middlewareToHandlers: a fresh slice holding the middleware, index by
        index. */
    method MiddlewareToHandlers() returns (hs: seq<Handler>)
      ensures hs == middleware
    {
      var a := new Handler[|middleware|];
      for i := 0 to |middleware|
        invariant a[..i] == middleware[..i]
      {
        a[i] := middleware[i];
      }
      hs := a[..];
    }

    /** RouteNode.findChild on node cur. */
    method FindChild(cur: nat, k: Key) returns (c: Option<nat>)
      requires ValidNodes(nodes) && cur < |nodes|
      ensures c == ChildWith(nodes, nodes[cur].children, k)
    {
      var cs := nodes[cur].children;
      assert Siblings(nodes, cs);
      for i := 0 to |cs|
        invariant ChildWith(nodes, cs[i..], k) == ChildWith(nodes, cs, k)
      {
        assert cs[i..][0] == cs[i] && cs[i..][1..] == cs[i + 1..];
        if KeyOf(nodes[cs[i]]) == k {
          return Some(cs[i]);
        }
      }
      assert cs[|cs|..] == [];
      c := None;
    }

    /** Router.Add. Returns true where the Go code panics. */
    method Add(verb: string, path: string, inputs: seq<Input>) returns (panicked: bool)
      requires Valid()
      modifies this
      ensures Valid() && AddResult(Model(), panicked) == AddSpec(old(Model()), verb, path, inputs)
    {
      ghost var spec := AddSpec(Model(), verb, path, inputs);
      if verb !in routes {
        routes := routes[verb := map[]];
      }
      var routeHandlers := MiddlewareToHandlers();
      var converted := ConvertHandlers(inputs);
      if converted.None? {
        assert Model() == spec.router;
        return true;
      }
      routeHandlers := routeHandlers + converted.value;
      var main := Composed(routeHandlers);
      var np := NormalizePath(path);
      var parts := GetPathParts(np);
      routes := routes[verb := routes[verb][np := Route(np, main, verb, parts)]];
      assert routes == spec.router.routes;
      InsertParts(parts, np, main);
      assert Model() == spec.router;
      panicked := false;
    }

    /** The trie half of Add: walk the segments from the root, reusing or
        appending a child per segment, and mark the last one. */
    method InsertParts(parts: seq<string>, np: string, main: Option<Chain>)
      requires ValidNodes(nodes)
      modifies this
      ensures nodes == Insert(old(nodes), 0, parts, np, main)
      ensures routes == old(routes) && middleware == old(middleware)
    {
      ghost var nodes0 := nodes;
      var current: nat := 0;
      var j := 0;
      assert parts[0..] == parts;
      while j < |parts|
        invariant 0 <= j <= |parts|
        invariant ValidNodes(nodes) && current < |nodes|
        invariant Insert(nodes, current, parts[j..], np, main) == Insert(nodes0, 0, parts, np, main)
        invariant routes == old(routes) && middleware == old(middleware)
      {
        current := InsertStep(current, parts, j, np, main);
        j := j + 1;
      }
      assert parts[j..] == [];
    }

    /** One pass of Add's trie loop: descend by parts[j], and mark the node
        reached when parts[j] is the last segment. */
    method InsertStep(current: nat, parts: seq<string>, j: nat, np: string, main: Option<Chain>)
      returns (c: nat)
      requires ValidNodes(nodes) && current < |nodes| && j < |parts|
      modifies this
      ensures ValidNodes(nodes) && c < |nodes|
      ensures Insert(old(nodes), current, parts[j..], np, main) == Insert(nodes, c, parts[j + 1..], np, main)
      ensures routes == old(routes) && middleware == old(middleware)
    {
      ghost var rest := parts[j..];
      assert rest[0] == parts[j] && rest[1..] == parts[j + 1..];
      c := DescendStep(current, parts[j]);
      ghost var grown := nodes;
      if j == |parts| - 1 {
        MarkNode(c, np, main);
      }
      assert nodes == if |rest| == 1 then Mark(grown, c, np, main) else grown;
    }

    /** One iteration of Add's trie loop: findChild, or append a new child. */
    method DescendStep(current: nat, seg: string) returns (c: nat)
      requires ValidNodes(nodes) && current < |nodes|
      modifies this
      ensures (nodes, c) == Descend(old(nodes), current, seg)
      ensures routes == old(routes) && middleware == old(middleware)
    {
      var k := Classify(seg);
      var child := FindChild(current, k);
      if child.None? {
        c := |nodes|;
        nodes := nodes + [Node("", k.part, [], None, k.isParam, k.isWild)];
        nodes := nodes[current := nodes[current].(children := nodes[current].children + [c])];
      } else {
        c := child.value;
      }
    }

    /** `child.handler = mainHandler; child.path = path` */
    method MarkNode(c: nat, np: string, main: Option<Chain>)
      requires ValidNodes(nodes) && c < |nodes|
      modifies this
      ensures nodes == Mark(old(nodes), c, np, main)
      ensures routes == old(routes) && middleware == old(middleware)
    {
      nodes := nodes[c := nodes[c].(handler := main, path := np)];
    }

    /** RouteNode.find from node n; `params` is the shared map, passed in
        and handed back. */
    method FindNode(n: nat, parts: seq<string>, params: map<string, string>)
      returns (found: Option<nat>, params': map<string, string>)
      requires ValidNodes(nodes) && n < |nodes|
      ensures Hit(found, params') == FindNodeF(nodes, n, parts, params)
      decreases |parts|
    {
      if parts == [] {
        return Some(n), params;
      }
      var part, rest := parts[0], parts[1..];
      var cs := nodes[n].children;
      assert Siblings(nodes, cs);
      params' := params;
      for i := 0 to |cs|
        invariant FindAmong(nodes, n, i, part, rest, params') == FindNodeF(nodes, n, parts, params)
      {
        var c := cs[i];
        if nodes[c].isWild {
          params' := params'["*" := Join([part] + rest)];
          return Some(c), params';
        }
        if nodes[c].isParam {
          params' := params'[nodes[c].part := part];
          var m;
          m, params' := FindNode(c, rest, params');
          if m.Some? {
            return m, params';
          }
        } else if nodes[c].part == part {
          var m;
          m, params' := FindNode(c, rest, params');
          if m.Some? {
            return m, params';
          }
        }
      }
      found := None;
    }

    /** Router.Find */
    method Find(verb: string, path: string) returns (handler: Option<Chain>, params: Option<map<string, string>>)
      requires ValidNodes(nodes)
      ensures Lookup(handler, params) == FindSpec(Model(), verb, path)
    {
      if verb in routes && path in routes[verb] {
        return routes[verb][path].handler, None;
      }
      var parts := GetPathParts(path);
      var node, ps := FindNode(0, parts, map[]);
      if node.Some? && nodes[node.value].handler.Some? {
        if verb in routes && nodes[node.value].path in routes[verb] {
          return routes[verb][nodes[node.value].path].handler, Some(ps);
        }
      }
      return None, None;
    }

    /** Router.findRoute: scan the method's entries, in no fixed order, for
        one whose path field equals path. */
    method FindRoute(path: string, verb: string) returns (r: Option<Route>)
      ensures r.Some? ==> verb in routes && r.value.path == path &&
                          exists q :: q in routes[verb] && routes[verb][q] == r.value
      ensures r.None? ==> verb !in routes || forall q :: q in routes[verb] ==> routes[verb][q].path != path
      ensures Valid() ==> r == if verb in routes && path in routes[verb] then Some(routes[verb][path]) else None
    {
      var table := if verb in routes then routes[verb] else map[];
      var keys := table.Keys;
      while keys != {}
        invariant keys <= table.Keys
        invariant forall q :: q in table && q !in keys ==> table[q].path != path
        decreases |keys|
      {
        var q :| q in keys;
        if table[q].path == path {
          assert Valid() ==> q == path;
          return Some(table[q]);
        }
        keys := keys - {q};
      }
      r := None;
    }
  }

  /** The conversion loop of Add: each argument in turn, stopping at the
      first that panics (None). */
  method ConvertHandlers(inputs: seq<Input>) returns (hs: Option<seq<Handler>>)
    ensures hs == ConvertAll(inputs)
  {
    var acc: seq<Handler> := [];
    assert inputs[..0] == [];
    for i := 0 to |inputs|
      invariant ConvertAll(inputs[..i]) == Some(acc)
    {
      var rh := ConvertToRouteHandler(inputs[i]);
      assert inputs[..i + 1][..i] == inputs[..i];
      if rh.None? {
        assert !ConvertAll(inputs).Some?;
        return None;
      }
      acc := acc + [rh.value];
    }
    assert inputs[..|inputs|] == inputs;
    hs := Some(acc);
  }

  /** Calling `chain(hs)` on context c. Returns true where a panic unwinds. */
  method RunChain(c: C.Context, hs: Chain) returns (panicked: bool)
    requires c.Active()
    modifies c, c.response
    ensures c.Active() && c.Carry() == old(c.Carry())
    ensures C.Outcome(c.State(), panicked) == RunChainF(old(c.State()), hs)
  {
    ghost var start := c.State();
    for i := 0 to |hs|
      invariant c.Active() && c.Carry() == old(c.Carry())
      invariant RunChainF(c.State(), hs[i..]) == RunChainF(start, hs)
    {
      assert hs[i..][0] == hs[i] && hs[i..][1..] == hs[i + 1..];
      panicked := c.Invoke(hs[i]);
      if panicked || c.written {
        return;
      }
    }
    assert hs[|hs|..] == [];
    panicked := false;
  }
}
