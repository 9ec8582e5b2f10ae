/**
 * zinc.go: the App (router, app middleware, services), request dispatch in
 * ServeHTTP, and the Group objects of group.go that forward registrations
 * to the App.
 */
module Zinc {
  import opened Types
  import opened Paths
  import opened Trie
  import R = Responses
  import C = Contexts
  import Rt = Routing
  import G = Groups

  /** The fields of an App that dispatch reads, as one value. */
  datatype AppModel = AppModel(router: Rt.RouterModel, middleware: seq<Handler>, services: map<string, Value>)

  const EmptyApp := AppModel(Rt.EmptyRouter, [], map[])

  const NotFoundBody := "404 page not found\n"

  /** http.NotFound: plain-text headers, status 404, the fixed body. */
  function NotFoundReply(r: Reply): Reply {
    var r1 := R.WithHeader(R.WithHeader(r, R.ContentType, R.TextPlain), R.ContentTypeOptions, R.NoSniff);
    R.WithChunk(R.WithStatus(r1, StatusNotFound), Text(NotFoundBody))
  }

  /** A context from NewContext with the services attached: nothing
      written, cursor before the first handler, status 200, empty maps. */
  function Start(services: map<string, Value>, reply: Reply): (r: State)
    ensures !r.written && r.index == -1 && r.status == StatusOK
    ensures r.params == map[] && r.store == map[] && r.handlers == [] && r.journal == []
    ensures r.services == services && r.reply == reply
  {
    State(false, -1, StatusOK, [], map[], map[], services, reply, [])
  }

  /** The second half of ServeHTTP: look the route up and run it, or 404. */
  function RouteSpec(app: AppModel, req: Request, st: State): (r: C.Outcome)
    requires ValidNodes(app.router.nodes) && st.index >= -1
    ensures C.Keeps(st, r.state)
  {
    var found := Rt.FindSpec(app.router, req.verb, req.path);
    if found.handler.Some? then
      Rt.RunChainF(st.(params := found.params.GetOr(map[])), found.handler.value)
    else C.Outcome(st.(reply := NotFoundReply(st.reply)), false)
  }

  /** App.ServeHTTP on a sink whose recorded reply is `reply`. */
  function ServeSpec(app: AppModel, req: Request, reply: Reply): (r: C.Outcome)
    requires ValidNodes(app.router.nodes)
    ensures r.state.services == app.services
  {
    var st := Start(app.services, reply);
    if |app.middleware| > 0 then
      var o := C.NextSpec(C.SetHandlersSpec(st, app.middleware));
      if o.panicked || o.state.written then o
      else RouteSpec(app, req, o.state)
    else RouteSpec(app, req, st)
  }

  /** With no app middleware, a request that finds no handler gets the
      404 reply and nothing else happens. */
  lemma MissIsNotFound(app: AppModel, req: Request, reply: Reply)
    requires ValidNodes(app.router.nodes) && app.middleware == []
    requires Rt.FindSpec(app.router, req.verb, req.path).handler.None?
    ensures ServeSpec(app, req, reply)
            == C.Outcome(Start(app.services, reply).(reply := NotFoundReply(reply)), false)
  {
  }

  /** A new App, with no route registered, answers every request with the
      404 reply (the router's root node is in place from the start). */
  lemma EmptyAppNotFound(services: map<string, Value>, req: Request, reply: Reply)
    ensures ServeSpec(AppModel(Rt.EmptyRouter, [], services), req, reply)
            == C.Outcome(Start(services, reply).(reply := NotFoundReply(reply)), false)
  {
    var app := AppModel(Rt.EmptyRouter, [], services);
    Rt.FindUnknownMethod(app.router, req.verb, req.path);
    MissIsNotFound(app, req, reply);
  }

  /** A found route runs once, on a context whose params are the ones Find
      captured (none on a table hit). */
  lemma HitRunsChain(app: AppModel, req: Request, reply: Reply)
    requires ValidNodes(app.router.nodes) && app.middleware == []
    requires Rt.FindSpec(app.router, req.verb, req.path).handler.Some?
    ensures var found := Rt.FindSpec(app.router, req.verb, req.path);
      ServeSpec(app, req, reply)
        == Rt.RunChainF(Start(app.services, reply).(params := found.params.GetOr(map[])), found.handler.value)
  {
  }

  /** When the app middleware writes the response, the router is never
      consulted: the outcome is the same whatever routes are registered. */
  lemma WrittenMiddlewareSkipsRouting(app: AppModel, other: Rt.RouterModel, req: Request, reply: Reply)
    requires ValidNodes(app.router.nodes) && ValidNodes(other.nodes) && |app.middleware| > 0
    requires C.NextSpec(C.SetHandlersSpec(Start(app.services, reply), app.middleware)).state.written
    ensures ServeSpec(app, req, reply) == ServeSpec(app.(router := other), req, reply)
    ensures ServeSpec(app, req, reply)
            == C.NextSpec(C.SetHandlersSpec(Start(app.services, reply), app.middleware))
  {
  }

  /** Middleware that only calls Next runs entirely, in order, before the
      route; the route's handlers then see the cursor past the end, so a
      route handler's own Next does nothing. */
  lemma ForwardingMiddlewareThenRoute(app: AppModel, req: Request, reply: Reply)
    requires ValidNodes(app.router.nodes) && |app.middleware| > 0
    requires forall j :: 0 <= j < |app.middleware| ==> app.middleware[j].script == [CallNext]
    ensures var st := Start(app.services, reply).(handlers := app.middleware, index := |app.middleware|,
                                                  journal := C.Names(app.middleware));
      ServeSpec(app, req, reply) == RouteSpec(app, req, st)
  {
    var st0 := C.SetHandlersSpec(Start(app.services, reply), app.middleware);
    C.ForwardingChain(st0);
    assert app.middleware[0..] == app.middleware;
  }

  /** The four handlers of the middleware-order scenario: two app
      middleware that call Next, a route handler that calls Next, and one
      that writes JSON. */
  const G1 := Handler("global1", [CallNext])
  const G2 := Handler("global2", [CallNext])
  const H1 := Handler("handler1", [CallNext])
  const H2 := Handler("handler2", [SendJson(Object("order"))])

  /** A handler whose only action is Next, called with the cursor at or
      past the end: it is journaled and only moves the cursor. */
  lemma ForwardPastEnd(st: State, h: Handler)
    requires st.index >= |st.handlers| && h.script == [CallNext]
    ensures C.InvokeSpec(st, h) == C.Outcome(st.(index := st.index + 1, journal := st.journal + [h.name]), false)
  {
    C.InvokeForwarder(st, h);
    C.NextPastEnd(st.(journal := st.journal + [h.name]));
  }

  /** A handler whose only action is JSON, on an unwritten response: it is
      journaled and writes. */
  lemma JsonWrites(st: State, h: Handler, v: Value)
    requires st.index >= -1 && !st.written && h.script == [SendJson(v)]
    ensures var r := C.InvokeSpec(st, h);
      !r.panicked && r.state.written && r.state.journal == st.journal + [h.name]
  {
    var t := st.(journal := st.journal + [h.name]);
    assert C.RunSpec(t, h.script) == C.StepSpec(t, SendJson(v)) by {
      assert h.script[1..] == [];
    }
  }

  /** A route chain of a forwarding handler then a writing one, run with
      the cursor past the end (as after the app middleware): the first
      handler's Next does nothing and the second writes. */
  lemma ForwardThenWrite(st: State, h1: Handler, h2: Handler, v: Value)
    requires st.index >= |st.handlers| && !st.written
    requires h1.script == [CallNext] && h2.script == [SendJson(v)]
    ensures var r := Rt.RunChainF(st, [h1, h2]);
      !r.panicked && r.state.written && r.state.journal == st.journal + [h1.name, h2.name]
  {
    var s1 := st.(index := st.index + 1, journal := st.journal + [h1.name]);
    var hs := [h1, h2];
    assert Rt.RunChainF(st, hs) == Rt.RunChainF(s1, [h2]) by {
      ForwardPastEnd(st, h1);
      assert hs[0] == h1 && hs[1..] == [h2];
    }
    assert Rt.RunChainF(s1, [h2]) == C.InvokeSpec(s1, h2) by {
      JsonWrites(s1, h2, v);
      assert [h2][0] == h2;
    }
    JsonWrites(s1, h2, v);
    assert s1.journal + [h2.name] == st.journal + [h1.name, h2.name];
  }

  /** The scenario's route: GET `path` with handler1 then handler2 on a
      router without middleware is an exact hit with that chain. */
  lemma ScenarioRoute(m: Rt.RouterModel, path: string)
    requires Rt.ValidModel(m) && m.middleware == []
    ensures var router := Rt.AddSpec(m, Rt.MethodGet, path, [FuncInput(H1), FuncInput(H2)]).router;
      Rt.FindSpec(router, Rt.MethodGet, NormalizePath(path)) == Rt.Lookup(Some([H1, H2]), None)
  {
    var inputs := [FuncInput(H1), FuncInput(H2)];
    var hs := Rt.ConvertAll(inputs).value;
    assert Rt.ConvertToRouteHandler(inputs[0]) == Some(hs[0]);
    assert Rt.ConvertToRouteHandler(inputs[1]) == Some(hs[1]);
    assert hs == [H1, H2];
    Rt.AddThenFind(m, Rt.MethodGet, path, inputs);
    assert [] + hs == hs;
  }

  /** The scenario on any router that maps the request to handler1 then
      handler2 by an exact hit. */
  lemma OrderOnHit(app: AppModel, req: Request, reply: Reply)
    requires ValidNodes(app.router.nodes) && app.middleware == [G1, G2] && app.services == map[]
    requires Rt.FindSpec(app.router, req.verb, req.path) == Rt.Lookup(Some([H1, H2]), None)
    ensures var r := ServeSpec(app, req, reply);
      !r.panicked && r.state.written && r.state.journal == ["global1", "global2", "handler1", "handler2"]
  {
    ForwardingMiddlewareThenRoute(app, req, reply);
    assert C.Names([G2]) == ["global2"];
    assert C.Names([G1, G2]) == ["global1", "global2"];
    var st := Start(map[], reply).(handlers := [G1, G2], index := 2, journal := ["global1", "global2"]);
    assert RouteSpec(app, req, st) == Rt.RunChainF(st.(params := map[]), [H1, H2]);
    ForwardThenWrite(st.(params := map[]), H1, H2, Object("order"));
  }

  /** The execution order of test middleware-order: two app middleware,
      then two route handlers on GET `path`, give global1, global2,
      handler1, handler2. */
  lemma MiddlewareOrder(m: Rt.RouterModel, path: string, reply: Reply)
    requires Rt.ValidModel(m) && m.middleware == []
    ensures var router := Rt.AddSpec(m, Rt.MethodGet, path, [FuncInput(H1), FuncInput(H2)]).router;
      var r := ServeSpec(AppModel(router, [G1, G2], map[]), Request(Rt.MethodGet, NormalizePath(path), map[]), reply);
      !r.panicked && r.state.written && r.state.journal == ["global1", "global2", "handler1", "handler2"]
  {
    var router := Rt.AddSpec(m, Rt.MethodGet, path, [FuncInput(H1), FuncInput(H2)]).router;
    ScenarioRoute(m, path);
    OrderOnHit(AppModel(router, [G1, G2], map[]), Request(Rt.MethodGet, NormalizePath(path), map[]), reply);
  }

  /** Test middleware-termination: a middleware that sets a status and
      sends text, without calling Next, answers the request itself with that
      status and body, whatever routes exist. */
  lemma MiddlewareTermination(app: AppModel, other: Rt.RouterModel, req: Request, reply: Reply,
                              h: Handler, code: int, text: string)
    requires ValidNodes(app.router.nodes) && ValidNodes(other.nodes)
    requires app.middleware == [h] && h.script == [SetStatus(code), SendValue(Str(text))] && code != 0
    ensures var r := ServeSpec(app, req, reply);
      && !r.panicked && r.state.written && r.state.status == code
      && r.state.reply.statuses == reply.statuses + [code]
      && r.state.reply.body == reply.body + [Text(text)]
      && r.state.journal == [h.name]
      && r == ServeSpec(app.(router := other), req, reply)
  {
    var st := C.SetHandlersSpec(Start(app.services, reply), [h]).(index := 0);
    var t := st.(journal := [h.name]);
    var t1 := C.StatusSpec(t, code);
    assert C.StepSpec(t, SetStatus(code)) == C.Outcome(t1, false);
    assert h.script[1..] == [SendValue(Str(text))] && h.script[1..][1..] == [];
    var t2 := R.Send(t1, Str(text)).state;
    assert C.RunSpec(t2, []) == C.Outcome(t2, false);
    assert C.RunSpec(t1, h.script[1..]) == C.Outcome(t2, false);
    assert C.RunSpec(t, h.script) == C.Outcome(R.Send(t1, Str(text)).state, false);
    assert st.journal + [h.name] == [h.name];
    assert C.InvokeSpec(st, h) == C.RunSpec(t, h.script);
    assert C.NextSpec(C.SetHandlersSpec(Start(app.services, reply), [h])) == C.InvokeSpec(st, h);
    assert t2.written && t2.status == code && t2.reply.body == reply.body + [Text(text)];
    WrittenMiddlewareSkipsRouting(app, other, req, reply);
  }

  /** Test context-store: a value a middleware stores before calling Next
      is in the store of the context the route then runs on. */
  lemma StoreReachesRoute(app: AppModel, req: Request, reply: Reply, h: Handler, key: string, v: Value)
    requires ValidNodes(app.router.nodes)
    requires app.middleware == [h] && h.script == [SetValue(key, v), CallNext]
    ensures var st := Start(app.services, reply).(handlers := [h], index := 1, store := map[key := v], journal := [h.name]);
      ServeSpec(app, req, reply) == RouteSpec(app, req, st)
  {
    var st := C.SetHandlersSpec(Start(app.services, reply), [h]).(index := 0);
    var t := st.(journal := [h.name]);
    var t1 := C.SetSpec(t, key, v);
    assert C.StepSpec(t, SetValue(key, v)) == C.Outcome(t1, false);
    C.NextPastEnd(t1);
    assert C.StepSpec(t1, CallNext) == C.NextSpec(t1);
    assert h.script[1..] == [CallNext] && h.script[1..][1..] == [];
    assert C.RunSpec(t1.(index := 1), []) == C.Outcome(t1.(index := 1), false);
    assert C.RunSpec(t1, h.script[1..]) == C.Outcome(t1.(index := 1), false);
    assert C.RunSpec(t, h.script) == C.Outcome(t1.(index := 1), false);
    assert st.journal + [h.name] == [h.name];
    assert C.InvokeSpec(st, h) == C.RunSpec(t, h.script);
    assert C.NextSpec(C.SetHandlersSpec(Start(app.services, reply), [h])) == C.InvokeSpec(st, h);
  }

  /** A path registered only under GET is not found under POST, which
      therefore answers 404. */
  lemma MethodMismatchIsNotFound(path: string, inputs: seq<Input>, reply: Reply)
    ensures var router := Rt.AddSpec(Rt.EmptyRouter, Rt.MethodGet, path, inputs).router;
      var app := AppModel(router, [], map[]);
      ServeSpec(app, Request(Rt.MethodPost, path, map[]), reply)
        == C.Outcome(Start(map[], reply).(reply := NotFoundReply(reply)), false)
  {
    var router := Rt.AddSpec(Rt.EmptyRouter, Rt.MethodGet, path, inputs).router;
    assert Rt.MethodPost !in router.routes;
    Rt.FindUnknownMethod(router, Rt.MethodPost, path);
    MissIsNotFound(AppModel(router, [], map[]), Request(Rt.MethodPost, path, map[]), reply);
  }

  /** A handler that reads a registered service stores exactly the value
      registered with the App. */
  lemma ServiceVisible(services: map<string, Value>, name: string, key: string, reply: Reply)
    requires name in services
    ensures var h := Handler("service-test", [LoadService(name, key)]);
      var st := Start(services, reply);
      C.InvokeSpec(st, h) == C.Outcome(st.(store := map[key := services[name]], journal := ["service-test"]), false)
  {
    var h := Handler("service-test", [LoadService(name, key)]);
    var st := Start(services, reply);
    var t := st.(journal := ["service-test"]);
    assert st.journal + [h.name] == ["service-test"];
    assert C.RunSpec(t, h.script) == C.StepSpec(t, LoadService(name, key)) by {
      assert h.script[1..] == [];
    }
  }

  /** Asking for a service that was never registered panics the request. */
  lemma MissingServicePanics(services: map<string, Value>, name: string, key: string, reply: Reply, h: Handler)
    requires name !in services && h.script == [LoadService(name, key)]
    ensures C.InvokeSpec(Start(services, reply), h).panicked
  {
    var t := Start(services, reply).(journal := [h.name]);
    assert [] + [h.name] == [h.name];
    assert C.StepSpec(t, LoadService(name, key)).panicked;
  }

  /** http.NotFound on the sink. */
  method NotFound(w: R.ResponseRecorder)
    modifies w
    ensures w.Reply() == NotFoundReply(old(w.Reply()))
  {
    w.SetHeader(R.ContentType, R.TextPlain);
    w.SetHeader(R.ContentTypeOptions, R.NoSniff);
    w.WriteHeader(StatusNotFound);
    w.Write(Text(NotFoundBody));
  }

  /** The App object. */
  class App {
    const router: Rt.Router
    var middleware: seq<Handler>
    var services: map<string, Value>

    ghost function Model(): AppModel
      reads this, router
    {
      AppModel(router.Model(), middleware, services)
    }

    ghost predicate Valid()
      reads this, router
    {
      router.Valid()
    }

    /** New: an empty router, no middleware, no services. */
    constructor ()
      ensures Valid() && Model() == EmptyApp && fresh(router)
    {
      router := new Rt.Router();
      middleware := [];
      services := map[];
    }

    /** App.Use: append, keeping the earlier entries. */
    method Use(mw: seq<Handler>)
      modifies this
      ensures middleware == old(middleware) + mw && services == old(services)
    {
      middleware := middleware + mw;
    }

    /** App.Service: register (or replace) a service by name. */
    method Service(name: string, service: Value)
      modifies this
      ensures services == old(services)[name := service] && middleware == old(middleware)
    {
      services := services[name := service];
    }

    method Get(path: string, inputs: seq<Input>) returns (panicked: bool)
      requires Valid()
      modifies router
      ensures Valid() && Rt.AddResult(router.Model(), panicked) == Rt.AddSpec(old(router.Model()), Rt.MethodGet, path, inputs)
    {
      panicked := router.Add(Rt.MethodGet, path, inputs);
    }

    method Post(path: string, inputs: seq<Input>) returns (panicked: bool)
      requires Valid()
      modifies router
      ensures Valid() && Rt.AddResult(router.Model(), panicked) == Rt.AddSpec(old(router.Model()), Rt.MethodPost, path, inputs)
    {
      panicked := router.Add(Rt.MethodPost, path, inputs);
    }

    method Put(path: string, inputs: seq<Input>) returns (panicked: bool)
      requires Valid()
      modifies router
      ensures Valid() && Rt.AddResult(router.Model(), panicked) == Rt.AddSpec(old(router.Model()), Rt.MethodPut, path, inputs)
    {
      panicked := router.Add(Rt.MethodPut, path, inputs);
    }

    method Delete(path: string, inputs: seq<Input>) returns (panicked: bool)
      requires Valid()
      modifies router
      ensures Valid() && Rt.AddResult(router.Model(), panicked) == Rt.AddSpec(old(router.Model()), Rt.MethodDelete, path, inputs)
    {
      panicked := router.Add(Rt.MethodDelete, path, inputs);
    }

    method Patch(path: string, inputs: seq<Input>) returns (panicked: bool)
      requires Valid()
      modifies router
      ensures Valid() && Rt.AddResult(router.Model(), panicked) == Rt.AddSpec(old(router.Model()), Rt.MethodPatch, path, inputs)
    {
      panicked := router.Add(Rt.MethodPatch, path, inputs);
    }

    method Head(path: string, inputs: seq<Input>) returns (panicked: bool)
      requires Valid()
      modifies router
      ensures Valid() && Rt.AddResult(router.Model(), panicked) == Rt.AddSpec(old(router.Model()), Rt.MethodHead, path, inputs)
    {
      panicked := router.Add(Rt.MethodHead, path, inputs);
    }

    method Options(path: string, inputs: seq<Input>) returns (panicked: bool)
      requires Valid()
      modifies router
      ensures Valid() && Rt.AddResult(router.Model(), panicked) == Rt.AddSpec(old(router.Model()), Rt.MethodOptions, path, inputs)
    {
      panicked := router.Add(Rt.MethodOptions, path, inputs);
    }

    method Connect(path: string, inputs: seq<Input>) returns (panicked: bool)
      requires Valid()
      modifies router
      ensures Valid() && Rt.AddResult(router.Model(), panicked) == Rt.AddSpec(old(router.Model()), Rt.MethodConnect, path, inputs)
    {
      panicked := router.Add(Rt.MethodConnect, path, inputs);
    }

    method Trace(path: string, inputs: seq<Input>) returns (panicked: bool)
      requires Valid()
      modifies router
      ensures Valid() && Rt.AddResult(router.Model(), panicked) == Rt.AddSpec(old(router.Model()), Rt.MethodTrace, path, inputs)
    {
      panicked := router.Add(Rt.MethodTrace, path, inputs);
    }

    /** App.Group */
    method Group(prefix: string) returns (g: Group)
      ensures fresh(g) && g.prefix == G.AppGroupPrefix(prefix) && g.app == this
    {
      g := new Group(G.AppGroupPrefix(prefix), this);
    }

    /** App.ServeHTTP. The context is acquired fresh, reset, given the
        services, and released on every exit. Returns true where a panic
        unwinds, and (as ghost) the context state when dispatch ended. */
    method ServeHTTP(w: R.ResponseRecorder, r: Request) returns (panicked: bool, ghost st: State)
      requires Valid()
      modifies w
      ensures C.Outcome(st, panicked) == ServeSpec(Model(), r, old(w.Reply()))
      ensures w.Reply() == st.reply
    {
      var ctx := new C.Context();
      ctx.Reset(w, r);
      ctx.services := services;
      assert ctx.State() == Start(services, old(w.Reply()));
      if |middleware| > 0 {
        ctx.SetHandlers(middleware);
        panicked := ctx.Next();
        if panicked || ctx.written {
          st := ctx.State();
          ctx.Release();
          return;
        }
      }
      panicked := RouteRequest(ctx, r);
      st := ctx.State();
      ctx.Release();
    }

    /** The lookup half of ServeHTTP, on the context the middleware left. */
    method RouteRequest(ctx: C.Context, r: Request) returns (panicked: bool)
      requires Valid() && ctx.Active()
      modifies ctx, ctx.response
      ensures ctx.Active() && ctx.Carry() == old(ctx.Carry())
      ensures C.Outcome(ctx.State(), panicked) == RouteSpec(Model(), r, old(ctx.State()))
    {
      var handler, params := router.Find(r.verb, r.path);
      if handler.Some? {
        ctx.pathParams := params.GetOr(map[]);
        panicked := Rt.RunChain(ctx, handler.value);
        return;
      }
      NotFound(ctx.response);
      panicked := false;
    }
  }

  /** A route group: a prefix and the App its routes go to. */
  class Group {
    const prefix: string
    const app: App

    constructor (prefix: string, app: App)
      ensures this.prefix == prefix && this.app == app
    {
      this.prefix := prefix;
      this.app := app;
    }

    /** Group.Group */
    method Group(prefix: string) returns (g: Group)
      ensures fresh(g) && g.prefix == G.SubgroupPrefix(this.prefix, prefix) && g.app == app
    {
      g := new Group(G.SubgroupPrefix(this.prefix, prefix), app);
    }

    method Get(path: string, handler: Input) returns (panicked: bool)
      requires app.Valid()
      modifies app.router
      ensures app.Valid()
      ensures Rt.AddResult(app.router.Model(), panicked)
              == Rt.AddSpec(old(app.router.Model()), Rt.MethodGet, G.VerbPath(prefix, path), [handler])
    {
      panicked := app.Get(G.VerbPath(prefix, path), [handler]);
    }

    method Post(path: string, handler: Input) returns (panicked: bool)
      requires app.Valid()
      modifies app.router
      ensures app.Valid()
      ensures Rt.AddResult(app.router.Model(), panicked)
              == Rt.AddSpec(old(app.router.Model()), Rt.MethodPost, G.VerbPath(prefix, path), [handler])
    {
      panicked := app.Post(G.VerbPath(prefix, path), [handler]);
    }

    method Put(path: string, handler: Input) returns (panicked: bool)
      requires app.Valid()
      modifies app.router
      ensures app.Valid()
      ensures Rt.AddResult(app.router.Model(), panicked)
              == Rt.AddSpec(old(app.router.Model()), Rt.MethodPut, G.VerbPath(prefix, path), [handler])
    {
      panicked := app.Put(G.VerbPath(prefix, path), [handler]);
    }

    method Delete(path: string, handler: Input) returns (panicked: bool)
      requires app.Valid()
      modifies app.router
      ensures app.Valid()
      ensures Rt.AddResult(app.router.Model(), panicked)
              == Rt.AddSpec(old(app.router.Model()), Rt.MethodDelete, G.VerbPath(prefix, path), [handler])
    {
      panicked := app.Delete(G.VerbPath(prefix, path), [handler]);
    }

    method Patch(path: string, handler: Input) returns (panicked: bool)
      requires app.Valid()
      modifies app.router
      ensures app.Valid()
      ensures Rt.AddResult(app.router.Model(), panicked)
              == Rt.AddSpec(old(app.router.Model()), Rt.MethodPatch, G.VerbPath(prefix, path), [handler])
    {
      panicked := app.Patch(G.VerbPath(prefix, path), [handler]);
    }

    method Head(path: string, handler: Input) returns (panicked: bool)
      requires app.Valid()
      modifies app.router
      ensures app.Valid()
      ensures Rt.AddResult(app.router.Model(), panicked)
              == Rt.AddSpec(old(app.router.Model()), Rt.MethodHead, G.VerbPath(prefix, path), [handler])
    {
      panicked := app.Head(G.VerbPath(prefix, path), [handler]);
    }

    method Options(path: string, handler: Input) returns (panicked: bool)
      requires app.Valid()
      modifies app.router
      ensures app.Valid()
      ensures Rt.AddResult(app.router.Model(), panicked)
              == Rt.AddSpec(old(app.router.Model()), Rt.MethodOptions, G.VerbPath(prefix, path), [handler])
    {
      panicked := app.Options(G.VerbPath(prefix, path), [handler]);
    }
  }

  /** A route registered through a group is answered by an exact table hit
      on the group path, with the router middleware and the handler. */
  lemma GroupRouteFound(m: Rt.RouterModel, verb: string, prefix: string, path: string, handler: Input)
    requires Rt.ValidModel(m) && !handler.OtherInput?
    ensures var full := G.VerbPath(prefix, path);
      var r := Rt.AddSpec(m, verb, full, [handler]);
      !r.panicked &&
      Rt.FindSpec(r.router, verb, full) == Rt.Lookup(Some(m.middleware + [Rt.ConvertToRouteHandler(handler).value]), None)
  {
    var full := G.VerbPath(prefix, path);
    G.VerbPathIsNormal(prefix, path);
    Rt.AddThenFind(m, verb, full, [handler]);
    var hs := Rt.ConvertAll([handler]).value;
    assert Rt.ConvertToRouteHandler([handler][0]) == Some(hs[0]);
    assert hs == [Rt.ConvertToRouteHandler(handler).value];
  }
}
