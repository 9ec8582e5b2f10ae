# zinc routing and dispatch, modelled in Dafny

This project models the request-routing core of zinc, a small Go web
framework. It covers:

- path tokenizing and normalising;
- route registration into a `method -> path -> Route` table and into one
  segment trie shared by every method;
- route lookup: an exact table hit first, then a trie walk with `:param`
  and `*wildcard` segments;
- handler chains and the `Context.Next` cursor;
- the written-flag state machine of `Send`, `JSON`, `HTML` and `Static`;
- route-group prefix arithmetic;
- the dispatcher `App.ServeHTTP`.

Go closures cannot be modelled directly. A handler is a value
`Handler(name, script)`, where the script is a sequence of the context
calls the closure makes (`Set`, `Service`, `Param`, `Next`, `Status`,
`Send`, `JSON`, `HTML`, `Static`). Running a handler journals its name.
The journal is a ghost field of the context, and it plays the part of the
`order` slice that the middleware-order test captures.

A panic is a `panicked` flag. There are three sources of one:

- `Service` of an unregistered name;
- an unsupported handler type in a registration;
- the nil-root case in the Findings below.

Modules, one per file:

- `Types` (types.dfy): request, values, actions, handlers and the context
  state value.
- `Paths` (paths.dfy): `getPathParts` as an index loop proved equal to a
  reference tokenization `Segments`, and `normalizePath`.
- `Responses` (response.dfy): a recording response sink class (header
  map, status calls, body chunks), plus `Send`, `JSON`, `HTML` and
  `Static` as transitions of the context state.
- `Contexts` (context.dfy): `Next` and the handler interpreter as
  functions on the state value, and the `Context` class whose methods
  update its fields and are proved equal to those functions.
- `Trie` (trie.dfy): the `RouteNode` trie as an arena of nodes. Children
  are indices in insertion order and node 0 is the root. This file holds
  insertion, `find` with its shared params map, and a reference
  reachability relation.
- `Routing` (router.dfy): `Add` and `Find` as functions on the router
  value, the `Router` class whose methods are proved equal to them, and
  `chain`.
- `Groups` (group.dfy): `strings.Trim(s, "/")` and the group prefixes.
- `Zinc` (zinc.dfy): the `App` and `Group` classes, and `ServeHTTP`,
  proved equal to the dispatch function `ServeSpec`.
- `Scenarios` (scenarios.dfy): the routers that TestParameterizedRoutes,
  TestNestedRoutes and TestWildcardRoutes in zinc_test.go build with
  `Add`, and what `Find` returns on their requests.

## Model

| member | source | states |
|---|---|---|
| Paths.GetPathParts | router.go:52-80 | the parts are exactly the maximal non-`/` runs of the path, in order (the reference `Segments`); every part is non-empty and slash-free; `""` and `"/"` give none |
| Paths.LeadingSlash | router.go:61-64 | a leading `/` produces no segment |
| Paths.TrailingSlash | router.go:66-77 | a trailing `/` produces no segment |
| Paths.RepeatedSlash | router.go:66-73 | a doubled `/` tokenizes exactly as a single one, so a run of slashes adds no empty segment |
| Paths.SegmentsOfJoin | router.go:52-80 | joining slash-free non-empty segments with `/` and tokenizing gives them back |
| Paths.SegmentsAreSegments | router.go:64-78 | every segment is non-empty and contains no `/` |
| Paths.NormalizePath | router.go:236-244 | the result begins with `/`; a path that already does is returned unchanged, otherwise `/` is prefixed (so `""` gives `"/"`) |
| Paths.NormalizeKeepsTrailingSlash | router.go:236-244 | normalising never strips a trailing slash |
| Paths.NormalizeIdempotent | router.go:236-244 | normalising twice is normalising once |
| Paths.NormalizeKeepsSegments | router.go:236-244 | normalising does not change the segments |
| Responses.ResponseRecorder.constructor | zinc.go:30 | the recorder stands for the `http.ResponseWriter` that ServeHTTP receives; a new one has no header, no status call and no body |
| Responses.ResponseRecorder.SetHeader | response.go:23 | the header map gets the key set to the value, nothing else changes |
| Responses.ResponseRecorder.WriteHeader | response.go:24 | one more status call is recorded, nothing else changes |
| Responses.ResponseRecorder.Write | response.go:25 | one more body chunk is recorded, nothing else changes |
| Responses.Send | response.go:11-40 | an error exactly when already written, and then nothing changes; otherwise written becomes true, status 0 becomes 200, that status is written once, and only the response part of the state changes |
| Responses.Json | response.go:42-63 | the same already-sent refusal and status defaulting as Send |
| Responses.Html | response.go:65-76 | written becomes true with no already-sent check; the HTML content type is set; the status (0 made 200) and the HTML body are written |
| Responses.Static | response.go:78-83 | written becomes true with no already-sent check; the status is unchanged; a file body is recorded |
| Responses.SendByKind | response.go:21-39 | a string gives `text/plain; charset=utf-8`, bytes give `application/octet-stream`, nil sets no header and no body, anything else gives the JSON content type |
| Responses.JsonHeaders | response.go:52-60 | JSON sets the JSON content type and `nosniff`, and writes `null` for nil data |
| Responses.SecondSendRefused | response.go:12-14 | after a first Send or JSON, a second one returns the already-sent error and changes nothing |
| Responses.HtmlAfterSend | response.go:65-76 | HTML after a Send still writes: a second status call and a second body chunk |
| Contexts.NextSpec | context.go:81-86 | the cursor moves forward and past the old position; the chain and services are kept, a written flag is never reset, and the journal only grows |
| Contexts.InvokeSpec | context.go:81-86 | calling a handler journals its name as the next entry, and keeps the facts of NextSpec |
| Contexts.RunSpec | context.go:81-86 | a script keeps the chain and the services, never moves the cursor back or resets written, and only extends the journal |
| Contexts.StepSpec | context.go:73-118 | each context call keeps those same facts |
| Contexts.SetThenGet | context.go:95-102 | Get after Set returns the value set; other keys keep their values |
| Contexts.NextPastEnd | context.go:81-86 | Next at or past the end only increments the cursor, with no cap |
| Contexts.InvokeForwarder | context.go:81-86 | a handler whose only call is Next is journaled and then does exactly what Next does |
| Contexts.NextInRange | context.go:81-86 | Next inside the chain invokes exactly the handler after the cursor |
| Contexts.ForwardingChain | context.go:81-86 | when every installed handler only calls Next, one Next invokes each later handler once, in chain order, and leaves the cursor at the end |
| Contexts.DeleteAll | context.go:55-60 | the delete loop leaves the map empty, and every pass only deletes |
| Contexts.Context.constructor | context.go:28-35 | a pooled context starts with every field zero and empty maps |
| Contexts.Context.Reset | context.go:45-61 | the sink, request, query and method are bound; written is false, index is -1, status is 200, params and store are empty |
| Contexts.Context.BindRequest | context.go:45-52 | the sink, request, query and method are bound, written is false, index is -1 and status is 200; params, store, handlers and services are untouched |
| Contexts.Context.ClearMaps | context.go:54-60 | params and store become empty; the bound request, the flags, handlers and services are kept |
| Contexts.Context.Release | context.go:64-70 | response, request, handlers and query are cleared, nothing else changes |
| Contexts.Context.Service | context.go:73-78 | ServiceSpec of the context state: the registered value, or None (the panic) when the name is not registered |
| Contexts.Context.Get | context.go:100-102 | GetSpec of the context state: the stored value, or nil for an absent key |
| Contexts.Context.Param | context.go:111-113 | ParamSpec of the context state: the captured value, or `""` for an absent name |
| Contexts.Context.Set | context.go:95-97 | the new state is SetSpec of the old one, and the external references are unchanged |
| Contexts.Context.Status | context.go:105-108 | only the status changes, and the same context is returned |
| Contexts.Context.SetHandlers | context.go:89-92 | the handlers are replaced and the cursor is reset to -1 |
| Contexts.Context.Send | response.go:11-40 | the context's new state and error are those of Responses.Send |
| Contexts.Context.JSON | response.go:42-63 | the context's new state and error are those of Responses.Json |
| Contexts.Context.HTML | response.go:65-76 | the context's new state is that of Responses.Html |
| Contexts.Context.Static | response.go:78-83 | the context's new state is that of Responses.Static |
| Contexts.Context.Next | context.go:81-86 | the new state and the panic flag are exactly NextSpec of the old state |
| Contexts.Context.Invoke | context.go:81-86 | running a handler's calls in place gives exactly InvokeSpec |
| Contexts.Context.Perform | context.go:73-118 | performing one context call in place gives exactly StepSpec, and the request bindings are kept |
| Trie.ChildWith | router.go:227-234 | a found child carries the key and is one of the children; none is found exactly when no child has the key |
| Trie.Descend | router.go:123-146 | the key's child is reused or appended, so sibling keys stay distinct and old nodes keep their route data |
| Trie.Grow | router.go:139-146 | a missing child is appended as a new last child of the current node with the given key; sibling keys stay distinct and old nodes keep their keys and route data |
| Trie.Mark | router.go:148-151 | the last segment's node gets the path and handler, and every other node is unchanged |
| Trie.Insert | router.go:123-154 | insertion keeps sibling keys distinct and only appends nodes and children |
| Trie.InsertMarksEnd | router.go:148-151 | the node the pattern ends at holds the registered path and handler |
| Trie.InsertKeepsOthers | router.go:123-154 | no other node's path or handler changes |
| Trie.InsertReachable | router.go:123-154 | when no wildcard comes before the last segment, the registered pattern reaches the node marked for it |
| Trie.FindNodeF | router.go:198-225 | a returned node is in the trie |
| Trie.FindAmong | router.go:208-222 | a returned node is in the trie |
| Trie.FindNodeReaches | router.go:198-225 | the search returns a node only if the parts reach it, and returns some node whenever some node is reachable |
| Trie.FindAmongReaches | router.go:208-222 | the same soundness and completeness for the children loop |
| Trie.FindNodeKeepsKeys | router.go:212-214 | bindings are never removed, so a failed parameter branch leaves its binding behind |
| Trie.FindAmongKeepsKeys | router.go:208-222 | the same for the children loop |
| Trie.Classify | router.go:127-136 | a `:` segment is a parameter named by the rest of the segment; a `*` segment is the wildcard, named `*`; anything else is a literal named by itself; never both kinds |
| Trie.WildcardBindsSuffix | router.go:206-210 | a search ending on a wildcard binds `*` to the segments from the wildcard's own depth on, joined by `/`: the first k segments reach the wildcard's parent, and segments k.. are bound |
| Trie.FindAmongBindsSuffix | router.go:206-222 | the same depth-tied binding for the children loop |
| Trie.WritesKey | router.go:207-213 | the wildcard writes key `*`, a parameter node writes its own name, a literal writes nothing |
| Trie.FindNodeKeepsUnbound | router.go:198-225 | a key that no node below can write keeps its value through the search |
| Trie.FindAmongKeepsUnbound | router.go:208-222 | the same for the children loop |
| Trie.ParamBindsSegment | router.go:212-216 | a search that succeeds through a parameter child returns that child's result, with the child's name bound to the segment it consumed when nothing below rebinds it |
| Trie.FindNodeIgnoresParams | router.go:198-225 | the node the search reaches does not depend on the params map it starts with |
| Trie.FindAmongIgnoresParams | router.go:208-222 | the same for the children loop |
| Trie.FindAmongFirstMatch | router.go:208-222 | the children are tried in insertion order: the result is the first child whose own search succeeds, and the search fails only when every child's does |
| Trie.KeysOf | router.go:123-136 | one key per segment, each the segment's classification |
| Trie.ChainNodes | router.go:138-151 | a fresh chain has one node per key |
| Trie.InsertFresh | router.go:123-154 | registering below a node without children appends one fresh node per segment, each the only child of the one before, and the first becomes that node's only child |
| Trie.ChainLast | router.go:148-151 | the chain's last node carries the route's path and handler; the others carry no handler |
| Trie.ChainFind | router.go:198-225 | a request that fits a chain reaches the chain's last node, and the params map gains exactly the bindings the pattern makes (BindChain) |
| Trie.ChainOnlyFits | router.go:198-225 | a search below the chain ends at the start node, inside the chain, or nowhere, and it reaches the chain's last node only for a fitting request |
| Trie.OnlyChildNode | router.go:208-222 | through an only child, the search reaches what the child's wildcard, parameter or literal rule gives, or nothing |
| Trie.ChainSearch | router.go:198-225 | below a node without a handler, a fitting request finds the route node with the pattern's bindings; any other request ends nowhere or on a node without a handler |
| Routing.ConvertToRouteHandler | router.go:301-316 | an unsupported type gives None (the panic); a function is returned as is; a string becomes a handler that sends it |
| Routing.Composed | router.go:100-103 | nil exactly for an empty handler list; otherwise the chain of exactly those handlers |
| Routing.FindSpec | router.go:159-181 | under a method with no table nothing is found; an exact key answers from the table with nil params; a params map comes only from the trie, for a path that is no exact key, with the handler of a route filed under that method |
| Routing.ConvertAll | router.go:95-98 | the conversion succeeds exactly when no argument has an unsupported type; otherwise it gives one handler per argument, converted in order |
| Routing.AddSpec | router.go:82-157 | the result is valid and the middleware is kept. It panics exactly on an unsupported argument, leaving the trie alone. Otherwise it files the route at the normalised path with the composed chain and tokenized parts. Other entries are unchanged and nothing else is added |
| Routing.FindExact | router.go:159-165 | an exact key answers from the table with nil params |
| Routing.FindTrieSound | router.go:167-176 | a trie answer comes from a node the path reaches, that has a handler, and whose path is registered under the method |
| Routing.FindUnreachableMisses | router.go:167-180 | a path that is no exact key and reaches no node is not found |
| Routing.FindUnknownMethod | router.go:172-180 | nothing is found under a method with no table |
| Routing.AddThenFind | router.go:82-165 | after a registration, its normalised path is an exact hit with the composed chain |
| Routing.AddKeepsOtherExactHits | router.go:105-114 | other methods' exact hits are unchanged |
| Routing.AddMarksTrie | router.go:117-154 | the trie node at the end of the pattern carries the path and chain; without an earlier wildcard, the pattern reaches it |
| Routing.AddChainOrder | router.go:92-103 | the chain is the router middleware first, then the arguments in order, with a string becoming a handler that sends it |
| Routing.FindWithoutRoot | router.go:159-181 | Find as written before any registration reaches the trie: see Findings |
| Routing.NilRootPanics | router.go:170 | any request path with a segment crashes Find as written on a new router, while the model answers Miss |
| Routing.NilRootExample | router.go:170 | `GET /users` on a new router crashes Find as written |
| Routing.ConvertOne | router.go:95-98 | a single function argument converts to that handler |
| Routing.AddUnfold | router.go:82-157 | with convertible arguments, Add files the table entry and inserts the pattern into the trie |
| Routing.SingleRouter | router.go:82-157 | the router one registration builds: its nodes are the trie insert of the pattern into a root-only trie |
| Routing.SingleRouteBuilt | router.go:82-157 | registering one function handler on a new router builds exactly SingleRouter |
| Routing.SingleRouteNodes | router.go:117-154 | on a root-only trie, the insert is the root with the pattern's fresh chain below it |
| Routing.SingleRouterTable | router.go:105-114 | the single route's table holds the pattern's path with the handler, and no other path |
| Routing.SingleChainSearch | router.go:198-225 | on that trie, a fitting request reaches the route node with the pattern's bindings, and any other request ends nowhere or on a node without a handler |
| Routing.SingleRouteTrie | router.go:159-181 | Find on the single-route router for a path other than the pattern: the handler with exactly the pattern's bindings when the path fits, otherwise a miss |
| Routing.SingleRouteFind | router.go:159-181 | Find on a router holding one route, for any request path: the pattern itself is an exact hit with nil params; any other path is found exactly when its segments fit the pattern, each `:name` then bound to its segment and `*` to the rest joined by `/`; every other path misses |
| Routing.RunChainF | router.go:187-196 | running a chain keeps the context facts of Contexts.Keeps |
| Routing.ChainAppend | router.go:187-196 | running a + b is running a, then b, unless a panicked or wrote |
| Routing.ChainStopsAtWrite | router.go:189-193 | the handlers after the first one that writes never run |
| Routing.Router.constructor | zinc.go:23 | an empty table, no middleware, and a root-only trie |
| Routing.Router.Use | router.go:183-185 | the middleware is appended and the earlier entries are kept |
| Routing.Router.MiddlewareToHandlers | router.go:292-298 | a copy of the middleware, element by element |
| Routing.Router.FindChild | router.go:227-234 | the linear scan returns ChildWith |
| Routing.Router.Add | router.go:82-157 | the new router and panic flag are exactly AddSpec of the old router |
| Routing.Router.InsertParts | router.go:117-154 | the trie loop computes Insert |
| Routing.Router.InsertStep | router.go:138-151 | one pass of the loop leaves the same trie to be built from the remaining segments as Insert describes |
| Routing.Router.DescendStep | router.go:138-146 | one loop step computes Descend |
| Routing.Router.MarkNode | router.go:148-151 | the last step computes Mark |
| Routing.Router.FindNode | router.go:198-225 | the recursive search with its shared params map computes FindNodeF |
| Routing.Router.Find | router.go:159-181 | the handler and params are exactly FindSpec |
| Routing.Router.FindRoute | router.go:282-289 | a found route has the path and sits in the method's table; none is found only when no entry has that path; on a well-formed table, the entry at that path |
| Routing.ConvertHandlers | router.go:95-98 | the conversion loop computes ConvertAll |
| Routing.RunChain | router.go:187-196 | the chain loop on a context gives exactly RunChainF |
| Groups.TrimSpec | group.go:13 | Trim keeps a contiguous stretch, removes only slashes around it, and what it keeps neither starts nor ends with `/` |
| Groups.TrimSlashes | group.go:13 | a string of slashes trims to `""` |
| Groups.TrimKeepsSegments | group.go:13 | trimming does not change the segments |
| Groups.TrimOneSlash | group.go:13 | a slash then a slash-free word trims to the word |
| Groups.SegmentsAround | group.go:13 | a `/` between two strings separates their segments |
| Groups.VerbPathIsNormal | group.go:28-61 | a group route begins with `/`, so registration stores it unchanged |
| Groups.VerbPathOfRoot | group.go:29 | registering `/` on a group gives the prefix with a trailing slash |
| Groups.VerbPathSegments | group.go:28-61 | a group route tokenizes to the prefix's segments followed by the path's |
| Groups.SubgroupSegments | group.go:12-18 | a nested prefix tokenizes to the parent's segments followed by the new prefix's |
| Groups.NestedGroupPath | group.go:12-29 | three nested groups with `/` registered innermost give `/a/b/c/` |
| Zinc.Start | context.go:45-61 | the context at the start of ServeHTTP: not written, cursor -1, status 200, no params, store or handlers, and the App's services and the sink attached |
| Zinc.RouteSpec | zinc.go:44-51 | dispatch after middleware keeps the context facts |
| Zinc.ServeSpec | zinc.go:30-52 | a dispatch ends with the app's services still in the context |
| Zinc.MissIsNotFound | zinc.go:44-51 | with no app middleware, a lookup miss gives the 404 reply and nothing else |
| Zinc.EmptyAppNotFound | zinc.go:20-52 | a new App answers every request with 404 (the corrected half of the finding) |
| Zinc.HitRunsChain | zinc.go:44-49 | a hit runs the matched chain once, on a context holding the captured params (empty on a table hit) |
| Zinc.WrittenMiddlewareSkipsRouting | zinc.go:36-42 | when the middleware writes, the outcome is the middleware's and does not depend on the routes |
| Zinc.ForwardingMiddlewareThenRoute | zinc.go:36-47 | middleware that only calls Next all runs in order, then the route runs with the cursor past the end |
| Zinc.ForwardPastEnd | context.go:81-86 | a handler that only calls Next, invoked past the end of the middleware, is journaled and only advances the cursor |
| Zinc.JsonWrites | response.go:42-63 | a handler that only calls JSON on an unwritten response is journaled, does not panic and leaves the response written |
| Zinc.ForwardThenWrite | router.go:187-196 | a route chain of a forwarding handler then a JSON handler, run past the end of the middleware, journals both in order and writes |
| Zinc.ScenarioRoute | router.go:82-157 | on a router without middleware, registering GET handler1 then handler2 makes Find return that chain as an exact hit |
| Zinc.OrderOnHit | zinc.go:30-52 | with forwarding middleware global1, global2 and a route hit on handler1, handler2, serving journals global1, global2, handler1, handler2 and writes |
| Zinc.MiddlewareOrder | zinc_test.go:449-479 | two forwarding middleware and route handlers h1 (Next) and h2 (JSON) run in the order global1, global2, handler1, handler2 |
| Zinc.MiddlewareTermination | zinc_test.go:555-578 | middleware that sets a status and sends text ends the request with that status and body, whatever the routes |
| Zinc.StoreReachesRoute | zinc_test.go:481-514 | a value the middleware stores before Next is in the store the route runs on |
| Zinc.MethodMismatchIsNotFound | zinc_test.go:402-416 | a path registered only under GET answers 404 under POST |
| Zinc.ServiceVisible | zinc_test.go:306-337 | a handler that reads a registered service stores exactly the value registered with the App |
| Zinc.MissingServicePanics | context.go:73-78 | asking for an unregistered service panics |
| Zinc.NotFound | zinc.go:51 | the sink receives the plain-text headers, status 404 and the body `404 page not found\n` |
| Zinc.App.constructor | zinc.go:20-28 | an empty router, no middleware, no services |
| Zinc.App.Use | zinc.go:54-56 | the middleware is appended and the earlier entries are kept |
| Zinc.App.Service | zinc.go:58-60 | the service is registered under its name, replacing any earlier one |
| Zinc.App.Get | router.go:246-248 | registers under GET, exactly as Router.Add |
| Zinc.App.Post | router.go:250-252 | registers under POST, exactly as Router.Add |
| Zinc.App.Put | router.go:254-256 | registers under PUT, exactly as Router.Add |
| Zinc.App.Delete | router.go:258-260 | registers under DELETE, exactly as Router.Add |
| Zinc.App.Patch | router.go:262-264 | registers under PATCH, exactly as Router.Add |
| Zinc.App.Head | router.go:266-268 | registers under HEAD, exactly as Router.Add |
| Zinc.App.Options | router.go:270-272 | registers under OPTIONS, exactly as Router.Add |
| Zinc.App.Connect | router.go:274-276 | registers under CONNECT, exactly as Router.Add |
| Zinc.App.Trace | router.go:278-280 | registers under TRACE, exactly as Router.Add |
| Zinc.App.Group | group.go:21-26 | a new group whose prefix is the trimmed prefix, attached to this App |
| Zinc.App.ServeHTTP | zinc.go:30-52 | the panic flag and the final context state are exactly ServeSpec, and the sink holds that state's reply |
| Zinc.App.RouteRequest | zinc.go:44-51 | finding the route and running it (or replying not found) in place gives exactly RouteSpec |
| Zinc.Group.constructor | group.go:6-9 | a group holds its prefix and its App |
| Zinc.Group.Group | group.go:12-18 | the nested prefix is the parent prefix, `/`, and the trimmed new prefix, on the same App |
| Zinc.Group.Get | group.go:28-31 | forwards one GET registration at the group path with the single handler |
| Zinc.Group.Post | group.go:33-36 | forwards one POST registration at the group path with the single handler |
| Zinc.Group.Put | group.go:38-41 | forwards one PUT registration at the group path with the single handler |
| Zinc.Group.Delete | group.go:43-46 | forwards one DELETE registration at the group path with the single handler |
| Zinc.Group.Patch | group.go:48-51 | forwards one PATCH registration at the group path with the single handler |
| Zinc.Group.Head | group.go:53-56 | forwards one HEAD registration at the group path with the single handler |
| Zinc.Group.Options | group.go:58-61 | forwards one OPTIONS registration at the group path with the single handler |
| Zinc.GroupRouteFound | group.go:28-31 | a group route is then an exact hit at the group path, with the router middleware followed by the handler |
| Scenarios.ParamsRouter | zinc_test.go:60-69 | registering GET `/users/:id` then GET `/files/*path` on a new router builds exactly the two-route router Router2 |
| Scenarios.FindUserParam | zinc_test.go:60-116 | on that router, `/users/` followed by any segment other than `:id` finds the `/users/:id` handler with exactly `{"id": segment}` |
| Scenarios.FindFilesWildcard | zinc_test.go:60-116 | on that router, `/files/` followed by any segments (other than `*path` alone) finds the `/files/*path` handler with exactly `{"*": the segments joined by "/"}` |
| Scenarios.FindUser123 | zinc_test.go:77-82 | `GET /users/123` finds the first route with `{"id": "123"}` |
| Scenarios.FindReport | zinc_test.go:83-88 | `GET /files/docs/report.pdf` finds the second route with `{"*": "docs/report.pdf"}` |
| Scenarios.FindNested | zinc_test.go:418-447 | `GET /api/v1/users/123/posts/456` on `/api/v1/users/:id/posts/:postId` binds exactly `{"id": "123", "postId": "456"}` |
| Scenarios.FindStatic | zinc_test.go:516-553 | on `/static/*filepath`, any request below `/static/` (other than the pattern's own text) binds `*` to exactly the segments after `static`, joined by `/` |
| Scenarios.FindStaticStyle | zinc_test.go:527 | `GET /static/css/style.css` binds `{"*": "css/style.css"}` |

## Left out

- `sync.Pool` reuse of contexts and path buffers (context.go:28-35,
  router.go:46-50) is left out. A pooled context is modelled as a fresh
  object followed by `reset`.
- The aliasing in `getPathParts` is left out. For a root path it
  returns a buffer that it also puts back into the pool
  (router.go:56-58); the model returns a fresh empty sequence.
- `Serve` and `parseArgs` (zinc.go:62-75) are left out. They parse flags
  and listen on the network, and `config.go` only feeds them.
- `Context.Query` and `Context.Body` (context.go:116-128) are left out.
  They are URL-query parsing and JSON decoding of the request stream. The
  query map is carried through `reset` and `release` unchanged.
- JSON encoding is not modelled: an encoded value is an opaque body
  chunk. `http.ServeFile` is likewise a single `File(path)` chunk.
- The response sink records every header set, every `WriteHeader` call
  and every body write. The rules of `net/http` are not modelled: the
  first `WriteHeader` wins, later header changes are ignored, and write
  errors are ignored. So the 404 of `http.NotFound` is the recorded
  calls, not a wire response.
- Panics are flags. The model does not say what `net/http` does when a
  handler panics.
- Contexts.Context.Service: a panic is None, not an unwinding stack.
- Go's nil maps are not distinguished from empty ones. On a table hit,
  `ServeHTTP` sets `PathParams` to the nil map that `Find` returns; the
  model stores an empty map, which every read treats the same way.
- Trie: the model keeps a root node from construction. As written,
  `New` leaves the root nil until the first registration reaches the
  trie (router.go:117-121). The Findings table has the consequence.
- Trie.InsertReachable: stated only for patterns with no wildcard before
  the last segment. A wildcard node answers every remaining segment
  (router.go:207-209), so nodes registered below it are never reached.
- Routing.RunChainF: a route chain is built once per registration, but a
  Go closure can capture mutable state; a handler's script is fixed here.
- Zinc.ServeSpec: the model has no `config` field (zinc.go:13), which
  only the left-out `Serve` reads.
- Routing.SingleRouteFind: the exact match between a pattern and the
  bindings is proved for a router holding one route. With several routes,
  the trie lemmas (first match in insertion order, parameter binding,
  depth-tied wildcard binding) describe the search, and the two-route
  router of TestParameterizedRoutes is worked out in Scenarios.
- Handler types are three kinds of input: a string, a function, or
  anything else. `RouteHandler`, `func(*Context)` and `Middleware`
  (router.go:301-316) are all the function kind.

## Findings

| source | as written | input that shows it | evidently intended | confidence | as-written member | corrected member |
|---|---|---|---|---|---|---|
| zinc.go:23, router.go:170, router.go:206 | `New` creates the router with a nil trie root, and `Find` calls `find` on it; with a segment left to match, `find` ranges over the children of a nil node | `GET /users` on a new App before any route is added | a request with no matching route answers 404 | high, not executed | Routing.FindWithoutRoot (Routing.NilRootPanics, Routing.NilRootExample) | Zinc.EmptyAppNotFound (the model keeps the root from construction) |
