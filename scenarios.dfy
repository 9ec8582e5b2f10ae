/**
 * The routes zinc_test.go registers, built with Router.Add on a new
 * router and then looked up with Router.Find: TestParameterizedRoutes,
 * TestNestedRoutes and TestWildcardRoutes.
 */
module Scenarios {
  import opened Types
  import opened Paths
  import opened Trie
  import opened Routing

  const UsersLit := Node("", "users", [], None, false, false)
  const IdParam := Node("", "id", [], None, true, false)
  const UsersT1 := [Root.(children := [1]), UsersLit]
  const UsersT2 := [Root.(children := [1]), UsersLit.(children := [2]), IdParam]

  lemma SegsUsers()
    ensures Segments("/users/:id") == ["users", ":id"]
  {
    var segs := ["users", ":id"];
    assert Join(segs) == "users/:id" by { assert segs[1..] == [":id"]; }
    SegmentsOfJoin(segs);
    assert "/" + Join(segs) == "/users/:id";
  }

  lemma DescendUsers()
    ensures ValidNodes([Root]) && Descend([Root], 0, "users") == (UsersT1, 1)
  {
    assert Classify("users") == Key("users", false, false);
    assert ChildWith([Root], [], Key("users", false, false)) == None;
    assert [Root] + [UsersLit] == [Root, UsersLit] && Root.children + [1] == [1];
    assert Grow([Root], 0, Key("users", false, false)) == UsersT1;
  }

  lemma DescendId()
    ensures ValidNodes(UsersT1) && Descend(UsersT1, 1, ":id") == (UsersT2, 2)
  {
    DescendUsers();
    assert Classify(":id") == Key("id", true, false);
    assert ChildWith(UsersT1, [], Key("id", true, false)) == None;
    assert UsersT1 + [IdParam] == [Root.(children := [1]), UsersLit, IdParam] && UsersLit.children + [2] == [2];
    assert Grow(UsersT1, 1, Key("id", true, false)) == UsersT2;
  }

  const UsersPath := "/users/:id"
  const FilesPath := "/files/*path"
  const FilesLit := Node("", "files", [], None, false, false)
  const PathWild := Node("", "*", [], None, false, true)

  function UsersT3(main: Option<Chain>): seq<Node> {
    [Root.(children := [1]), UsersLit.(children := [2]), IdParam.(path := UsersPath, handler := main)]
  }

  lemma MarkId(main: Option<Chain>)
    ensures ValidNodes(UsersT2) && Mark(UsersT2, 2, UsersPath, main) == UsersT3(main)
  {
    DescendId();
  }

  lemma InsertIdEnd(main: Option<Chain>)
    ensures ValidNodes(UsersT3(main)) && Insert(UsersT3(main), 2, [], UsersPath, main) == UsersT3(main)
  {
    MarkId(main);
  }

  lemma InsertId(main: Option<Chain>)
    ensures ValidNodes(UsersT1) && Insert(UsersT1, 1, [":id"], UsersPath, main) == UsersT3(main)
  {
    DescendId();
    MarkId(main);
    InsertIdEnd(main);
    InsertUnfold(UsersT1, 1, [":id"], UsersPath, main);
    assert [":id"][1..] == [];
  }

  lemma InsertUsers(main: Option<Chain>)
    ensures ValidNodes([Root]) && Insert([Root], 0, ["users", ":id"], UsersPath, main) == UsersT3(main)
  {
    var parts := ["users", ":id"];
    DescendUsers();
    InsertId(main);
    InsertUnfold([Root], 0, parts, UsersPath, main);
    assert parts[1..] == [":id"];
  }

  function Router1(h1: Handler): RouterModel {
    RouterModel(map[MethodGet := map[UsersPath := Route(UsersPath, Some([h1]), MethodGet, ["users", ":id"])]],
                UsersT3(Some([h1])), [])
  }

  lemma AddUsers(h1: Handler)
    ensures AddSpec(EmptyRouter, MethodGet, UsersPath, [FuncInput(h1)]).router == Router1(h1)
  {
    AddUsersUnfolded(h1);
    Router1Built(h1);
  }

  lemma Router1Built(h1: Handler)
    ensures var main := Some([h1]);
      ValidNodes([Root]) &&
      Router1(h1) == EmptyRouter.(routes := map[MethodGet := map[]][MethodGet := map[][UsersPath := Route(UsersPath, main, MethodGet, ["users", ":id"])]],
                                  nodes := Insert([Root], 0, ["users", ":id"], UsersPath, main))
  {
    var main := Some([h1]);
    var rt := Route(UsersPath, main, MethodGet, ["users", ":id"]);
    assert map[MethodGet := map[]][MethodGet := map[][UsersPath := rt]] == map[MethodGet := map[UsersPath := rt]];
    InsertUsers(main);
  }

  lemma AddUsersUnfolded(h1: Handler)
    ensures var main := Some([h1]);
      AddSpec(EmptyRouter, MethodGet, UsersPath, [FuncInput(h1)]).router
        == EmptyRouter.(routes := map[MethodGet := map[]][MethodGet := map[][UsersPath := Route(UsersPath, main, MethodGet, ["users", ":id"])]],
                        nodes := Insert([Root], 0, ["users", ":id"], UsersPath, main))
  {
    SegsUsers();
    ConvertOne(h1);
    assert [] + [h1] == [h1];
    AddUnfold(EmptyRouter, MethodGet, UsersPath, [FuncInput(h1)]);
    assert NormalizePath(UsersPath) == UsersPath;
  }

  lemma SegsFiles()
    ensures Segments(FilesPath) == ["files", "*path"]
  {
    var segs := ["files", "*path"];
    assert Join(segs) == "files/*path" by { assert segs[1..] == ["*path"]; }
    SegmentsOfJoin(segs);
    assert "/" + Join(segs) == FilesPath;
  }

  function UsersT4(m1: Option<Chain>): seq<Node> {
    [Root.(children := [1, 3]), UsersLit.(children := [2]), IdParam.(path := UsersPath, handler := m1), FilesLit]
  }

  function UsersT5(m1: Option<Chain>): seq<Node> {
    [Root.(children := [1, 3]), UsersLit.(children := [2]), IdParam.(path := UsersPath, handler := m1),
     FilesLit.(children := [4]), PathWild]
  }

  function UsersT6(m1: Option<Chain>, m2: Option<Chain>): seq<Node> {
    [Root.(children := [1, 3]), UsersLit.(children := [2]), IdParam.(path := UsersPath, handler := m1),
     FilesLit.(children := [4]), PathWild.(path := FilesPath, handler := m2)]
  }

  lemma DescendFiles(m1: Option<Chain>)
    ensures ValidNodes(UsersT3(m1)) && Descend(UsersT3(m1), 0, "files") == (UsersT4(m1), 3)
  {
    MarkId(m1);
    var t := UsersT3(m1);
    var k := Key("files", false, false);
    assert Classify("files") == k;
    assert t[0].children == [1] && KeyOf(t[1]) != k;
    assert ChildWith(t, [1], k) == None by {
      assert [1][1..] == [];
    }
    assert t + [FilesLit] == [t[0], t[1], t[2], FilesLit] && t[0].children + [3] == [1, 3];
    assert Grow(t, 0, k) == UsersT4(m1);
  }

  lemma DescendPath(m1: Option<Chain>)
    ensures ValidNodes(UsersT4(m1)) && Descend(UsersT4(m1), 3, "*path") == (UsersT5(m1), 4)
  {
    DescendFiles(m1);
    var t := UsersT4(m1);
    var k := Key("*", false, true);
    assert Classify("*path") == k;
    assert ChildWith(t, [], k) == None;
    assert t + [PathWild] == [t[0], t[1], t[2], t[3], PathWild] && FilesLit.children + [4] == [4];
    assert Grow(t, 3, k) == UsersT5(m1);
  }

  lemma MarkPath(m1: Option<Chain>, m2: Option<Chain>)
    ensures ValidNodes(UsersT5(m1)) && Mark(UsersT5(m1), 4, FilesPath, m2) == UsersT6(m1, m2)
  {
    DescendPath(m1);
  }

  lemma InsertPathEnd(m1: Option<Chain>, m2: Option<Chain>)
    ensures ValidNodes(UsersT6(m1, m2)) && Insert(UsersT6(m1, m2), 4, [], FilesPath, m2) == UsersT6(m1, m2)
  {
    MarkPath(m1, m2);
  }

  lemma InsertPath(m1: Option<Chain>, m2: Option<Chain>)
    ensures ValidNodes(UsersT4(m1)) && Insert(UsersT4(m1), 3, ["*path"], FilesPath, m2) == UsersT6(m1, m2)
  {
    DescendPath(m1);
    MarkPath(m1, m2);
    InsertPathEnd(m1, m2);
    InsertUnfold(UsersT4(m1), 3, ["*path"], FilesPath, m2);
    assert ["*path"][1..] == [];
  }

  lemma InsertFiles(m1: Option<Chain>, m2: Option<Chain>)
    ensures ValidNodes(UsersT3(m1)) && Insert(UsersT3(m1), 0, ["files", "*path"], FilesPath, m2) == UsersT6(m1, m2)
  {
    var parts := ["files", "*path"];
    DescendFiles(m1);
    InsertPath(m1, m2);
    InsertUnfold(UsersT3(m1), 0, parts, FilesPath, m2);
    assert parts[1..] == ["*path"];
  }

  function Router2(h1: Handler, h2: Handler): RouterModel {
    RouterModel(map[MethodGet := map[UsersPath := Route(UsersPath, Some([h1]), MethodGet, ["users", ":id"]),
                                     FilesPath := Route(FilesPath, Some([h2]), MethodGet, ["files", "*path"])]],
                UsersT6(Some([h1]), Some([h2])), [])
  }

  lemma AddFilesUnfolded(h1: Handler, h2: Handler)
    ensures var m2 := Some([h2]);
      ValidModel(Router1(h1)) &&
      AddSpec(Router1(h1), MethodGet, FilesPath, [FuncInput(h2)]).router
        == Router1(h1).(routes := Router1(h1).routes[MethodGet := Router1(h1).routes[MethodGet][FilesPath := Route(FilesPath, m2, MethodGet, ["files", "*path"])]],
                        nodes := Insert(UsersT3(Some([h1])), 0, ["files", "*path"], FilesPath, m2))
  {
    AddUsers(h1);
    SegsFiles();
    ConvertOne(h2);
    assert [] + [h2] == [h2];
    AddUnfold(Router1(h1), MethodGet, FilesPath, [FuncInput(h2)]);
    assert NormalizePath(FilesPath) == FilesPath;
  }

  lemma Routes2(h1: Handler, h2: Handler)
    ensures Router1(h1).routes[MethodGet := Router1(h1).routes[MethodGet][FilesPath := Route(FilesPath, Some([h2]), MethodGet, ["files", "*path"])]]
         == Router2(h1, h2).routes
  {
  }

  lemma Router2Built(h1: Handler, h2: Handler)
    ensures var m2 := Some([h2]);
      ValidNodes(UsersT3(Some([h1]))) &&
      Router2(h1, h2) == Router1(h1).(routes := Router1(h1).routes[MethodGet := Router1(h1).routes[MethodGet][FilesPath := Route(FilesPath, m2, MethodGet, ["files", "*path"])]],
                                      nodes := Insert(UsersT3(Some([h1])), 0, ["files", "*path"], FilesPath, m2))
  {
    InsertFiles(Some([h1]), Some([h2]));
    Routes2(h1, h2);
  }

  /** The router TestParameterizedRoutes builds. */
  lemma ParamsRouter(h1: Handler, h2: Handler)
    ensures var m1 := AddSpec(EmptyRouter, MethodGet, UsersPath, [FuncInput(h1)]).router;
      AddSpec(m1, MethodGet, FilesPath, [FuncInput(h2)]).router == Router2(h1, h2)
  {
    AddUsers(h1);
    AddFilesUnfolded(h1, h2);
    Router2Built(h1, h2);
  }

  lemma T6Valid(m1: Option<Chain>, m2: Option<Chain>)
    ensures ValidNodes(UsersT6(m1, m2))
  {
    InsertFiles(m1, m2);
  }

  /** Two segments "a/b" after a leading slash tokenize to [a, b]. */
  lemma SegmentsOfPair(a: string, rest: seq<string>)
    requires IsSegment(a) && rest != [] && AllSegments(rest)
    ensures Segments("/" + a + "/" + Join(rest)) == [a] + rest
  {
    var segs := [a] + rest;
    assert segs[0] == a && segs[1..] == rest;
    assert AllSegments(segs);
    SegmentsOfJoin(segs);
    assert Join(segs) == a + "/" + Join(rest);
    assert "/" + Join(segs) == "/" + a + "/" + Join(rest);
  }

  lemma FindUserSteps(m1: Option<Chain>, m2: Option<Chain>, v: string)
    ensures ValidNodes(UsersT6(m1, m2))
    ensures FindNodeF(UsersT6(m1, m2), 0, ["users", v], map[]) == Hit(Some(2), map["id" := v])
  {
    T6Valid(m1, m2);
    var t := UsersT6(m1, m2);
    var ps := map["id" := v];
    assert FindNodeF(t, 2, [], ps) == Hit(Some(2), ps);
    assert map[]["id" := v] == ps;
    assert FindAmong(t, 1, 0, v, [], map[]) == Hit(Some(2), ps);
    assert [v][0] == v && [v][1..] == [];
    assert FindNodeF(t, 1, [v], map[]) == Hit(Some(2), ps);
    assert FindAmong(t, 0, 0, "users", [v], map[]) == Hit(Some(2), ps);
    var parts := ["users", v];
    assert parts[0] == "users" && parts[1..] == [v];
  }

  /** TestParameterizedRoutes, named parameter: GET /users/v finds the
      /users/:id chain with exactly {"id": v}. */
  lemma FindUserParam(h1: Handler, h2: Handler, v: string)
    requires IsSegment(v) && v != ":id"
    ensures ValidNodes(Router2(h1, h2).nodes)
    ensures FindSpec(Router2(h1, h2), MethodGet, "/users/" + v) == Lookup(Some([h1]), Some(map["id" := v]))
  {
    UserPath(v);
    UserMiss(h1, h2, v);
    FindUserSteps(Some([h1]), Some([h2]), v);
  }

  lemma UserPath(v: string)
    requires IsSegment(v)
    ensures Segments("/users/" + v) == ["users", v]
  {
    SegmentsOfPair("users", [v]);
    assert Join([v]) == v;
    assert "/" + "users" + "/" + v == "/users/" + v;
  }

  lemma UserMiss(h1: Handler, h2: Handler, v: string)
    requires v != ":id"
    ensures "/users/" + v !in Router2(h1, h2).routes[MethodGet]
  {
    var path := "/users/" + v;
    assert path[1] == 'u' && path[7..] == v;
  }

  lemma FilesPathOf(rest: seq<string>)
    requires rest != [] && AllSegments(rest)
    ensures Segments("/files/" + Join(rest)) == ["files"] + rest
  {
    SegmentsOfPair("files", rest);
    assert "/" + "files" + "/" + Join(rest) == "/files/" + Join(rest);
  }

  lemma NotPattern(rest: seq<string>)
    requires AllSegments(rest) && rest != ["*path"]
    ensures Join(rest) != "*path"
  {
    SegmentsOfJoin(rest);
    SegmentsOfJoin(["*path"]);
    assert Join(["*path"]) == "*path";
  }

  lemma FilesDistinct(rest: seq<string>)
    requires AllSegments(rest) && rest != ["*path"]
    ensures "/files/" + Join(rest) != UsersPath && "/files/" + Join(rest) != FilesPath
  {
    var path := "/files/" + Join(rest);
    NotPattern(rest);
    assert path[1] == 'f' && path[7..] == Join(rest);
    assert FilesPath[7..] == "*path";
  }

  lemma FilesMiss(h1: Handler, h2: Handler, rest: seq<string>)
    requires AllSegments(rest) && rest != ["*path"]
    ensures "/files/" + Join(rest) !in Router2(h1, h2).routes[MethodGet]
  {
    FilesDistinct(rest);
  }

  lemma FindFilesSteps(m1: Option<Chain>, m2: Option<Chain>, rest: seq<string>)
    requires rest != []
    ensures ValidNodes(UsersT6(m1, m2))
    ensures FindNodeF(UsersT6(m1, m2), 0, ["files"] + rest, map[]) == Hit(Some(4), map["*" := Join(rest)])
  {
    T6Valid(m1, m2);
    var t := UsersT6(m1, m2);
    var ps := map["*" := Join(rest)];
    assert [rest[0]] + rest[1..] == rest;
    assert FindAmong(t, 3, 0, rest[0], rest[1..], map[]) == Hit(Some(4), ps);
    assert FindNodeF(t, 3, rest, map[]) == Hit(Some(4), ps);
    assert FindAmong(t, 0, 1, "files", rest, map[]) == Hit(Some(4), ps);
    assert FindAmong(t, 0, 0, "files", rest, map[]) == Hit(Some(4), ps);
    var parts := ["files"] + rest;
    assert parts[0] == "files" && parts[1..] == rest;
  }

  /** TestParameterizedRoutes, wildcard: GET /files/ followed by any
      segments finds the chain registered for the wildcard pattern with exactly {"*": those
      segments joined by "/"}. */
  lemma FindFilesWildcard(h1: Handler, h2: Handler, rest: seq<string>)
    requires rest != [] && AllSegments(rest) && rest != ["*path"]
    ensures ValidNodes(Router2(h1, h2).nodes)
    ensures FindSpec(Router2(h1, h2), MethodGet, "/files/" + Join(rest)) == Lookup(Some([h2]), Some(map["*" := Join(rest)]))
  {
    FilesPathOf(rest);
    FilesMiss(h1, h2, rest);
    FindFilesSteps(Some([h1]), Some([h2]), rest);
  }

  // TestWildcardRoutes: one wildcard route, any file path below it.

  const StaticPath := "/static/*filepath"
  const StaticKeys := [Key("static", false, false), Key("*", false, true)]

  /** Joining a segment in front of a non-empty list. */
  lemma JoinCons(a: string, rest: seq<string>)
    requires rest != []
    ensures Join([a] + rest) == a + "/" + Join(rest)
  {
    assert ([a] + rest)[0] == a && ([a] + rest)[1..] == rest;
  }

  lemma StaticJoin()
    ensures "/" + Join(["static", "*filepath"]) == StaticPath
  {
    JoinCons("static", ["*filepath"]);
    assert ["static"] + ["*filepath"] == ["static", "*filepath"];
    assert Join(["*filepath"]) == "*filepath";
  }

  lemma StaticSegments()
    ensures Segments(StaticPath) == ["static", "*filepath"]
    ensures KeysOf(Segments(StaticPath)) == StaticKeys
    ensures NormalizePath(StaticPath) == StaticPath
  {
    var segs := ["static", "*filepath"];
    StaticJoin();
    assert AllSegments(segs);
    SegmentsOfJoin(segs);
    StaticKeysOf();
  }

  lemma StaticKeysOf()
    ensures KeysOf(["static", "*filepath"]) == StaticKeys
  {
    assert Classify("static") == StaticKeys[0] && Classify("*filepath") == StaticKeys[1];
  }

  lemma StaticFits(rest: seq<string>)
    requires rest != []
    ensures Fits(StaticKeys, ["static"] + rest)
    ensures BindChain(StaticKeys, ["static"] + rest, map[]) == map["*" := Join(rest)]
  {
    var req := ["static"] + rest;
    assert req[0] == "static" && req[1..] == rest && StaticKeys[1..] == [Key("*", false, true)];
  }

  /** A request below /static/ tokenizes to "static" and its segments, and
      is not the pattern's own text unless it is that segment. */
  lemma StaticRequest(rest: seq<string>)
    requires rest != [] && AllSegments(rest) && rest != ["*filepath"]
    ensures Segments("/static/" + Join(rest)) == ["static"] + rest
    ensures "/static/" + Join(rest) != StaticPath
  {
    SegmentsOfPair("static", rest);
    assert "/" + "static" + "/" + Join(rest) == "/static/" + Join(rest);
    StaticDistinct(rest);
  }

  lemma StaticDistinct(rest: seq<string>)
    requires AllSegments(rest) && rest != ["*filepath"]
    ensures "/static/" + Join(rest) != StaticPath
  {
    var path := "/static/" + Join(rest);
    SegmentsOfJoin(rest);
    SegmentsOfJoin(["*filepath"]);
    assert Join(["*filepath"]) == "*filepath";
    assert path[8..] == Join(rest) && StaticPath[8..] == "*filepath";
  }

  /** GET /static/ followed by any segments (other than the pattern's own
      text) finds the StaticPath chain with exactly {"*": those segments
      joined by "/"}, which is what c.Param("*") reads. */
  lemma FindStatic(h: Handler, rest: seq<string>)
    requires rest != [] && AllSegments(rest) && rest != ["*filepath"]
    ensures FindSpec(AddSpec(EmptyRouter, MethodGet, StaticPath, [FuncInput(h)]).router, MethodGet, "/static/" + Join(rest))
            == Lookup(Some([h]), Some(map["*" := Join(rest)]))
  {
    SingleRouteFind(MethodGet, StaticPath, h, "/static/" + Join(rest));
    StaticSegments();
    StaticRequest(rest);
    StaticFits(rest);
  }

  lemma StyleJoin()
    ensures AllSegments(["css", "style.css"]) && "/static/" + Join(["css", "style.css"]) == "/static/css/style.css"
    ensures Join(["css", "style.css"]) == "css/style.css"
  {
    var rest := ["css", "style.css"];
    assert IsSegment("css") && IsSegment("style.css");
    JoinCons("css", ["style.css"]);
    assert ["css"] + ["style.css"] == rest;
    assert Join(["style.css"]) == "style.css";
  }

  /** The first case of the test: /static/css/style.css binds
      "css/style.css". */
  lemma FindStaticStyle(h: Handler)
    ensures FindSpec(AddSpec(EmptyRouter, MethodGet, StaticPath, [FuncInput(h)]).router, MethodGet, "/static/css/style.css")
            == Lookup(Some([h]), Some(map["*" := "css/style.css"]))
  {
    StyleJoin();
    FindStatic(h, ["css", "style.css"]);
  }

  // TestNestedRoutes: two parameters on one route.

  const NestedPath := "/api/v1/users/:id/posts/:postId"
  const NestedSegs := ["api", "v1", "users", ":id", "posts", ":postId"]
  const NestedKeys := [Key("api", false, false), Key("v1", false, false), Key("users", false, false),
                       Key("id", true, false), Key("posts", false, false), Key("postId", true, false)]
  const NestedRequest := "/api/v1/users/123/posts/456"
  const NestedValues := ["api", "v1", "users", "123", "posts", "456"]

  lemma NestedJoin4()
    ensures Join(["posts", ":postId"]) == "posts/:postId"
  {
    JoinCons("posts", [":postId"]);
    assert ["posts"] + [":postId"] == ["posts", ":postId"];
  }

  lemma NestedJoin2()
    ensures Join(["users", ":id", "posts", ":postId"]) == "users/:id/posts/:postId"
  {
    NestedJoin4();
    JoinCons(":id", ["posts", ":postId"]);
    assert [":id"] + ["posts", ":postId"] == [":id", "posts", ":postId"];
    JoinCons("users", [":id", "posts", ":postId"]);
    assert ["users"] + [":id", "posts", ":postId"] == ["users", ":id", "posts", ":postId"];
  }

  lemma NestedJoin1()
    ensures Join(NestedSegs[1..]) == "v1/users/:id/posts/:postId"
  {
    NestedJoin2();
    JoinCons("v1", ["users", ":id", "posts", ":postId"]);
    assert ["v1"] + ["users", ":id", "posts", ":postId"] == NestedSegs[1..];
  }

  lemma NestedJoin()
    ensures "/" + Join(NestedSegs) == NestedPath
  {
    NestedJoin1();
    JoinCons("api", NestedSegs[1..]);
    assert ["api"] + NestedSegs[1..] == NestedSegs;
    NestedText();
  }

  lemma NestedText()
    ensures "/" + ("api" + "/" + "v1/users/:id/posts/:postId") == NestedPath
  {
  }

  lemma NestedPatternSegments()
    ensures Segments(NestedPath) == NestedSegs
    ensures NormalizePath(NestedPath) == NestedPath
  {
    assert AllSegments(NestedSegs);
    SegmentsOfJoin(NestedSegs);
    NestedJoin();
  }

  lemma NestedValuesJoin4()
    ensures Join(["posts", "456"]) == "posts/456"
  {
    JoinCons("posts", ["456"]);
    assert ["posts"] + ["456"] == ["posts", "456"];
  }

  lemma NestedValuesJoin2()
    ensures Join(["users", "123", "posts", "456"]) == "users/123/posts/456"
  {
    NestedValuesJoin4();
    JoinCons("123", ["posts", "456"]);
    assert ["123"] + ["posts", "456"] == ["123", "posts", "456"];
    JoinCons("users", ["123", "posts", "456"]);
    assert ["users"] + ["123", "posts", "456"] == ["users", "123", "posts", "456"];
  }

  lemma NestedValuesJoin()
    ensures "/" + Join(NestedValues) == NestedRequest
  {
    NestedValuesJoin2();
    JoinCons("v1", ["users", "123", "posts", "456"]);
    assert ["v1"] + ["users", "123", "posts", "456"] == NestedValues[1..];
    JoinCons("api", NestedValues[1..]);
    assert ["api"] + NestedValues[1..] == NestedValues;
  }

  lemma NestedRequestSegments()
    ensures Segments(NestedRequest) == NestedValues
    ensures NestedRequest != NestedPath
  {
    assert AllSegments(NestedValues);
    SegmentsOfJoin(NestedValues);
    NestedValuesJoin();
    NestedDistinct();
  }

  lemma NestedDistinct()
    ensures NestedRequest != NestedPath
  {
    assert NestedRequest[14] != NestedPath[14];
  }

  lemma NestedKeysOf()
    ensures KeysOf(NestedSegs) == NestedKeys
  {
    var s := NestedSegs;
    assert Classify(s[0]) == NestedKeys[0] && Classify(s[1]) == NestedKeys[1] && Classify(s[2]) == NestedKeys[2];
    assert Classify(s[3]) == NestedKeys[3] && Classify(s[4]) == NestedKeys[4] && Classify(s[5]) == NestedKeys[5];
  }

  lemma NestedFits()
    ensures Fits(NestedKeys, NestedValues)
    ensures BindChain(NestedKeys, NestedValues, map[]) == map["id" := "123", "postId" := "456"]
  {
    var k, v := NestedKeys, NestedValues;
    assert Fits(k[5..], v[5..]);
    assert Fits(k[4..], v[4..]) by { assert k[4..][1..] == k[5..] && v[4..][1..] == v[5..]; }
    assert Fits(k[3..], v[3..]) by { assert k[3..][1..] == k[4..] && v[3..][1..] == v[4..]; }
    assert Fits(k[2..], v[2..]) by { assert k[2..][1..] == k[3..] && v[2..][1..] == v[3..]; }
    assert Fits(k[1..], v[1..]) by { assert k[1..][1..] == k[2..] && v[1..][1..] == v[2..]; }
    var p := map["id" := "123"];
    var q := map["id" := "123", "postId" := "456"];
    assert BindChain(k[5..], v[5..], p) == q;
    assert BindChain(k[4..], v[4..], p) == q by { assert k[4..][1..] == k[5..] && v[4..][1..] == v[5..]; }
    assert BindChain(k[3..], v[3..], map[]) == q by { assert k[3..][1..] == k[4..] && v[3..][1..] == v[4..]; }
    assert BindChain(k[2..], v[2..], map[]) == q by { assert k[2..][1..] == k[3..] && v[2..][1..] == v[3..]; }
    assert BindChain(k[1..], v[1..], map[]) == q by { assert k[1..][1..] == k[2..] && v[1..][1..] == v[2..]; }
  }

  /** GET /api/v1/users/123/posts/456 finds the nested route with
      {"id": "123", "postId": "456"}. */
  lemma FindNested(h: Handler)
    ensures FindSpec(AddSpec(EmptyRouter, MethodGet, NestedPath, [FuncInput(h)]).router, MethodGet, NestedRequest)
            == Lookup(Some([h]), Some(map["id" := "123", "postId" := "456"]))
  {
    SingleRouteFind(MethodGet, NestedPath, h, NestedRequest);
    NestedPatternSegments();
    NestedRequestSegments();
    NestedKeysOf();
    NestedFits();
  }

  // TestParameterizedRoutes, the two concrete requests.

  lemma User123OnRouter(h1: Handler, h2: Handler)
    ensures ValidNodes(Router2(h1, h2).nodes)
    ensures FindSpec(Router2(h1, h2), MethodGet, "/users/123") == Lookup(Some([h1]), Some(map["id" := "123"]))
  {
    assert IsSegment("123");
    FindUserParam(h1, h2, "123");
    assert "/users/" + "123" == "/users/123";
  }

  lemma FindUser123(h1: Handler, h2: Handler)
    ensures var m1 := AddSpec(EmptyRouter, MethodGet, UsersPath, [FuncInput(h1)]).router;
      FindSpec(AddSpec(m1, MethodGet, FilesPath, [FuncInput(h2)]).router, MethodGet, "/users/123")
        == Lookup(Some([h1]), Some(map["id" := "123"]))
  {
    ParamsRouter(h1, h2);
    User123OnRouter(h1, h2);
  }

  lemma ReportJoin()
    ensures AllSegments(["docs", "report.pdf"]) && "/files/" + Join(["docs", "report.pdf"]) == "/files/docs/report.pdf"
    ensures Join(["docs", "report.pdf"]) == "docs/report.pdf"
  {
    assert IsSegment("docs") && IsSegment("report.pdf");
    JoinCons("docs", ["report.pdf"]);
    assert ["docs"] + ["report.pdf"] == ["docs", "report.pdf"];
    assert Join(["report.pdf"]) == "report.pdf";
  }

  lemma ReportOnRouter(h1: Handler, h2: Handler)
    ensures ValidNodes(Router2(h1, h2).nodes)
    ensures FindSpec(Router2(h1, h2), MethodGet, "/files/docs/report.pdf")
            == Lookup(Some([h2]), Some(map["*" := "docs/report.pdf"]))
  {
    ReportJoin();
    FindFilesWildcard(h1, h2, ["docs", "report.pdf"]);
  }

  lemma FindReport(h1: Handler, h2: Handler)
    ensures var m1 := AddSpec(EmptyRouter, MethodGet, UsersPath, [FuncInput(h1)]).router;
      FindSpec(AddSpec(m1, MethodGet, FilesPath, [FuncInput(h2)]).router, MethodGet, "/files/docs/report.pdf")
        == Lookup(Some([h2]), Some(map["*" := "docs/report.pdf"]))
  {
    ParamsRouter(h1, h2);
    ReportOnRouter(h1, h2);
  }
}
