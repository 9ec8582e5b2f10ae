/**
 * Values shared by every part of the router model: the dynamically typed
 * values Go passes around as `interface{}`, the chunks a response body is
 * made of, and the scripted handlers that stand in for Go closures.
 */
module Types {

  datatype Option<+T> = None | Some(value: T) {
    function GetOr(default: T): T {
      match this
      case Some(v) => v
      case None => default
    }
  }

  newtype Byte = x: int | 0 <= x < 256

  /** An `interface{}` value as stored in the context store, the service
      registry, or handed to `Send`/`JSON`. `Nil` is Go's untyped nil. */
  datatype Value =
    | Nil
    | Str(s: string)
    | Bytes(b: seq<Byte>)
    | Bool(flag: bool)
    | Int(i: int)
    | Object(tag: string)   // any other Go value; its JSON encoding is opaque

  /** One write to the response body. */
  datatype Chunk =
    | Text(s: string)        // a string written verbatim
    | Octets(b: seq<Byte>)   // a []byte written verbatim
    | Encoded(v: Value)      // the output of json.Encoder for v (opaque)
    | File(path: string)     // whatever http.ServeFile writes for path (opaque)

  /** An incoming request, as far as the core reads it. The query string is
      given already parsed (url.Values parsing belongs to net/url). */
  datatype Request = Request(verb: string, path: string, query: map<string, seq<string>>)

  /** What a scripted handler does, one Context call per action. */
  datatype Action =
    | SetValue(key: string, value: Value)     // c.Set(key, value)
    | LoadService(name: string, key: string)  // c.Set(key, c.Service(name)); panics if name is missing
    | LoadParam(name: string, key: string)    // c.Set(key, c.Param(name))
    | CallNext                                // c.Next()
    | SetStatus(code: int)                    // c.Status(code)
    | SendValue(data: Value)                  // c.Send(data)
    | SendJson(data: Value)                   // c.JSON(data)
    | SendHtml(html: string)                  // c.HTML(html)
    | SendStatic(path: string)                // c.Static(path)

  /** A Go `func(*Context)`: a name that identifies it in the invocation
      journal, and the calls it makes on the context, in order. */
  datatype Handler = Handler(name: string, script: seq<Action>)

  /** A composed route chain (router.go `chain`), run link by link. */
  type Chain = seq<Handler>

  /** An argument of a registration call (`handlers ...interface{}`). */
  datatype Input =
    | StringInput(s: string)     // a literal string: the handler sends it
    | FuncInput(h: Handler)      // a RouteHandler, Middleware or func(*Context)
    | OtherInput(tag: string)    // any other Go value: registration panics

  datatype SendError = ResponseAlreadySent

  /** The recorded response: headers as last set, every status written, and
      every body chunk written, in order. */
  datatype Reply = Reply(header: map<string, string>, statuses: seq<int>, body: seq<Chunk>)

  const EmptyReply := Reply(map[], [], [])

  /** The fields of a Context that handlers, `Next` and the response
      helpers read and write, as one value (context.go). `journal` is not a
      Context field: it is the order in which handlers were invoked, which
      the test suite observes through closures. */
  datatype State = State(
    written: bool,
    index: int,
    status: int,
    handlers: seq<Handler>,
    store: map<string, Value>,
    params: map<string, string>,
    services: map<string, Value>,
    reply: Reply,
    journal: seq<string>)

  const StatusOK := 200
  const StatusNotFound := 404
}
