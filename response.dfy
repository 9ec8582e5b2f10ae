/**
 * response.go: Send, JSON, HTML and Static as transitions of the Context's
 * written flag and status, and the calls they make on the response sink.
 * The sink is abstract: it records header assignments, every status
 * written, and every body chunk written.
 */
module Responses {
  import opened Types

  const ContentType := "Content-Type"
  const ContentTypeOptions := "X-Content-Type-Options"
  const TextPlain := "text/plain; charset=utf-8"
  const OctetStream := "application/octet-stream"
  const ApplicationJson := "application/json; charset=utf-8"
  const TextHtml := "text/html; charset=utf-8"
  const NoSniff := "nosniff"

  // The three capabilities of http.ResponseWriter, on the recorded value.

  function WithHeader(r: Reply, key: string, value: string): Reply {
    r.(header := r.header[key := value])
  }

  function WithStatus(r: Reply, code: int): Reply {
    r.(statuses := r.statuses + [code])
  }

  function WithChunk(r: Reply, chunk: Chunk): Reply {
    r.(body := r.body + [chunk])
  }

  /** The sink a response is written to (the http.ResponseWriter). */
  class ResponseRecorder {
    var header: map<string, string>
    var statuses: seq<int>
    var body: seq<Chunk>

    function Reply(): Types.Reply
      reads this
    {
      Types.Reply(header, statuses, body)
    }

    constructor ()
      ensures Reply() == EmptyReply
    {
      header, statuses, body := map[], [], [];
    }

    method SetHeader(key: string, value: string)
      modifies this
      ensures Reply() == WithHeader(old(Reply()), key, value)
    {
      header := header[key := value];
    }

    method WriteHeader(code: int)
      modifies this
      ensures Reply() == WithStatus(old(Reply()), code)
    {
      statuses := statuses + [code];
    }

    method Write(chunk: Chunk)
      modifies this
      ensures Reply() == WithChunk(old(Reply()), chunk)
    {
      body := body + [chunk];
    }
  }

  /** The status actually written: 0 means "not set" and becomes 200. */
  function EffectiveStatus(status: int): int {
    if status == 0 then StatusOK else status
  }

  datatype SendResult = SendResult(state: State, err: Option<SendError>)

  /** Only the written flag, the status and the sink differ. */
  predicate OnlyResponseChanged(st: State, st': State) {
    st' == st.(written := st'.written, status := st'.status, reply := st'.reply)
  }

  /** The sink calls Send makes for a payload, once the status is fixed. */
  function SendReply(r: Reply, code: int, data: Value): Reply {
    match data
    case Str(s) => WithChunk(WithStatus(WithHeader(r, ContentType, TextPlain), code), Text(s))
    case Bytes(b) => WithChunk(WithStatus(WithHeader(r, ContentType, OctetStream), code), Octets(b))
    case Nil => WithStatus(r, code)
    case _ => WithChunk(WithStatus(WithHeader(r, ContentType, ApplicationJson), code), Encoded(data))
  }

  /** Context.Send */
  function Send(st: State, data: Value): (r: SendResult)
    ensures r.err.Some? <==> st.written
    ensures st.written ==> r.state == st
    ensures !st.written ==> r.state.written && r.state.status == EffectiveStatus(st.status)
    ensures !st.written ==> r.state.reply.statuses == st.reply.statuses + [EffectiveStatus(st.status)]
    ensures OnlyResponseChanged(st, r.state)
  {
    if st.written then SendResult(st, Some(ResponseAlreadySent))
    else
      var code := EffectiveStatus(st.status);
      SendResult(st.(written := true, status := code, reply := SendReply(st.reply, code, data)), None)
  }

  /** The sink calls JSON makes, once the status is fixed. */
  function JsonReply(r: Reply, code: int, data: Value): Reply {
    var r1 := WithHeader(WithHeader(r, ContentType, ApplicationJson), ContentTypeOptions, NoSniff);
    var r2 := WithStatus(r1, code);
    if data == Nil then WithChunk(r2, Text("null")) else WithChunk(r2, Encoded(data))
  }

  /** Context.JSON */
  function Json(st: State, data: Value): (r: SendResult)
    ensures r.err.Some? <==> st.written
    ensures st.written ==> r.state == st
    ensures !st.written ==> r.state.written && r.state.status == EffectiveStatus(st.status)
    ensures !st.written ==> r.state.reply.statuses == st.reply.statuses + [EffectiveStatus(st.status)]
    ensures OnlyResponseChanged(st, r.state)
  {
    if st.written then SendResult(st, Some(ResponseAlreadySent))
    else
      var code := EffectiveStatus(st.status);
      SendResult(st.(written := true, status := code, reply := JsonReply(st.reply, code, data)), None)
  }

  /** Context.HTML: no already-sent check. */
  function Html(st: State, html: string): (r: State)
    ensures r.written && r.status == EffectiveStatus(st.status)
    ensures r.reply.statuses == st.reply.statuses + [EffectiveStatus(st.status)]
    ensures r.reply.body == st.reply.body + [Text(html)]
    ensures r.reply.header == st.reply.header[ContentType := TextHtml]
    ensures OnlyResponseChanged(st, r)
  {
    var code := EffectiveStatus(st.status);
    st.(written := true, status := code,
        reply := WithChunk(WithStatus(WithHeader(st.reply, ContentType, TextHtml), code), Text(html)))
  }

  /** Context.Static: marks the response written and hands the file to
      http.ServeFile, whose output is recorded as one opaque chunk. */
  function Static(st: State, path: string): (r: State)
    ensures r.written && r.status == st.status
    ensures r.reply.body == st.reply.body + [File(path)]
    ensures OnlyResponseChanged(st, r)
  {
    st.(written := true, reply := WithChunk(st.reply, File(path)))
  }

  /** The Content-Type Send chooses, and the body it writes, by payload kind. */
  lemma SendByKind(st: State, data: Value)
    requires !st.written
    ensures var r := Send(st, data).state.reply;
      match data
      case Str(s) => r.header == st.reply.header[ContentType := TextPlain] && r.body == st.reply.body + [Text(s)]
      case Bytes(b) => r.header == st.reply.header[ContentType := OctetStream] && r.body == st.reply.body + [Octets(b)]
      case Nil => r.header == st.reply.header && r.body == st.reply.body
      case _ => r.header == st.reply.header[ContentType := ApplicationJson] && r.body == st.reply.body + [Encoded(data)]
  {
  }

  /** JSON always sets both headers, and writes `null` for nil. */
  lemma JsonHeaders(st: State, data: Value)
    requires !st.written
    ensures var r := Json(st, data).state.reply;
      && r.header == st.reply.header[ContentType := ApplicationJson][ContentTypeOptions := NoSniff]
      && r.body == st.reply.body + [if data == Nil then Text("null") else Encoded(data)]
  {
  }

  /** Only the first of two Send/JSON calls reaches the sink; the second
      reports ResponseAlreadySent and changes nothing. */
  lemma SecondSendRefused(st: State, first: Value, second: Value, firstIsJson: bool, secondIsJson: bool)
    requires !st.written
    ensures var r1 := if firstIsJson then Json(st, first) else Send(st, first);
      var r2 := if secondIsJson then Json(r1.state, second) else Send(r1.state, second);
      && r1.err == None
      && r2 == SendResult(r1.state, Some(ResponseAlreadySent))
      && r2.state.reply.statuses == st.reply.statuses + [EffectiveStatus(st.status)]
  {
  }

  /** HTML and Static write even after a response was sent. */
  lemma HtmlAfterSend(st: State, data: Value, html: string)
    requires !st.written
    ensures var s1 := Send(st, data).state;
      var s2 := Html(s1, html);
      && |s2.reply.statuses| == |st.reply.statuses| + 2
      && s2.reply.body[|s2.reply.body| - 1] == Text(html)
  {
  }
}
