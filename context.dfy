/**
 * context.go: the per-request Context. The first half gives the meaning of
 * every Context operation as a function on the State value, including the
 * cursor protocol of `Next`, which invokes scripted handlers; the second
 * half is the Context class whose methods update its fields in place and
 * are proved to follow those functions.
 */
module Contexts {
  import opened Types
  import R = Responses

  /** What running handler code leaves behind; `panicked` means a Go panic
      unwound the rest of the call stack. */
  datatype Outcome = Outcome(state: State, panicked: bool)

  /** Context.Set */
  function SetSpec(st: State, key: string, value: Value): State {
    st.(store := st.store[key := value])
  }

  /** Context.Get: a missing key reads as nil. */
  function GetSpec(st: State, key: string): Value {
    if key in st.store then st.store[key] else Nil
  }

  /** Context.Param: a missing name reads as "". */
  function ParamSpec(st: State, name: string): string {
    if name in st.params then st.params[name] else ""
  }

  /** Context.Service: None stands for the panic on a missing name. */
  function ServiceSpec(st: State, name: string): Option<Value> {
    if name in st.services then Some(st.services[name]) else None
  }

  /** Context.Status */
  function StatusSpec(st: State, code: int): State {
    st.(status := code)
  }

  /** Context.setHandlers */
  function SetHandlersSpec(st: State, hs: seq<Handler>): State {
    st.(handlers := hs, index := -1)
  }

  /** How many handlers the cursor can still reach. */
  function Gap(index: int, n: int): nat {
    if index < n then n - index else 0
  }

  /** Facts every piece of handler code keeps: the chain it runs in, a
      cursor that never moves back, a written flag that never resets, the
      services, and the invocations already journaled. */
  predicate Keeps(st: State, st': State) {
    && st'.handlers == st.handlers
    && st'.index >= st.index
    && (st.written ==> st'.written)
    && st'.services == st.services
    && |st'.journal| >= |st.journal|
    && st'.journal[..|st.journal|] == st.journal
  }

  /** Context.Next: advance the cursor by one and invoke the handler it
      lands on, if any. */
  function NextSpec(st: State): (r: Outcome)
    requires st.index >= -1
    ensures Keeps(st, r.state) && r.state.index > st.index
    decreases Gap(st.index, |st.handlers|), 0, 0
  {
    var st1 := st.(index := st.index + 1);
    if st1.index < |st1.handlers| then InvokeSpec(st1, st1.handlers[st1.index])
    else Outcome(st1, false)
  }

  /** Calling a handler on the context: it is journaled, then its script runs. */
  function InvokeSpec(st: State, h: Handler): (r: Outcome)
    requires st.index >= -1
    ensures Keeps(st, r.state)
    ensures |r.state.journal| > |st.journal| && r.state.journal[|st.journal|] == h.name
    decreases Gap(st.index, |st.handlers|), 1, |h.script| + 1
  {
    var st1 := st.(journal := st.journal + [h.name]);
    var r := RunSpec(st1, h.script);
    assert r.state.journal[..|st.journal|] == r.state.journal[..|st1.journal|][..|st.journal|];
    r
  }

  /** A script runs action by action until it ends or panics. */
  function RunSpec(st: State, script: seq<Action>): (r: Outcome)
    requires st.index >= -1
    ensures Keeps(st, r.state)
    decreases Gap(st.index, |st.handlers|), 1, |script|
  {
    if script == [] then Outcome(st, false)
    else
      var o := StepSpec(st, script[0]);
      if o.panicked then o
      else
        var r := RunSpec(o.state, script[1..]);
        assert r.state.journal[..|st.journal|] == r.state.journal[..|o.state.journal|][..|st.journal|];
        r
  }

  /** One Context call made by a handler. */
  function StepSpec(st: State, a: Action): (r: Outcome)
    requires st.index >= -1
    ensures Keeps(st, r.state)
    decreases Gap(st.index, |st.handlers|), 1, 0
  {
    match a
    case SetValue(key, value) => Outcome(SetSpec(st, key, value), false)
    case LoadService(name, key) =>
      (match ServiceSpec(st, name)
       case None => Outcome(st, true)
       case Some(v) => Outcome(SetSpec(st, key, v), false))
    case LoadParam(name, key) => Outcome(SetSpec(st, key, Str(ParamSpec(st, name))), false)
    case CallNext => NextSpec(st)
    case SetStatus(code) => Outcome(StatusSpec(st, code), false)
    case SendValue(data) => Outcome(R.Send(st, data).state, false)
    case SendJson(data) => Outcome(R.Json(st, data).state, false)
    case SendHtml(html) => Outcome(R.Html(st, html), false)
    case SendStatic(path) => Outcome(R.Static(st, path), false)
  }

  /** Set then Get returns the value; other keys keep theirs. */
  lemma SetThenGet(st: State, key: string, value: Value, other: string)
    ensures GetSpec(SetSpec(st, key, value), key) == value
    ensures other != key ==> GetSpec(SetSpec(st, key, value), other) == GetSpec(st, other)
  {
  }

  /** Next at or past the end of the chain only moves the cursor. */
  lemma NextPastEnd(st: State)
    requires st.index >= -1 && st.index + 1 >= |st.handlers|
    ensures NextSpec(st) == Outcome(st.(index := st.index + 1), false)
  {
  }

  /** Next inside the chain invokes exactly the handler after the cursor. */
  lemma NextInRange(st: State)
    requires st.index >= -1 && st.index + 1 < |st.handlers|
    ensures NextSpec(st) == InvokeSpec(st.(index := st.index + 1), st.handlers[st.index + 1])
  {
  }

  /** Calling a handler whose only action is Next journals it and then
      does exactly what Next does. */
  lemma InvokeForwarder(st: State, h: Handler)
    requires st.index >= -1 && h.script == [CallNext]
    ensures InvokeSpec(st, h) == NextSpec(st.(journal := st.journal + [h.name]))
  {
    var st1 := st.(journal := st.journal + [h.name]);
    assert StepSpec(st1, CallNext) == NextSpec(st1);
    var o := NextSpec(st1);
    if !o.panicked {
      assert h.script[1..] == [];
      assert RunSpec(o.state, []) == o;
    }
  }

  /** A handler whose script only calls Next runs the rest of the installed
      chain: with every later handler also just calling Next, each of them
      is invoked once, in chain order. */
  lemma {:induction false} ForwardingChain(st: State)
    requires st.index >= -1
    requires forall j :: 0 <= j < |st.handlers| ==> st.handlers[j].script == [CallNext]
    ensures var r := NextSpec(st);
      var n := |st.handlers|;
      && !r.panicked
      && r.state == st.(index := if st.index + 1 < n then n else st.index + 1,
                        journal := st.journal + Names(st.handlers[Clamp(st.index + 1, n)..]))
    decreases Gap(st.index, |st.handlers|)
  {
    var n := |st.handlers|;
    var st1 := st.(index := st.index + 1);
    if st1.index < n {
      var h := st.handlers[st1.index];
      var st2 := st1.(journal := st.journal + [h.name]);
      NextInRange(st);
      InvokeForwarder(st1, h);
      ForwardingChain(st2);
      NamesFrom(st.handlers, st1.index);
      assert Clamp(st2.index + 1, n) == st1.index + 1 && Clamp(st.index + 1, n) == st1.index;
      var J := st.journal + Names(st.handlers[st1.index..]);
      assert st2.journal + Names(st.handlers[st1.index + 1..]) == J;
      assert NextSpec(st2).state == st2.(index := n, journal := J);
      assert st2.(index := n, journal := J) == st.(index := n, journal := J);
    } else {
      assert st.handlers[Clamp(st.index + 1, n)..] == [];
    }
  }

  /** The names from position i on are the i-th name, then the rest. */
  lemma NamesFrom(hs: seq<Handler>, i: nat)
    requires i < |hs|
    ensures Names(hs[i..]) == [hs[i].name] + Names(hs[i + 1..])
  {
    assert hs[i..][0] == hs[i] && hs[i..][1..] == hs[i + 1..];
  }

  function Clamp(i: int, n: nat): nat {
    if i < 0 then 0 else if i > n then n else i
  }

  /** The names of handlers, in order. */
  function Names(hs: seq<Handler>): seq<string> {
    if hs == [] then [] else [hs[0].name] + Names(hs[1..])
  }

  /** `for k := range m { delete(m, k) }` */
  method DeleteAll<V>(m: map<string, V>) returns (e: map<string, V>)
    ensures e == map[]
  {
    e := m;
    while e.Keys != {}
      invariant forall k :: k in e ==> k in m && e[k] == m[k]
      decreases |e.Keys|
    {
      var k :| k in e.Keys;
      e := e - {k};
    }
    assert e.Keys == {};
  }

  /** The value of the carrier fields of a Context. */
  datatype Carriers = Carriers(
    response: R.ResponseRecorder?,
    request: Option<Request>,
    queryParams: Option<map<string, seq<string>>>,
    requestMethod: string)

  /**
   * A request context. `response`, `request` and `queryParams` are the
   * external references that `release` clears (null / None stand for Go's
   * nil); the rest is request state. Acquisition from the pool is modelled
   * as construction followed by Reset.
   */
  class Context {
    var response: R.ResponseRecorder?
    var request: Option<Request>
    var pathParams: map<string, string>
    var queryParams: Option<map<string, seq<string>>>
    var requestMethod: string
    var written: bool
    var handlers: seq<Handler>
    var index: int
    var store: map<string, Value>
    var status: int
    var services: map<string, Value>
    ghost var journal: seq<string>

    /** The context is attached to a sink and its cursor is well formed. */
    ghost predicate Active()
      reads this
    {
      response != null && index >= -1
    }

    ghost function State(): State
      reads this, response
    {
      Types.State(written, index, status, handlers, store, pathParams, services,
                  if response == null then EmptyReply else response.Reply(), journal)
    }

    function Carry(): Carriers
      reads this
    {
      Carriers(response, request, queryParams, requestMethod)
    }

    /** A fresh pooled object: empty maps, every other field zero. */
    constructor ()
      ensures response == null && request == None && queryParams == None && requestMethod == ""
      ensures !written && handlers == [] && index == 0 && status == 0
      ensures pathParams == map[] && store == map[] && services == map[] && journal == []
    {
      response, request, queryParams, requestMethod := null, None, None, "";
      written, handlers, index, status := false, [], 0, 0;
      pathParams, store, services := map[], map[], map[];
      journal := [];
    }

    /** Context.reset: bind the carriers and clear the request state, the
        two maps by deleting their keys one by one. */
    method Reset(w: R.ResponseRecorder, r: Request)
      modifies this
      ensures Carry() == Carriers(w, Some(r), Some(r.query), r.verb)
      ensures !written && index == -1 && status == StatusOK
      ensures pathParams == map[] && store == map[]
      ensures handlers == old(handlers) && services == old(services) && journal == old(journal)
    {
      BindRequest(w, r);
      ClearMaps();
    }

    /** The field assignments of reset. */
    method BindRequest(w: R.ResponseRecorder, r: Request)
      modifies this
      ensures Carry() == Carriers(w, Some(r), Some(r.query), r.verb)
      ensures !written && index == -1 && status == StatusOK
      ensures pathParams == old(pathParams) && store == old(store)
      ensures handlers == old(handlers) && services == old(services) && journal == old(journal)
    {
      response, request, queryParams, requestMethod := w, Some(r), Some(r.query), r.verb;
      written, index, status := false, -1, StatusOK;
    }

    /** The two delete loops of reset. */
    method ClearMaps()
      modifies this
      ensures Carry() == old(Carry())
      ensures written == old(written) && index == old(index) && status == old(status)
      ensures pathParams == map[] && store == map[]
      ensures handlers == old(handlers) && services == old(services) && journal == old(journal)
    {
      pathParams := DeleteAll(pathParams);
      store := DeleteAll(store);
    }

    /** Context.release: drop the external references, keep the rest. */
    method Release()
      modifies this
      ensures Carry() == Carriers(null, None, None, old(requestMethod))
      ensures handlers == []
      ensures written == old(written) && index == old(index) && status == old(status)
      ensures store == old(store) && pathParams == old(pathParams) && services == old(services)
      ensures journal == old(journal)
    {
      response := null;
      request := None;
      handlers := [];
      queryParams := None;
    }

    /** Context.Service: None where the Go code panics. */
    function Service(name: string): (r: Option<Value>)
      reads this, response
      ensures r == ServiceSpec(State(), name)
      ensures r.Some? <==> name in services
      ensures r.Some? ==> r.value == services[name]
    {
      if name in services then Some(services[name]) else None
    }

    /** Context.Get */
    function Get(key: string): (r: Value)
      reads this, response
      ensures r == GetSpec(State(), key)
      ensures key in store ==> r == store[key]
      ensures key !in store ==> r == Nil
    {
      if key in store then store[key] else Nil
    }

    /** Context.Param */
    function Param(name: string): (r: string)
      reads this, response
      ensures r == ParamSpec(State(), name)
      ensures name in pathParams ==> r == pathParams[name]
      ensures name !in pathParams ==> r == ""
    {
      if name in pathParams then pathParams[name] else ""
    }

    /** Context.Set */
    method Set(key: string, value: Value)
      modifies this
      ensures State() == SetSpec(old(State()), key, value) && Carry() == old(Carry())
    {
      store := store[key := value];
    }

    /** Context.Status: returns the same context, for chaining. */
    method Status(code: int) returns (c: Context)
      modifies this
      ensures c == this
      ensures State() == StatusSpec(old(State()), code) && Carry() == old(Carry())
    {
      status := code;
      c := this;
    }

    /** Context.setHandlers */
    method SetHandlers(hs: seq<Handler>)
      modifies this
      ensures State() == SetHandlersSpec(old(State()), hs) && Carry() == old(Carry())
    {
      handlers := hs;
      index := -1;
    }

    /** Context.Send */
    method Send(data: Value) returns (err: Option<SendError>)
      requires response != null
      modifies this, response
      ensures R.SendResult(State(), err) == R.Send(old(State()), data) && Carry() == old(Carry())
    {
      if written {
        return Some(ResponseAlreadySent);
      }
      written := true;
      if status == 0 {
        status := StatusOK;
      }
      match data {
        case Str(s) =>
          response.SetHeader(R.ContentType, R.TextPlain);
          response.WriteHeader(status);
          response.Write(Text(s));
        case Bytes(b) =>
          response.SetHeader(R.ContentType, R.OctetStream);
          response.WriteHeader(status);
          response.Write(Octets(b));
        case Nil =>
          response.WriteHeader(status);
        case _ =>
          response.SetHeader(R.ContentType, R.ApplicationJson);
          response.WriteHeader(status);
          response.Write(Encoded(data));
      }
      err := None;
    }

    /** Context.JSON */
    method JSON(data: Value) returns (err: Option<SendError>)
      requires response != null
      modifies this, response
      ensures R.SendResult(State(), err) == R.Json(old(State()), data) && Carry() == old(Carry())
    {
      if written {
        return Some(ResponseAlreadySent);
      }
      written := true;
      if status == 0 {
        status := StatusOK;
      }
      response.SetHeader(R.ContentType, R.ApplicationJson);
      response.SetHeader(R.ContentTypeOptions, R.NoSniff);
      response.WriteHeader(status);
      if data == Nil {
        response.Write(Text("null"));
        return None;
      }
      response.Write(Encoded(data));
      err := None;
    }

    /** Context.HTML */
    method HTML(html: string)
      requires response != null
      modifies this, response
      ensures State() == R.Html(old(State()), html) && Carry() == old(Carry())
    {
      written := true;
      response.SetHeader(R.ContentType, R.TextHtml);
      if status == 0 {
        status := StatusOK;
      }
      response.WriteHeader(status);
      response.Write(Text(html));
    }

    /** Context.Static */
    method Static(path: string)
      requires response != null
      modifies this, response
      ensures State() == R.Static(old(State()), path) && Carry() == old(Carry())
    {
      written := true;
      response.Write(File(path));
    }

    /** Context.Next */
    method Next() returns (panicked: bool)
      requires Active()
      modifies this, response
      ensures Active() && Carry() == old(Carry())
      ensures Outcome(State(), panicked) == NextSpec(old(State()))
      decreases Gap(index, |handlers|), 0, 0
    {
      index := index + 1;
      if index < |handlers| {
        panicked := Invoke(handlers[index]);
      } else {
        panicked := false;
      }
    }

    /** Calling handler h with this context, as `handler(c)` does. */
    method Invoke(h: Handler) returns (panicked: bool)
      requires Active()
      modifies this, response
      ensures Active() && Carry() == old(Carry())
      ensures Outcome(State(), panicked) == InvokeSpec(old(State()), h)
      decreases Gap(index, |handlers|), 1, |h.script| + 1
    {
      journal := journal + [h.name];
      ghost var start := State();
      var i := 0;
      panicked := false;
      while i < |h.script| && !panicked
        invariant 0 <= i <= |h.script|
        invariant Active() && Carry() == old(Carry())
        invariant handlers == old(handlers) && index >= old(index)
        invariant !panicked ==> RunSpec(State(), h.script[i..]) == RunSpec(start, h.script)
        invariant panicked ==> Outcome(State(), true) == RunSpec(start, h.script)
      {
        assert h.script[i..][0] == h.script[i] && h.script[i..][1..] == h.script[i + 1..];
        panicked := Perform(h.script[i]);
        i := i + 1;
      }
      if !panicked {
        assert h.script[i..] == [];
      }
    }

    /** One context call of a handler's code. */
    method Perform(a: Action) returns (panicked: bool)
      requires Active()
      modifies this, response
      ensures Active() && Carry() == old(Carry())
      ensures Outcome(State(), panicked) == StepSpec(old(State()), a)
      decreases Gap(index, |handlers|), 1, 0
    {
      panicked := false;
      match a {
        case SetValue(key, value) =>
          Set(key, value);
        case LoadService(name, key) =>
          var s := Service(name);
          if s.None? {
            panicked := true;
          } else {
            Set(key, s.value);
          }
        case LoadParam(name, key) =>
          Set(key, Str(Param(name)));
        case CallNext =>
          panicked := Next();
        case SetStatus(code) =>
          var c := Status(code);
        case SendValue(data) =>
          var err := Send(data);
        case SendJson(data) =>
          var err := JSON(data);
        case SendHtml(html) =>
          HTML(html);
        case SendStatic(path) =>
          Static(path);
      }
    }
  }
}
