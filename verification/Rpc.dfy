/** The two ends of a connection: the dispatcher and message loop of the server (server/ws/rpc.py, server/app.py),
    the pending-call table of the clients (runtime/interceptor.py, client/daemon.py). */
module Rpc {
  import opened Json
  import opened Protocol

  // ---- Server ----

  datatype HandlerResult = Returned(value: Value) | Raised(text: string)

  /** A handler sees its parameters and the rest of the world, the second argument. */
  type Handler = (Value, int) -> HandlerResult

  type Handlers = map<string, Handler>

  /** What one reply takes from outside: the world the handler runs in, the measured duration, a traceback, the
      rendering of a method that is no string, and the ambient uuid and clock. */
  datatype ServerInput = ServerInput(world: int, duration: Value, trace: Value, rendered: string, amb: Ambient)

  /** `dispatch`: None when the lookup itself raises, because the method is not hashable. */
  function Dispatch(handlers: Handlers, m: Message, inp: ServerInput): Option<Message> {
    var name := Or(m.methodName, Str(""));
    if name.List? || name.Object? then
      None
    else if !name.Str? || name.s !in handlers then
      Some(MakeError(m.id, "METHOD_NOT_FOUND", "Unknown method: " + (if name.Str? then name.s else inp.rendered), Null, inp.amb))
    else
      match handlers[name.s](m.params, inp.world)
      case Returned(v) =>
        Some(MakeResult(m.id, v, inp.amb).(metadata := Object(map["duration_ms" := inp.duration])))
      case Raised(text) =>
        Some(MakeError(m.id, "EXECUTION_ERROR", text, inp.trace, inp.amb))
  }

  /** One turn of the message loop: the message it sends back, if any. */
  function Serve(handlers: Handlers, deviceId: string, m: Message, inp: ServerInput): Option<Message> {
    match m.kind
    case SessionInit => Some(MakeNotification("session.ack", Object(map["session_id" := Str(deviceId)]), inp.amb))
    case Call => Dispatch(handlers, m, inp)
    case _ => None
  }

  class RPCDispatcher {
    var handlers: Handlers

    constructor ()
      ensures handlers == map[]
    {
      handlers := map[];
    }

    method Register(name: string, handler: Handler)
      modifies this
      ensures handlers == old(handlers)[name := handler]
    {
      handlers := handlers[name := handler];
    }

    method DispatchCall(msg: Message, inp: ServerInput) returns (reply: Option<Message>)
      ensures reply == Dispatch(handlers, msg, inp)
    {
      var name := Or(msg.methodName, Str(""));
      if name.List? || name.Object? {
        return None;
      }
      if !name.Str? || name.s !in handlers {
        var shown := if name.Str? then name.s else inp.rendered;
        return Some(MakeError(msg.id, "METHOD_NOT_FOUND", "Unknown method: " + shown, Null, inp.amb));
      }
      var handler := handlers[name.s];
      match handler(msg.params, inp.world)
      case Returned(v) =>
        var response := MakeResult(msg.id, v, inp.amb);
        reply := Some(response.(metadata := Object(map["duration_ms" := inp.duration])));
      case Raised(text) =>
        reply := Some(MakeError(msg.id, "EXECUTION_ERROR", text, inp.trace, inp.amb));
    }
  }

  /** The state the message loop of `websocket_endpoint` keeps for one device. */
  class DeviceConnection {
    const deviceId: string
    const dispatcher: RPCDispatcher
    var metadata: Value
    var lastHeartbeat: Value
    var sent: seq<Wire>

    constructor (deviceId: string, dispatcher: RPCDispatcher, now: Value)
      ensures this.deviceId == deviceId && this.dispatcher == dispatcher
      ensures metadata == EMPTY && lastHeartbeat == now && sent == []
    {
      this.deviceId := deviceId;
      this.dispatcher := dispatcher;
      metadata := EMPTY;
      lastHeartbeat := now;
      sent := [];
    }

    method OnText(raw: Wire, inp: ServerInput)
      modifies this
      ensures var parsed := FromDict(raw, inp.amb);
              var reply := if parsed.None? then None else Serve(dispatcher.handlers, deviceId, parsed.value, inp);
              && sent == old(sent) + (if reply.None? then [] else [ToDict(reply.value)])
              && metadata == (if parsed.Some? && parsed.value.kind.SessionInit? then parsed.value.params else old(metadata))
              && lastHeartbeat == (if parsed.Some? && parsed.value.kind.HeartbeatAck? then inp.amb.now else old(lastHeartbeat))
    {
      var parsed := FromDict(raw, inp.amb);
      if parsed.None? { return; }
      var msg := parsed.value;
      if msg.kind.SessionInit? {
        metadata := msg.params;
        var ack := FillDict(MakeNotification("session.ack", Object(map["session_id" := Str(deviceId)]), inp.amb));
        sent := sent + [ack];
        return;
      }
      if msg.kind.HeartbeatAck? {
        lastHeartbeat := inp.amb.now;
        return;
      }
      if msg.kind.Call? {
        var response := dispatcher.DispatchCall(msg, inp);
        if response.Some? {
          var wire := FillDict(response.value);
          sent := sent + [wire];
        }
      }
    }
  }

  // ---- Client ----

  datatype Outcome = Resolved(value: Value) | Failed(text: Value)

  datatype Future = Waiting | Done(outcome: Outcome) | Cancelled

  /** The two clients differ in default texts, and only the daemon answers the server. */
  datatype Role = Session | Daemon

  /** The pending table and every future ever created; a future outlives its entry. */
  datatype Client = Client(pending: set<string>, futures: map<string, Future>)

  /** The text of the exception, None when reading it raises. */
  function ErrorText(role: Role, error: Value): Option<Value> {
    if !Truthy(error) then
      Some(Str(if role.Session? then "Remote error" else "Unknown"))
    else if error.Object? then
      Some(Get(error.fields, "message", Str(if role.Session? then "Remote error" else "Unknown error")))
    else
      None
  }

  function ReplyOutcome(role: Role, m: Message): Option<Outcome> {
    if m.kind == MessageType.Result then Some(Resolved(m.result))
    else match ErrorText(role, m.error)
         case None => None
         case Some(text) => Some(Failed(text))
  }

  /** The texts a client makes up when the error has none: the session always says the same, the daemon tells an absent error
      from one without a message. */
  lemma DefaultTexts(role: Role, m: Message)
    requires m.kind == Error
    ensures m.error == Null ==> ReplyOutcome(role, m) == Some(Failed(Str(if role == Session then "Remote error" else "Unknown")))
    ensures m.error.Object? && m.error.fields != map[] && "message" !in m.error.fields ==>
              ReplyOutcome(role, m) == Some(Failed(Str(if role == Session then "Remote error" else "Unknown error")))
    ensures m.error.Object? && "message" in m.error.fields ==>
              ReplyOutcome(role, m) == Some(Failed(m.error.fields["message"]))
    ensures m.error.Str? && m.error.s != "" ==> ReplyOutcome(role, m) == None
  {
  }

  predicate IsReply(m: Message) {
    m.kind == MessageType.Result || m.kind == Error
  }

  /** A reply pops its entry; it settles the future only if that is still waiting. */
  function Settle(role: Role, c: Client, m: Message): Client {
    if !m.id.Str? || m.id.s !in c.pending then c
    else
      var id := m.id.s;
      var outcome := ReplyOutcome(role, m);
      Client(c.pending - {id},
             if id in c.futures && c.futures[id].Waiting? && outcome.Some?
             then c.futures[id := Done(outcome.value)] else c.futures)
  }

  function OnArrival(role: Role, c: Client, m: Message): Client {
    if IsReply(m) then Settle(role, c, m) else c
  }

  function Receive(role: Role, c: Client, raw: Wire, amb: Ambient): Client {
    match FromDict(raw, amb)
    case None => c
    case Some(m) => OnArrival(role, c, m)
  }

  class FutureCell {
    var state: Future

    constructor ()
      ensures state == Waiting
    {
      state := Waiting;
    }

    /** `set_result` or `set_exception`, on a future that is not done. */
    method Settle(outcome: Outcome)
      modifies this
      ensures state == if old(state).Waiting? then Done(outcome) else old(state)
    {
      if state.Waiting? {
        state := Done(outcome);
      }
    }
  }

  class PendingCalls {
    const role: Role
    var pending: map<string, FutureCell>
    ghost var futures: map<string, FutureCell>

    constructor (role: Role)
      ensures Valid() && this.role == role && View() == Client({}, map[])
    {
      this.role := role;
      pending := map[];
      futures := map[];
    }

    ghost predicate Valid()
      reads this
    {
      && (forall id :: id in pending ==> id in futures && pending[id] == futures[id])
      && (forall i, j :: i in futures && j in futures && i != j ==> futures[i] != futures[j])
    }

    ghost function View(): Client
      reads this, futures.Values
    {
      Client(pending.Keys, map id | id in futures :: futures[id].state)
    }

    /** The registering half of `_async_execute` and `rpc_call`: the entry is in the table before anything is sent. */
    method Open(id: string) returns (cell: FutureCell)
      requires Valid() && id !in futures
      modifies this
      ensures Valid() && fresh(cell)
      ensures View() == Client(old(View()).pending + {id}, old(View()).futures[id := Waiting])
    {
      cell := new FutureCell();
      pending := pending[id := cell];
      futures := futures[id := cell];
    }

    /** `asyncio.wait_for` gives up: the future is cancelled, the table keeps its entry. */
    method TimeOut(id: string, cell: FutureCell)
      requires Valid() && id in futures && futures[id] == cell
      modifies cell
      ensures Valid()
      ensures View() == if old(cell.state).Waiting? then old(View()).(futures := old(View()).futures[id := Cancelled])
                        else old(View())
    {
      if cell.state.Waiting? {
        cell.state := Cancelled;
      }
    }

    /** The entry is popped; its future takes the outcome, if there is one and it still waits. */
    method PopAndSettle(id: string, outcome: Option<Outcome>)
      requires Valid() && id in pending
      modifies this, pending.Values
      ensures Valid() && futures == old(futures)
      ensures var c := old(View());
              View() == Client(c.pending - {id}, if c.futures[id].Waiting? && outcome.Some?
                                                 then c.futures[id := Done(outcome.value)] else c.futures)
    {
      var future := pending[id];
      pending := pending - {id};
      if outcome.Some? {
        future.Settle(outcome.value);
      }
    }

    /** One turn of `_receive_loop`, and the reply branches of `_handle_message`. */
    method OnMessage(raw: Wire, amb: Ambient)
      requires Valid()
      modifies this, pending.Values
      ensures Valid() && futures == old(futures)
      ensures View() == Receive(role, old(View()), raw, amb)
    {
      var parsed := FromDict(raw, amb);
      if parsed.None? || !IsReply(parsed.value) || !parsed.value.id.Str? || parsed.value.id.s !in pending {
        return;
      }
      var msg := parsed.value;
      if msg.kind == MessageType.Result {
        PopAndSettle(msg.id.s, Some(Resolved(msg.result)));
      } else {
        var text := ErrorText(role, msg.error);
        PopAndSettle(msg.id.s, if text.Some? then Some(Failed(text.value)) else None);
      }
    }
  }

  // ---- What the daemon answers ----

  /** What the daemon takes from outside: how the input and output of the handler it calls turn out, the rendering of a
      method that is no string, and the ambient uuid and clock. */
  datatype DaemonInput = DaemonInput(io: HandlerResult, rendered: string, amb: Ambient)

  function StatusOk(): Value {
    Object(map["status" := Str("ok")])
  }

  /** `CpipDaemon._dispatch` and the three handlers it knows. */
  function DaemonDispatch(m: Message, inp: DaemonInput): HandlerResult {
    var name := Or(m.methodName, Str(""));
    if name.List? || name.Object? then
      Raised("unhashable method")
    else if name == Str("cache.invalidate") then
      if !m.params.Object? then Raised("params has no get")
      else if Truthy(Get(m.params.fields, "package", Str(""))) && inp.io.Raised? then inp.io
      else Returned(StatusOk())
    else if name == Str("sync.trigger") then
      match inp.io
      case Returned(updated) => Returned(Object(map["status" := Str("ok"), "updated" := updated]))
      case Raised(text) => Raised(text)
    else if name == Str("status") then
      inp.io
    else
      Returned(Object(map["error" := Str("Unknown method: " + (if name.Str? then name.s else inp.rendered))]))
  }

  /** The message the client sends because of one it received. A session sends none; the daemon acknowledges heartbeats and
      answers a call by the server if its dispatch returns: an exception ends the turn without a word. */
  function Answer(role: Role, m: Message, inp: DaemonInput): Option<Message> {
    if role.Session? then None
    else if m.kind.Heartbeat? then Some(MakeHeartbeatAck(m.id, inp.amb))
    else if m.kind.Call? then
      match DaemonDispatch(m, inp)
      case Returned(v) => Some(MakeResult(m.id, v, inp.amb))
      case Raised(_) => None
    else None
  }

  class CpipDaemon {
    const calls: PendingCalls
    var sent: seq<Wire>

    constructor (calls: PendingCalls)
      ensures this.calls == calls && sent == []
    {
      this.calls := calls;
      sent := [];
    }

    /** One message in the daemon's loop: `from_json`, `_handle_message`, and any exception swallowed. */
    method HandleMessage(raw: Wire, inp: DaemonInput)
      requires calls.Valid() && calls.role.Daemon?
      modifies this, calls, calls.pending.Values
      ensures calls.Valid() && calls.View() == Receive(Daemon, old(calls.View()), raw, inp.amb)
      ensures var parsed := FromDict(raw, inp.amb);
              var answer := if parsed.None? then None else Answer(Daemon, parsed.value, inp);
              sent == old(sent) + if answer.None? then [] else [ToDict(answer.value)]
    {
      var parsed := FromDict(raw, inp.amb);
      if parsed.None? {
        return;
      }
      var msg := parsed.value;
      if IsReply(msg) {
        calls.OnMessage(raw, inp.amb);
      } else if msg.kind.Heartbeat? {
        var ack := FillDict(MakeHeartbeatAck(msg.id, inp.amb));
        sent := sent + [ack];
      } else if msg.kind.Call? {
        var result := DaemonDispatch(msg, inp);
        if result.Returned? {
          var reply := FillDict(MakeResult(msg.id, result.value, inp.amb));
          sent := sent + [reply];
        }
      }
    }
  }

  /** When the daemon's dispatch raises: the method cannot be looked up; or a cache invalidation brings parameters that are no
      object; or the input and output of a handler that gets that far fails. */
  predicate DispatchRaises(m: Message, inp: DaemonInput) {
    var name := Or(m.methodName, Str(""));
    || name.List? || name.Object?
    || (name == Str("cache.invalidate") && !m.params.Object?)
    || (name == Str("cache.invalidate") && Truthy(Get(m.params.fields, "package", Str(""))) && inp.io.Raised?)
    || (name == Str("sync.trigger") && inp.io.Raised?)
    || (name == Str("status") && inp.io.Raised?)
  }

  /** A call by the server is answered under its own id if and only if the daemon's dispatch does not raise. */
  lemma DaemonAnswersExactly(m: Message, inp: DaemonInput)
    requires m.kind.Call? && Truthy(m.id)
    ensures Answer(Daemon, m, inp).Some? <==> !DispatchRaises(m, inp)
    ensures Answer(Daemon, m, inp).Some? ==>
              var a := Answer(Daemon, m, inp).value; a.id == m.id && a.kind == MessageType.Result
  {
    assert "cache.invalidate" != "sync.trigger" && "cache.invalidate" != "status" && "sync.trigger" != "status";
  }

  /** A heartbeat is acknowledged under its own id, and the server reads the acknowledgement as one, which is what makes
      `DeviceConnection.OnText` take the time. */
  lemma HeartbeatIsAcknowledged(m: Message, inp: DaemonInput, rx: Ambient)
    requires m.kind.Heartbeat? && Truthy(m.id) && inp.amb.Valid()
    ensures var answer := Answer(Daemon, m, inp);
            && answer.Some?
            && ToDict(answer.value) == Envelope("rpc.heartbeat.ack", m.id, inp.amb.now)
            && var read := FromDict(ToDict(answer.value), rx);
               read.Some? && read.value.kind.HeartbeatAck? && read.value.id == m.id
  {
    WireNormalises(Answer(Daemon, m, inp).value, rx);
  }

  /** What the daemon says, on the wire: the status of the handler that ran, or that there is none. */
  lemma DaemonSays(m: Message, inp: DaemonInput)
    requires m.kind.Call? && Truthy(m.id) && inp.amb.Valid() && !DispatchRaises(m, inp)
    ensures var w := ToDict(Answer(Daemon, m, inp).value);
            var ok := Str("ok");
            && w[KType] == Str("rpc.result") && w[KId] == m.id
            && (m.methodName == Str("cache.invalidate") ==> KResult in w && w[KResult] == Object(map["status" := ok]))
            && (m.methodName == Str("sync.trigger") ==>
                  KResult in w && w[KResult] == Object(map["status" := ok, "updated" := inp.io.value]))
            && (m.methodName == Str("status") && inp.io.value != Null ==> KResult in w && w[KResult] == inp.io.value)
            && (m.methodName == Null ==> KResult in w && w[KResult] == Object(map["error" := Str("Unknown method: ")]))
            && (forall name :: m.methodName == Str(name) && name !in {"cache.invalidate", "sync.trigger", "status"} ==>
                  KResult in w && w[KResult] == Object(map["error" := Str("Unknown method: " + name)]))
  {
    DaemonAnswersExactly(m, inp);
    assert "Unknown method: " + "" == "Unknown method: ";
  }

  /** The acknowledgement of a session names the device. */
  lemma SessionIsAcknowledged(handlers: Handlers, deviceId: string, m: Message, inp: ServerInput)
    requires m.kind.SessionInit? && inp.amb.Valid()
    ensures var reply := Serve(handlers, deviceId, m, inp);
            && reply.Some?
            && ToDict(reply.value) == Envelope("rpc.notify", Str(inp.amb.uuid), inp.amb.now)
                 [KMethod := Str("session.ack")][KParams := Object(map["session_id" := Str(deviceId)])]
  {
    assert "session_id" in map["session_id" := Str(deviceId)];
    NamedWires(Object(map["session_id" := Str(deviceId)]), "session.ack", inp.amb);
  }

  /** A call goes unanswered exactly if its method cannot be looked up, being a list or an object that is not empty; nothing
      but calls and session inits is answered at all. */
  lemma ServerAnswersExactly(handlers: Handlers, deviceId: string, m: Message, inp: ServerInput)
    ensures Serve(handlers, deviceId, m, inp).Some? <==>
              m.kind.SessionInit? || (m.kind.Call? && !(match m.methodName
                                                        case List(items) => items != []
                                                        case Object(fields) => fields != map[]
                                                        case _ => false))
  {
  }

  /** A call of a method nobody registered, on the wire; a call without a method is one of "". */
  lemma UnknownMethodSays(handlers: Handlers, deviceId: string, m: Message, name: string, inp: ServerInput)
    requires m.kind.Call? && Truthy(m.id) && name !in handlers && inp.amb.Valid()
    requires m.methodName == Str(name) || (m.methodName == Null && name == "")
    ensures var reply := Serve(handlers, deviceId, m, inp);
            && reply.Some?
            && ToDict(reply.value) == Envelope("rpc.error", m.id, inp.amb.now)
                 [KError := Object(map["code" := Str("METHOD_NOT_FOUND"),
                                       "message" := Str("Unknown method: " + name), "data" := Null])]
  {
    ErrorWire(m.id, "METHOD_NOT_FOUND", "Unknown method: " + name, Null, inp.amb);
  }

  /** A call that is handled, on the wire: the result with its duration, or the text of the exception and its traceback. */
  lemma HandlerSays(handlers: Handlers, deviceId: string, m: Message, name: string, inp: ServerInput)
    requires m.kind.Call? && Truthy(m.id) && m.methodName == Str(name) && name != "" && name in handlers && inp.amb.Valid()
    ensures var reply := Serve(handlers, deviceId, m, inp);
            && reply.Some?
            && match handlers[name](m.params, inp.world)
               case Returned(v) =>
                 && ToDict(reply.value)[KType] == Str("rpc.result") && ToDict(reply.value)[KId] == m.id
                 && (v != Null ==> KResult in ToDict(reply.value) && ToDict(reply.value)[KResult] == v)
                 && KMetadata in ToDict(reply.value)
                 && ToDict(reply.value)[KMetadata] == Object(map["duration_ms" := inp.duration])
               case Raised(text) =>
                 ToDict(reply.value) == Envelope("rpc.error", m.id, inp.amb.now)
                   [KError := Object(map["code" := Str("EXECUTION_ERROR"), "message" := Str(text), "data" := inp.trace])]
  {
    match handlers[name](m.params, inp.world)
    case Returned(v) =>
      assert "duration_ms" in map["duration_ms" := inp.duration];
      DictFields(Serve(handlers, deviceId, m, inp).value);
    case Raised(text) => ErrorWire(m.id, "EXECUTION_ERROR", text, inp.trace, inp.amb);
  }

  /** A call that arrives whole and is never answered: its parameters are a list. */
  lemma UnansweredCall(id: string, now: Value, rx: Ambient, inp: DaemonInput)
    requires id != "" && Truthy(now)
    ensures var m := MakeCall("cache.invalidate", List([Str("x")]), Ambient(id, now));
            FromDict(ToDict(m), rx) == Some(m) && Answer(Daemon, m, inp).None?
  {
    var m := MakeCall("cache.invalidate", List([Str("x")]), Ambient(id, now));
    WireRoundTrip(m, rx);
    DaemonAnswersExactly(m, inp);
  }
}
