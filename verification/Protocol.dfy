/** Wire messages (shared/protocol.py): construction, `to_dict` and `from_dict`. */
module Protocol {
  import opened Json

  datatype MessageType =
    | Call | Result | Error
    | StreamStart | StreamChunk | StreamEnd
    | Heartbeat | HeartbeatAck
    | SessionInit | SessionAck | SessionEnd
    | Notify | Log | Progress

  function TypeName(t: MessageType): string {
    match t
    case Call => "rpc.call"
    case Result => "rpc.result"
    case Error => "rpc.error"
    case StreamStart => "rpc.stream.start"
    case StreamChunk => "rpc.stream.chunk"
    case StreamEnd => "rpc.stream.end"
    case Heartbeat => "rpc.heartbeat"
    case HeartbeatAck => "rpc.heartbeat.ack"
    case SessionInit => "session.init"
    case SessionAck => "session.ack"
    case SessionEnd => "session.end"
    case Notify => "rpc.notify"
    case Log => "rpc.log"
    case Progress => "rpc.progress"
  }

  /** `MessageType(v)`: raises ValueError (here None) for anything that is no member's value. */
  function TypeOf(v: Value): Option<MessageType> {
    if !v.Str? then None
    else if v.s == "rpc.call" then Some(Call)
    else if v.s == "rpc.result" then Some(MessageType.Result)
    else if v.s == "rpc.error" then Some(Error)
    else if v.s == "rpc.stream.start" then Some(StreamStart)
    else if v.s == "rpc.stream.chunk" then Some(StreamChunk)
    else if v.s == "rpc.stream.end" then Some(StreamEnd)
    else if v.s == "rpc.heartbeat" then Some(Heartbeat)
    else if v.s == "rpc.heartbeat.ack" then Some(HeartbeatAck)
    else if v.s == "session.init" then Some(SessionInit)
    else if v.s == "session.ack" then Some(SessionAck)
    else if v.s == "session.end" then Some(SessionEnd)
    else if v.s == "rpc.notify" then Some(Notify)
    else if v.s == "rpc.log" then Some(Log)
    else if v.s == "rpc.progress" then Some(Progress)
    else None
  }

  lemma TypeNameRoundTrip(t: MessageType)
    ensures TypeOf(Str(TypeName(t))) == Some(t)
  {
  }

  /** The keys a message dictionary can hold; `from_dict` reads no others. */
  datatype Key = KJsonRpc | KType | KId | KMethod | KParams | KResult | KError | KTimestamp | KMetadata

  type Wire = map<Key, Value>

  datatype Message = Message(
    kind: MessageType, id: Value, methodName: Value, params: Value,
    result: Value, error: Value, timestamp: Value, metadata: Value)

  /** The two things a constructor draws from outside: a fresh uuid and the clock. */
  datatype Ambient = Ambient(uuid: string, now: Value) {
    predicate Valid() { uuid != "" && Truthy(now) }
  }

  const EMPTY: Value := Object(map[])

  /** `RPCMessage.__init__` */
  function Init(kind: MessageType, methodName: Value, params: Value, result: Value, error: Value,
                id: Value, metadata: Value, timestamp: Value, amb: Ambient): Message
  {
    Message(kind, Or(id, Str(amb.uuid)), methodName, Or(params, EMPTY),
            result, error, Or(timestamp, amb.now), Or(metadata, EMPTY))
  }

  /** What every constructed message satisfies, whatever it was constructed from. */
  predicate Constructed(m: Message) {
    && Truthy(m.id)
    && Truthy(m.timestamp)
    && (Truthy(m.params) || m.params == EMPTY)
    && (Truthy(m.metadata) || m.metadata == EMPTY)
  }

  /** `if present: d[k] = v` */
  function Put(d: Wire, k: Key, v: Value, present: bool): Wire {
    if present then d[k := v] else d
  }

  function Header(m: Message): Wire {
    map[KJsonRpc := Str("2.0"), KType := Str(TypeName(m.kind)), KId := m.id, KTimestamp := m.timestamp]
  }

  /** `to_dict`, as one expression. */
  function ToDict(m: Message): Wire {
    var d := Put(Header(m), KMethod, m.methodName, Truthy(m.methodName));
    var d := Put(d, KParams, m.params, Truthy(m.params));
    var d := Put(d, KResult, m.result, m.result != Null);
    var d := Put(d, KError, m.error, Truthy(m.error));
    Put(d, KMetadata, m.metadata, Truthy(m.metadata))
  }

  /** `to_dict` in the source's own form: a dictionary filled step by step. */
  method FillDict(m: Message) returns (msg: Wire)
    ensures msg == ToDict(m)
  {
    msg := Header(m);
    if Truthy(m.methodName) { msg := msg[KMethod := m.methodName]; }
    ghost var d1 := Put(Header(m), KMethod, m.methodName, Truthy(m.methodName));
    assert msg == d1;
    if Truthy(m.params) { msg := msg[KParams := m.params]; }
    ghost var d2 := Put(d1, KParams, m.params, Truthy(m.params));
    assert msg == d2;
    if m.result != Null { msg := msg[KResult := m.result]; }
    ghost var d3 := Put(d2, KResult, m.result, m.result != Null);
    assert msg == d3;
    if Truthy(m.error) { msg := msg[KError := m.error]; }
    ghost var d4 := Put(d3, KError, m.error, Truthy(m.error));
    assert msg == d4;
    if Truthy(m.metadata) { msg := msg[KMetadata := m.metadata]; }
  }

  /** Which keys are written, and with what: the dictionary read back key by key. */
  lemma DictFields(m: Message)
    ensures forall k :: k in ToDict(m) <==>
              match k
              case KMethod => Truthy(m.methodName)
              case KParams => Truthy(m.params)
              case KResult => m.result != Null
              case KError => Truthy(m.error)
              case KMetadata => Truthy(m.metadata)
              case _ => true
    ensures ToDict(m)[KType] == Str(TypeName(m.kind)) && ToDict(m)[KId] == m.id && ToDict(m)[KTimestamp] == m.timestamp
    ensures KMethod in ToDict(m) ==> ToDict(m)[KMethod] == m.methodName
    ensures KParams in ToDict(m) ==> ToDict(m)[KParams] == m.params
    ensures KResult in ToDict(m) ==> ToDict(m)[KResult] == m.result
    ensures KError in ToDict(m) ==> ToDict(m)[KError] == m.error
    ensures KMetadata in ToDict(m) ==> ToDict(m)[KMetadata] == m.metadata
  {
  }

  /** `from_dict`; None when the type string is unknown. */
  function FromDict(d: Wire, amb: Ambient): Option<Message> {
    match TypeOf(Get(d, KType, Str("rpc.call")))
    case None => None
    case Some(kind) =>
      Some(Init(kind, Get(d, KMethod, Null), Get(d, KParams, Null), Get(d, KResult, Null), Get(d, KError, Null),
                Get(d, KId, Null), Get(d, KMetadata, Null), Get(d, KTimestamp, Null), amb))
  }

  /** A dictionary without a type is a call; one whose type is no text is refused. */
  lemma UntypedIsCall(d: Wire, amb: Ambient)
    ensures KType !in d ==> FromDict(d, amb).Some? && FromDict(d, amb).value.kind.Call?
    ensures KType in d && !d[KType].Str? ==> FromDict(d, amb) == None
  {
  }

  /** The wire cannot tell an empty method or error from an absent one. */
  predicate Survives(m: Message) {
    && (m.methodName == Null || Truthy(m.methodName))
    && (m.error == Null || Truthy(m.error))
  }

  function Normal(m: Message): Message {
    m.(methodName := Or(m.methodName, Null), error := Or(m.error, Null))
  }

  /** What arrives is the normalised message: nothing else changes, whatever uuid and clock the receiver has. */
  lemma {:induction false} WireNormalises(m: Message, amb: Ambient)
    requires Constructed(m)
    ensures FromDict(ToDict(m), amb) == Some(Normal(m))
  {
    TypeNameRoundTrip(m.kind);
    DictFields(m);
  }

  /** The exact round trip: a constructed message survives the wire iff its method and its error are each
      absent or non-empty. */
  lemma {:induction false} WireRoundTrip(m: Message, amb: Ambient)
    requires Constructed(m)
    ensures FromDict(ToDict(m), amb) == Some(m) <==> Survives(m)
  {
    WireNormalises(m, amb);
  }

  /** One trip is enough: the second changes nothing. */
  lemma {:induction false} WireIdempotent(m: Message, amb: Ambient, amb2: Ambient)
    requires Constructed(m)
    ensures var once := FromDict(ToDict(m), amb);
            once.Some? && FromDict(ToDict(once.value), amb2) == once
  {
    WireNormalises(m, amb);
    WireNormalises(Normal(m), amb2);
  }

  // The helper constructors (shared/protocol.py:158-261).

  function MakeCall(name: string, params: Value, amb: Ambient): Message {
    Init(Call, Str(name), params, Null, Null, Null, Null, Null, amb)
  }

  function MakeResult(callId: Value, result: Value, amb: Ambient): Message {
    Init(MessageType.Result, Null, Null, result, Null, callId, Null, Null, amb)
  }

  function MakeError(callId: Value, code: string, message: string, data: Value, amb: Ambient): Message {
    Init(Error, Null, Null, Null,
         Object(map["code" := Str(code), "message" := Str(message), "data" := data]), callId, Null, Null, amb)
  }

  function MakeHeartbeat(amb: Ambient): Message {
    Init(Heartbeat, Null, Null, Null, Null, Null, Null, Null, amb)
  }

  function MakeHeartbeatAck(pingId: Value, amb: Ambient): Message {
    Init(HeartbeatAck, Null, Null, Null, Null, pingId, Null, Null, amb)
  }

  function MakeStreamStart(callId: Value, metadata: Value, amb: Ambient): Message {
    Init(StreamStart, Null, Null, Null, Null, callId, metadata, Null, amb)
  }

  function MakeStreamChunk(callId: Value, data: Value, index: int, amb: Ambient): Message {
    Init(StreamChunk, Null, Null, data, Null, callId, Object(map["index" := Int(index)]), Null, amb)
  }

  function MakeStreamEnd(callId: Value, amb: Ambient): Message {
    Init(StreamEnd, Null, Null, Null, Null, callId, Null, Null, amb)
  }

  function MakeNotification(name: string, params: Value, amb: Ambient): Message {
    Init(Notify, Str(name), params, Null, Null, Null, Null, Null, amb)
  }

  function MakeSessionInit(deviceInfo: Value, amb: Ambient): Message {
    Init(SessionInit, Null, deviceInfo, Null, Null, Null, Null, Null, amb)
  }

  /** Every reply, control and stream message survives the wire; a call or a notification does exactly when its
      method is non-empty. */
  lemma HelpersSurvive(id: Value, v: Value, text: string, code: string, index: int, amb: Ambient, rx: Ambient)
    requires amb.Valid()
    ensures forall m :: m in {MakeResult(id, v, amb), MakeError(id, code, text, v, amb), MakeHeartbeat(amb),
                              MakeHeartbeatAck(id, amb), MakeStreamStart(id, v, amb), MakeStreamChunk(id, v, index, amb),
                              MakeStreamEnd(id, amb), MakeSessionInit(v, amb)}
                    ==> FromDict(ToDict(m), rx) == Some(m)
    ensures forall m :: m in {MakeCall(text, v, amb), MakeNotification(text, v, amb)}
                    ==> (FromDict(ToDict(m), rx) == Some(m) <==> text != "")
  {
    forall m | m in {MakeResult(id, v, amb), MakeError(id, code, text, v, amb), MakeHeartbeat(amb),
                     MakeHeartbeatAck(id, amb), MakeStreamStart(id, v, amb), MakeStreamChunk(id, v, index, amb),
                     MakeStreamEnd(id, amb), MakeSessionInit(v, amb)}
      ensures FromDict(ToDict(m), rx) == Some(m)
    {
      assert "code" in map["code" := Str(code), "message" := Str(text), "data" := v];
      WireRoundTrip(m, rx);
    }
    forall m | m in {MakeCall(text, v, amb), MakeNotification(text, v, amb)}
      ensures FromDict(ToDict(m), rx) == Some(m) <==> text != ""
    {
      WireRoundTrip(m, rx);
    }
  }

  /** What every dictionary holds, as the protocol names it. */
  function Envelope(kind: string, id: Value, now: Value): Wire {
    map[KJsonRpc := Str("2.0"), KType := Str(kind), KId := id, KTimestamp := now]
  }

  // The wire format written out, message by message, for data that is not empty.

  lemma ReplyWires(id: Value, v: Value, amb: Ambient)
    requires amb.Valid() && Truthy(id) && v != Null
    ensures ToDict(MakeResult(id, v, amb)) == Envelope("rpc.result", id, amb.now)[KResult := v]
    ensures ToDict(MakeHeartbeat(amb)) == Envelope("rpc.heartbeat", Str(amb.uuid), amb.now)
    ensures ToDict(MakeHeartbeatAck(id, amb)) == Envelope("rpc.heartbeat.ack", id, amb.now)
  {
  }

  lemma ErrorWire(id: Value, code: string, text: string, data: Value, amb: Ambient)
    requires amb.Valid() && Truthy(id)
    ensures ToDict(MakeError(id, code, text, data, amb)) ==
            Envelope("rpc.error", id, amb.now)[KError := Object(map["code" := Str(code), "message" := Str(text), "data" := data])]
  {
    assert "code" in map["code" := Str(code), "message" := Str(text), "data" := data];
  }

  lemma StreamWires(id: Value, v: Value, index: int, amb: Ambient)
    requires amb.Valid() && Truthy(id) && Truthy(v)
    ensures ToDict(MakeStreamStart(id, v, amb)) == Envelope("rpc.stream.start", id, amb.now)[KMetadata := v]
    ensures ToDict(MakeStreamChunk(id, v, index, amb)) ==
            Envelope("rpc.stream.chunk", id, amb.now)[KResult := v][KMetadata := Object(map["index" := Int(index)])]
    ensures ToDict(MakeStreamEnd(id, amb)) == Envelope("rpc.stream.end", id, amb.now)
  {
    assert "index" in map["index" := Int(index)];
  }

  lemma NamedWires(params: Value, name: string, amb: Ambient)
    requires amb.Valid() && name != "" && Truthy(params)
    ensures ToDict(MakeCall(name, params, amb)) ==
            Envelope("rpc.call", Str(amb.uuid), amb.now)[KMethod := Str(name)][KParams := params]
    ensures ToDict(MakeNotification(name, params, amb)) ==
            Envelope("rpc.notify", Str(amb.uuid), amb.now)[KMethod := Str(name)][KParams := params]
    ensures ToDict(MakeSessionInit(params, amb)) == Envelope("session.init", Str(amb.uuid), amb.now)[KParams := params]
  {
  }
}
