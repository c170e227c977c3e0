/** Calls, heartbeats, timeouts, replies and lost connections in any interleaving: one client, one server and the two
    first-in first-out channels between them. */
module RpcSystem {
  import opened Json
  import opened Protocol
  import opened Rpc

  datatype Config = Config(role: Role, handlers: Handlers, deviceId: string)

  /** What the caller asked for, and on which connection the request went out (None: it was never sent). */
  datatype CallRecord = CallRecord(name: string, params: Value, sentOn: Option<nat>)

  /** `requests` and `replies` are the channels of the current connection, the `epoch`-th, holding messages as they were
      constructed; what comes out is the normalised message, see `WireTransparent`. `busy` is the call the server is
      working on. `believed` is the session's `_connected`. `calls`, `started` and `worlds` are history: every call issued,
      every id the server began to execute, and the world in which its handler ran. */
  datatype System = System(
    client: Client, connected: bool, believed: bool, epoch: nat,
    requests: seq<Message>, busy: Option<Message>, replies: seq<Message>,
    calls: map<string, CallRecord>, started: set<string>, worlds: map<string, int>)

  const START := System(Client({}, map[]), false, false, 0, [], None, [], map[], {}, map[])

  datatype Event =
    | Connect
    | Disconnect(orderly: bool)                              // in order, or with an exception
    | CloseSession                                           // `CloudSession.close`
    | Announce(info: Value, amb: Ambient)                    // the client's session.init
    | Issue(name: string, params: Value, amb: Ambient)       // a call, its id the ambient uuid
    | TimeOut(id: string)
    | Take(inp: ServerInput)                                 // the server reads its next message
    | Reply(inp: ServerInput)                                // the handler ends, the reply goes out
    | Push(m: Message)                                       // heartbeats, notifications, calls by the server
    | Deliver(din: DaemonInput)                              // the client reads its next message

  /** A session connects only if it does not believe it is connected; the daemon tries again after every loss. */
  predicate Enabled(cfg: Config, s: System, e: Event) {
    match e
    case Connect => !s.connected && (cfg.role.Daemon? || !s.believed)
    case Disconnect(_) => s.connected
    case CloseSession => cfg.role.Session?
    case Announce(_, amb) => s.connected && amb.Valid()
    case Issue(_, _, amb) => amb.Valid() && amb.uuid !in s.calls
    case TimeOut(id) => id in s.client.futures && s.client.futures[id].Waiting?
    case Take(inp) => s.busy.None? && s.requests != [] && inp.amb.Valid()
    case Reply(inp) => s.busy.Some? && inp.amb.Valid()
    case Push(m) => s.connected && Constructed(m) && !IsReply(m)
    case Deliver(inp) => s.replies != [] && inp.amb.Valid()
  }

  function Sent(m: Option<Message>): seq<Message> {
    if m.None? then [] else [m.value]
  }

  function TextId(m: Message): set<string> {
    if m.id.Str? then {m.id.s} else {}
  }

  function DoIssue(s: System, name: string, params: Value, amb: Ambient): System {
    var id := amb.uuid;
    s.(client := Client(s.client.pending + {id}, s.client.futures[id := Waiting]),
       calls := s.calls[id := CallRecord(name, params, if s.connected then Some(s.epoch) else None)],
       requests := if s.connected then s.requests + [MakeCall(name, params, amb)] else s.requests)
  }

  function DoTake(cfg: Config, s: System, inp: ServerInput): System
    requires s.requests != []
  {
    var m := Normal(s.requests[0]);
    if m.kind.Call? then
      s.(requests := s.requests[1..], busy := Some(m), started := s.started + TextId(m))
    else
      s.(requests := s.requests[1..], replies := s.replies + Sent(Serve(cfg.handlers, cfg.deviceId, m, inp)))
  }

  function DoReply(cfg: Config, s: System, inp: ServerInput): System
    requires s.busy.Some?
  {
    var m := s.busy.value;
    s.(busy := None, replies := s.replies + Sent(Serve(cfg.handlers, cfg.deviceId, m, inp)),
       worlds := if m.id.Str? then s.worlds[m.id.s := inp.world] else s.worlds)
  }

  function DoDeliver(cfg: Config, s: System, inp: DaemonInput): System
    requires s.replies != []
  {
    var m := Normal(s.replies[0]);
    s.(replies := s.replies[1..], client := OnArrival(cfg.role, s.client, m),
       requests := s.requests + Sent(Answer(cfg.role, m, inp)))
  }

  function Step(cfg: Config, s: System, e: Event): System {
    if !Enabled(cfg, s, e) then s else
    match e
    case Connect => s.(connected := true, believed := true, epoch := s.epoch + 1)
    case Disconnect(orderly) =>
      s.(connected := false, believed := s.believed && orderly, requests := [], busy := None, replies := [])
    case CloseSession => s.(connected := false, believed := false, requests := [], busy := None, replies := [])
    case Announce(info, amb) => s.(requests := s.requests + [MakeSessionInit(info, amb)])
    case Issue(name, params, amb) => DoIssue(s, name, params, amb)
    case TimeOut(id) => s.(client := s.client.(futures := s.client.futures[id := Cancelled]))
    case Take(inp) => DoTake(cfg, s, inp)
    case Reply(inp) => DoReply(cfg, s, inp)
    case Push(m) => s.(replies := s.replies + [m])
    case Deliver(inp) => DoDeliver(cfg, s, inp)
  }

  function Run(cfg: Config, s: System, es: seq<Event>): System
    decreases |es|
  {
    if es == [] then s else Run(cfg, Step(cfg, s, es[0]), es[1..])
  }

  // ---- What a call means, without ids, channels or messages ----

  function Meaning(handlers: Handlers, name: string, params: Value, world: int): Outcome {
    if name !in handlers then
      Failed(Str("Unknown method: " + name))
    else
      match handlers[name](Or(params, EMPTY), world)
      case Returned(v) => Resolved(v)
      case Raised(text) => Failed(Str(text))
  }

  /** The outcome of the call's own method and parameters, in the world its handler saw. */
  function OwnOutcome(cfg: Config, s: System, id: string): Outcome
    requires id in s.calls && id in s.worlds
  {
    Meaning(cfg.handlers, s.calls[id].name, s.calls[id].params, s.worlds[id])
  }

  // ---- The invariant ----

  predicate Carries(m: Message, reply: bool) {
    m.id.Str? && if reply then IsReply(m) else m.kind.Call?
  }

  /** The ids of the calls, or of the replies, in a channel. */
  function TravelIds(q: seq<Message>, reply: bool): multiset<string> {
    if q == [] then multiset{}
    else (if Carries(q[0], reply) then multiset{q[0].id.s} else multiset{}) + TravelIds(q[1..], reply)
  }

  function BusyId(busy: Option<Message>): multiset<string> {
    if busy.Some? && busy.value.id.Str? then multiset{busy.value.id.s} else multiset{}
  }

  /** Every id in the request channel, on the server or in the reply channel, with its number of occurrences. */
  function InFlight(s: System): multiset<string> {
    TravelIds(s.requests, false) + BusyId(s.busy) + TravelIds(s.replies, true)
  }

  /** The entries of the pending table whose request went out on the connection now open. */
  function Outstanding(s: System): set<string> {
    set id | id in s.client.pending && id in s.calls && s.connected && s.calls[id].sentOn == Some(s.epoch)
  }

  predicate Asks(m: Message, r: CallRecord) {
    && Or(m.methodName, Str("")) == Str(r.name)
    && m.params == Or(r.params, EMPTY)
  }

  predicate RequestOk(s: System, m: Message) {
    && Constructed(m)
    && (m.kind.Call? ==> m.id.Str? && m.id.s in s.calls && m.id.s !in s.started && Asks(m, s.calls[m.id.s]))
  }

  predicate ReplyOk(cfg: Config, s: System, m: Message) {
    && Constructed(m)
    && (IsReply(m) ==>
          && m.id.Str? && m.id.s in s.calls && m.id.s in s.worlds && Survives(m)
          && ReplyOutcome(cfg.role, m) == Some(OwnOutcome(cfg, s, m.id.s)))
  }

  predicate BusyOk(s: System) {
    s.busy.Some? ==>
      var m := s.busy.value;
      m.kind.Call? && m.id.Str? && m.id.s != "" && m.id.s in s.calls && m.id.s in s.started && m.id.s !in s.worlds
      && Asks(m, s.calls[m.id.s])
  }

  ghost predicate RequestsOk(s: System) {
    forall i :: 0 <= i < |s.requests| ==> RequestOk(s, s.requests[i])
  }

  ghost predicate RepliesOk(cfg: Config, s: System) {
    forall i :: 0 <= i < |s.replies| ==> ReplyOk(cfg, s, s.replies[i])
  }

  ghost predicate TableOk(s: System) {
    && s.client.futures.Keys == s.calls.Keys
    && s.client.pending <= s.calls.Keys
    && s.worlds.Keys <= s.started <= s.calls.Keys
    && (forall id :: id in s.calls && s.calls[id].sentOn.Some? ==> s.calls[id].sentOn.value <= s.epoch)
    && (forall id :: id in s.calls && s.client.futures[id].Waiting? ==> id in s.client.pending)
    && (!s.connected ==> s.requests == [] && s.busy.None? && s.replies == [])
    && (s.connected ==> s.believed)
  }

  ghost predicate SettledOk(cfg: Config, s: System)
    requires TableOk(s)
  {
    forall id :: id in s.calls && s.client.futures[id].Done? ==>
      && id !in s.client.pending && id in s.worlds
      && s.client.futures[id].outcome == OwnOutcome(cfg, s, id)
  }

  ghost predicate Inv(cfg: Config, s: System) {
    && TableOk(s)
    && RequestsOk(s) && BusyOk(s) && RepliesOk(cfg, s)
    && SettledOk(cfg, s)
    && InFlight(s) == multiset(Outstanding(s))
  }

  // ---- Channel lemmas ----

  lemma {:induction false} TravelIdsAppend(q: seq<Message>, r: seq<Message>, reply: bool)
    ensures TravelIds(q + r, reply) == TravelIds(q, reply) + TravelIds(r, reply)
  {
    if q == [] {
      assert q + r == r;
    } else {
      assert (q + r)[1..] == q[1..] + r;
      TravelIdsAppend(q[1..], r, reply);
    }
  }

  lemma {:induction false} TravelIdsHas(q: seq<Message>, i: nat, reply: bool)
    requires i < |q| && Carries(q[i], reply)
    ensures q[i].id.s in TravelIds(q, reply)
  {
    if i == 0 {
    } else {
      TravelIdsHas(q[1..], i - 1, reply);
    }
  }

  // ---- Every event keeps the invariant ----

  lemma StartInv(cfg: Config)
    ensures Inv(cfg, START)
  {
    assert Outstanding(START) == {};
  }

  lemma ConnectionInv(cfg: Config, s: System, e: Event)
    requires Inv(cfg, s) && Enabled(cfg, s, e) && (e.Connect? || e.Disconnect? || e.CloseSession?)
    ensures Inv(cfg, Step(cfg, s, e))
  {
    assert Outstanding(Step(cfg, s, e)) == {};
  }

  lemma TimeOutInv(cfg: Config, s: System, e: Event)
    requires Inv(cfg, s) && Enabled(cfg, s, e) && e.TimeOut?
    ensures Inv(cfg, Step(cfg, s, e))
  {
    var s' := Step(cfg, s, e);
    assert Outstanding(s') == Outstanding(s);
    forall i | 0 <= i < |s'.requests| ensures RequestOk(s', s'.requests[i]) {
      assert RequestOk(s, s.requests[i]);
    }
    forall i | 0 <= i < |s'.replies| ensures ReplyOk(cfg, s', s'.replies[i]) {
      assert ReplyOk(cfg, s, s.replies[i]);
    }
  }

  /** What a step must keep for the channel conditions to stay true of the messages already there. */
  ghost predicate Extends(s: System, t: System) {
    && (forall id :: id in s.calls ==> id in t.calls && t.calls[id] == s.calls[id])
    && (forall id :: id in s.worlds ==> id in t.worlds && t.worlds[id] == s.worlds[id])
  }

  lemma KeepRequests(s: System, t: System, more: seq<Message>)
    requires RequestsOk(s) && Extends(s, t) && t.started * s.calls.Keys == s.started * s.calls.Keys
    requires t.requests == s.requests + more
    requires forall i :: 0 <= i < |more| ==> RequestOk(t, more[i])
    ensures RequestsOk(t)
  {
    forall i | 0 <= i < |t.requests| ensures RequestOk(t, t.requests[i]) {
      if i < |s.requests| {
        var m := s.requests[i];
        assert RequestOk(s, m);
        if m.kind.Call? {
          assert m.id.s in t.started <==> m.id.s in t.started * s.calls.Keys;
        }
      } else {
        assert t.requests[i] == more[i - |s.requests|];
      }
    }
  }

  lemma KeepReplies(cfg: Config, s: System, t: System, more: seq<Message>)
    requires RepliesOk(cfg, s) && Extends(s, t)
    requires t.replies == s.replies + more
    requires forall i :: 0 <= i < |more| ==> ReplyOk(cfg, t, more[i])
    ensures RepliesOk(cfg, t)
  {
    forall i | 0 <= i < |t.replies| ensures ReplyOk(cfg, t, t.replies[i]) {
      if i < |s.replies| {
        assert ReplyOk(cfg, s, s.replies[i]);
      } else {
        assert t.replies[i] == more[i - |s.replies|];
      }
    }
  }

  lemma InFlightAppend(s: System, t: System, up: seq<Message>, down: seq<Message>)
    requires t.requests == s.requests + up && t.busy == s.busy && t.replies == s.replies + down
    ensures InFlight(t) == InFlight(s) + TravelIds(up, false) + TravelIds(down, true)
  {
    TravelIdsAppend(s.requests, up, false);
    TravelIdsAppend(s.replies, down, true);
  }

  /** The state after a call is issued; `more` is what goes out. */
  function Issued(s: System, id: string, r: CallRecord, more: seq<Message>): System {
    s.(client := Client(s.client.pending + {id}, s.client.futures[id := Waiting]),
       calls := s.calls[id := r], requests := s.requests + more)
  }

  predicate IssuedOk(s: System, id: string, r: CallRecord, more: seq<Message>) {
    && id !in s.calls
    && if s.connected then
         && r.sentOn == Some(s.epoch)
         && |more| == 1 && Constructed(more[0]) && more[0].kind.Call? && more[0].id == Str(id) && Asks(more[0], r)
       else
         r.sentOn == None && more == []
  }

  lemma IssueTable(cfg: Config, s: System, id: string, r: CallRecord, more: seq<Message>)
    requires Inv(cfg, s) && IssuedOk(s, id, r, more)
    ensures TableOk(Issued(s, id, r, more)) && SettledOk(cfg, Issued(s, id, r, more))
  {
  }

  lemma IssueOutstanding(cfg: Config, s: System, id: string, r: CallRecord, more: seq<Message>)
    requires Inv(cfg, s) && IssuedOk(s, id, r, more)
    ensures id !in Outstanding(s)
    ensures Outstanding(Issued(s, id, r, more)) == Outstanding(s) + (if s.connected then {id} else {})
  {
  }

  lemma OneId(more: seq<Message>, reply: bool)
    requires |more| == 1 && Carries(more[0], reply)
    ensures TravelIds(more, reply) == multiset{more[0].id.s}
  {
    assert more[1..] == [];
  }

  lemma IssueBag(cfg: Config, s: System, id: string, r: CallRecord, more: seq<Message>)
    requires Inv(cfg, s) && IssuedOk(s, id, r, more)
    ensures InFlight(Issued(s, id, r, more)) == multiset(Outstanding(Issued(s, id, r, more)))
  {
    var t := Issued(s, id, r, more);
    InFlightAppend(s, t, more, []);
    IssueOutstanding(cfg, s, id, r, more);
    if s.connected {
      OneId(more, false);
    }
  }

  lemma IssueCore(cfg: Config, s: System, id: string, r: CallRecord, more: seq<Message>)
    requires Inv(cfg, s) && IssuedOk(s, id, r, more)
    ensures Inv(cfg, Issued(s, id, r, more))
  {
    var t := Issued(s, id, r, more);
    IssueTable(cfg, s, id, r, more);
    IssueBag(cfg, s, id, r, more);
    assert Extends(s, t);
    KeepRequests(s, t, more);
    KeepReplies(cfg, s, t, []);
  }

  lemma IssueInv(cfg: Config, s: System, e: Event)
    requires Inv(cfg, s) && Enabled(cfg, s, e) && e.Issue?
    ensures Inv(cfg, Step(cfg, s, e))
  {
    var id := e.amb.uuid;
    var r := CallRecord(e.name, e.params, if s.connected then Some(s.epoch) else None);
    var more := if s.connected then [MakeCall(e.name, e.params, e.amb)] else [];
    assert Step(cfg, s, e).requests == s.requests + more;
    IssueCore(cfg, s, id, r, more);
  }

  lemma {:induction false} NoIds(q: seq<Message>, reply: bool)
    requires forall i :: 0 <= i < |q| ==> !Carries(q[i], reply)
    ensures TravelIds(q, reply) == multiset{}
  {
    if q == [] {
    } else {
      NoIds(q[1..], reply);
    }
  }

  /** Messages that are no calls and no replies travel beside the calls without touching them. */
  lemma NoiseCore(cfg: Config, s: System, t: System, up: seq<Message>, down: seq<Message>)
    requires Inv(cfg, s)
    requires up != [] || down != [] ==> s.connected
    requires forall i :: 0 <= i < |up| ==> Constructed(up[i]) && !up[i].kind.Call?
    requires forall i :: 0 <= i < |down| ==> Constructed(down[i]) && !IsReply(down[i])
    requires t == s.(requests := s.requests + up, replies := s.replies + down)
    ensures Inv(cfg, t)
  {
    assert InFlight(t) == multiset(Outstanding(t)) by {
      InFlightAppend(s, t, up, down);
      NoIds(up, false);
      NoIds(down, true);
      assert Outstanding(t) == Outstanding(s);
    }
    KeepRequests(s, t, up);
    KeepReplies(cfg, s, t, down);
  }

  lemma NoiseInv(cfg: Config, s: System, e: Event)
    requires Inv(cfg, s) && Enabled(cfg, s, e) && (e.Announce? || e.Push?)
    ensures Inv(cfg, Step(cfg, s, e))
  {
    var up := if e.Announce? then [MakeSessionInit(e.info, e.amb)] else [];
    var down := if e.Push? then [e.m] else [];
    var t := Step(cfg, s, e);
    assert t.requests == s.requests + up && t.replies == s.replies + down;
    NoiseCore(cfg, s, t, up, down);
  }

  /** A call still queued behind the first one has another id. */
  lemma TakenOnce(cfg: Config, s: System, i: nat)
    requires Inv(cfg, s) && i + 1 < |s.requests| && s.requests[0].kind.Call? && s.requests[i + 1].kind.Call?
    ensures s.requests[0].id != s.requests[i + 1].id
  {
    assert RequestOk(s, s.requests[0]) && RequestOk(s, s.requests[i + 1]);
    var id := s.requests[0].id.s;
    assert s.requests[1..][i] == s.requests[i + 1];
    TravelIdsHas(s.requests[1..], i, false);
    assert multiset(Outstanding(s))[id] <= 1;
  }

  lemma TakeCallInv(cfg: Config, s: System, e: Event)
    requires Inv(cfg, s) && Enabled(cfg, s, e) && e.Take? && s.requests[0].kind.Call?
    ensures Inv(cfg, Step(cfg, s, e))
  {
    var t := DoTake(cfg, s, e.inp);
    assert RequestOk(s, s.requests[0]);
    assert Outstanding(t) == Outstanding(s);
    forall i | 0 <= i < |t.requests| ensures RequestOk(t, t.requests[i]) {
      assert RequestOk(s, s.requests[i + 1]);
      if s.requests[i + 1].kind.Call? { TakenOnce(cfg, s, i); }
    }
    KeepReplies(cfg, s, t, []);
  }

  lemma SkipRequest(cfg: Config, s: System, t: System)
    requires Inv(cfg, s) && s.requests != [] && !s.requests[0].kind.Call?
    requires t == s.(requests := s.requests[1..])
    ensures Inv(cfg, t)
  {
    assert Outstanding(t) == Outstanding(s);
    forall i | 0 <= i < |t.requests| ensures RequestOk(t, t.requests[i]) {
      assert RequestOk(s, s.requests[i + 1]);
    }
    KeepReplies(cfg, s, t, []);
  }

  lemma TakeOtherInv(cfg: Config, s: System, e: Event)
    requires Inv(cfg, s) && Enabled(cfg, s, e) && e.Take? && !s.requests[0].kind.Call?
    ensures Inv(cfg, Step(cfg, s, e))
  {
    var s1 := s.(requests := s.requests[1..]);
    SkipRequest(cfg, s, s1);
    var down := Sent(Serve(cfg.handlers, cfg.deviceId, Normal(s.requests[0]), e.inp));
    var t := DoTake(cfg, s, e.inp);
    assert t.requests == s1.requests + [] && t.replies == s1.replies + down;
    NoiseCore(cfg, s1, t, [], down);
  }

  lemma ErrorReads(role: Role, id: Value, code: string, text: string, data: Value, amb: Ambient)
    requires Truthy(id) && amb.Valid()
    ensures var m := MakeError(id, code, text, data, amb);
            && Constructed(m) && Survives(m) && IsReply(m) && m.id == id
            && ReplyOutcome(role, m) == Some(Failed(Str(text)))
  {
    assert "message" in map["code" := Str(code), "message" := Str(text), "data" := data];
  }

  lemma ResultReads(role: Role, id: Value, v: Value, duration: Value, amb: Ambient)
    requires Truthy(id) && amb.Valid()
    ensures var m := MakeResult(id, v, amb).(metadata := Object(map["duration_ms" := duration]));
            && Constructed(m) && Survives(m) && IsReply(m) && m.id == id
            && ReplyOutcome(role, m) == Some(Resolved(v))
  {
    assert "duration_ms" in map["duration_ms" := duration];
  }

  /** Whatever the handler does, the dispatcher's reply reads back as the outcome of what was asked. */
  lemma DispatchMeans(cfg: Config, m: Message, r: CallRecord, inp: ServerInput)
    requires m.id.Str? && m.id.s != "" && Asks(m, r) && inp.amb.Valid()
    ensures var reply := Dispatch(cfg.handlers, m, inp);
            && reply.Some? && Constructed(reply.value) && Survives(reply.value) && IsReply(reply.value)
            && reply.value.id == m.id
            && ReplyOutcome(cfg.role, reply.value) == Some(Meaning(cfg.handlers, r.name, r.params, inp.world))
  {
    if r.name !in cfg.handlers {
      ErrorReads(cfg.role, m.id, "METHOD_NOT_FOUND", "Unknown method: " + r.name, Null, inp.amb);
    } else {
      match cfg.handlers[r.name](m.params, inp.world)
      case Returned(v) => ResultReads(cfg.role, m.id, v, inp.duration, inp.amb);
      case Raised(text) => ErrorReads(cfg.role, m.id, "EXECUTION_ERROR", text, inp.trace, inp.amb);
    }
  }

  lemma ReplyBag(s: System, t: System, reply: Message)
    requires s.busy.Some? && Carries(reply, true) && s.busy.value.id == reply.id
    requires t.requests == s.requests && t.busy == None && t.replies == s.replies + [reply]
    ensures InFlight(t) == InFlight(s)
  {
    TravelIdsAppend(s.replies, [reply], true);
    OneId([reply], true);
  }

  lemma ReplyInv(cfg: Config, s: System, e: Event)
    requires Inv(cfg, s) && Enabled(cfg, s, e) && e.Reply?
    ensures Inv(cfg, Step(cfg, s, e))
  {
    var m := s.busy.value;
    var id := m.id.s;
    DispatchMeans(cfg, m, s.calls[id], e.inp);
    ReplyCore(cfg, s, Dispatch(cfg.handlers, m, e.inp).value, e.inp.world);
  }

  lemma ReplyCore(cfg: Config, s: System, reply: Message, world: int)
    requires Inv(cfg, s) && s.busy.Some?
    requires Constructed(reply) && Survives(reply) && IsReply(reply) && reply.id == s.busy.value.id
    requires var r := s.calls[s.busy.value.id.s];
             ReplyOutcome(cfg.role, reply) == Some(Meaning(cfg.handlers, r.name, r.params, world))
    ensures Inv(cfg, s.(busy := None, replies := s.replies + [reply], worlds := s.worlds[s.busy.value.id.s := world]))
  {
    var t := s.(busy := None, replies := s.replies + [reply], worlds := s.worlds[s.busy.value.id.s := world]);
    ReplyBag(s, t, reply);
    assert Outstanding(t) == Outstanding(s);
    assert Extends(s, t);
    KeepRequests(s, t, []);
    KeepReplies(cfg, s, t, [reply]);
  }

  /** What the client's own answers put on the request channel is never a call. */
  lemma AnswerIsNoise(cfg: Config, m: Message, inp: DaemonInput)
    requires Constructed(m) && inp.amb.Valid()
    ensures var up := Sent(Answer(cfg.role, m, inp));
            forall i :: 0 <= i < |up| ==> Constructed(up[i]) && !up[i].kind.Call?
  {
  }

  /** A reply in the channel belongs to an entry of the pending table. */
  lemma ReplyHasEntry(cfg: Config, s: System, m: Message)
    requires Inv(cfg, s) && s.replies != [] && m == s.replies[0] && IsReply(m)
    ensures m.id.Str? && m.id.s in Outstanding(s)
    ensures TravelIds(s.replies, true) == multiset{m.id.s} + TravelIds(s.replies[1..], true)
  {
    assert ReplyOk(cfg, s, m);
    TravelIdsHas(s.replies, 0, true);
    assert InFlight(s)[m.id.s] > 0;
  }

  lemma CancelOne(a: multiset<string>, b: multiset<string>, id: string)
    requires a + multiset{id} == b + multiset{id}
    ensures a == b
  {
    forall x ensures a[x] == b[x] {
      assert (a + multiset{id})[x] == (b + multiset{id})[x];
    }
  }

  lemma ReceivedBag(s: System, t: System, m: Message)
    requires s.replies != [] && m.id.Str? && m.id.s in Outstanding(s)
    requires TravelIds(s.replies, true) == multiset{m.id.s} + TravelIds(s.replies[1..], true)
    requires InFlight(s) == multiset(Outstanding(s))
    requires t == s.(replies := s.replies[1..], client := t.client) && t.client.pending == s.client.pending - {m.id.s}
    ensures InFlight(t) == multiset(Outstanding(t))
  {
    var id := m.id.s;
    var rest := Outstanding(s) - {id};
    assert Outstanding(t) == rest;
    assert Outstanding(s) == rest + {id} && id !in rest;
    assert multiset(rest + {id}) == multiset(rest) + multiset{id};
    assert InFlight(s) == InFlight(t) + multiset{id};
    CancelOne(InFlight(t), multiset(rest), id);
  }

  lemma ReceivedReply(cfg: Config, s: System, t: System, m: Message)
    requires Inv(cfg, s) && s.replies != [] && m == s.replies[0] && IsReply(m)
    requires t == s.(replies := s.replies[1..], client := Settle(cfg.role, s.client, m))
    ensures Inv(cfg, t)
    ensures m.id.Str? && m.id.s in Outstanding(s) && t.client.pending == s.client.pending - {m.id.s}
  {
    assert ReplyOk(cfg, s, m);
    ReplyHasEntry(cfg, s, m);
    ReceivedBag(s, t, m);
    assert TableOk(t) && SettledOk(cfg, t);
    KeepRequests(s, t, []);
    forall i | 0 <= i < |t.replies| ensures ReplyOk(cfg, t, t.replies[i]) {
      assert ReplyOk(cfg, s, s.replies[i + 1]);
    }
  }

  lemma SkipReply(cfg: Config, s: System, t: System)
    requires Inv(cfg, s) && s.replies != [] && !IsReply(s.replies[0])
    requires t == s.(replies := s.replies[1..])
    ensures Inv(cfg, t)
  {
    assert Outstanding(t) == Outstanding(s);
    KeepRequests(s, t, []);
    forall i | 0 <= i < |t.replies| ensures ReplyOk(cfg, t, t.replies[i]) {
      assert ReplyOk(cfg, s, s.replies[i + 1]);
    }
  }

  lemma DeliverOtherInv(cfg: Config, s: System, inp: DaemonInput)
    requires Inv(cfg, s) && s.replies != [] && !IsReply(s.replies[0]) && inp.amb.Valid()
    ensures Inv(cfg, DoDeliver(cfg, s, inp))
  {
    var s1, t := s.(replies := s.replies[1..]), DoDeliver(cfg, s, inp);
    var up := Sent(Answer(cfg.role, Normal(s.replies[0]), inp));
    assert ReplyOk(cfg, s, s.replies[0]);
    SkipReply(cfg, s, s1);
    AnswerIsNoise(cfg, Normal(s.replies[0]), inp);
    assert t.requests == s1.requests + up && t.replies == s1.replies + [];
    NoiseCore(cfg, s1, t, up, []);
  }

  lemma DeliverInv(cfg: Config, s: System, inp: DaemonInput)
    requires Inv(cfg, s) && s.replies != [] && inp.amb.Valid()
    ensures Inv(cfg, DoDeliver(cfg, s, inp))
  {
    var m := s.replies[0];
    if IsReply(m) {
      assert ReplyOk(cfg, s, m);
      assert Normal(m) == m && s.requests + Sent(Answer(cfg.role, m, inp)) == s.requests;
      ReceivedReply(cfg, s, DoDeliver(cfg, s, inp), m);
    } else {
      DeliverOtherInv(cfg, s, inp);
    }
  }

  lemma StepInv(cfg: Config, s: System, e: Event)
    requires Inv(cfg, s)
    ensures Inv(cfg, Step(cfg, s, e))
  {
    if Enabled(cfg, s, e) {
      match e
      case Connect => ConnectionInv(cfg, s, e);
      case Disconnect(_) => ConnectionInv(cfg, s, e);
      case CloseSession => ConnectionInv(cfg, s, e);
      case Announce(_, _) => NoiseInv(cfg, s, e);
      case Issue(_, _, _) => IssueInv(cfg, s, e);
      case TimeOut(_) => TimeOutInv(cfg, s, e);
      case Take(_) => if s.requests[0].kind.Call? { TakeCallInv(cfg, s, e); } else { TakeOtherInv(cfg, s, e); }
      case Reply(_) => ReplyInv(cfg, s, e);
      case Push(_) => NoiseInv(cfg, s, e);
      case Deliver(inp) => DeliverInv(cfg, s, inp);
    }
  }

  lemma {:induction false} RunInv(cfg: Config, s: System, es: seq<Event>)
    requires Inv(cfg, s)
    ensures Inv(cfg, Run(cfg, s, es))
    decreases |es|
  {
    if es == [] {
    } else {
      StepInv(cfg, s, es[0]);
      RunInv(cfg, Step(cfg, s, es[0]), es[1..]);
    }
  }

  // ---- Main results ----

  /** What the client class does with a dictionary off the wire is what the system does with the message sent. */
  lemma {:induction false} WireTransparent(role: Role, c: Client, m: Message, amb: Ambient)
    requires Constructed(m)
    ensures Receive(role, c, ToDict(m), amb) == OnArrival(role, c, Normal(m))
  {
    WireNormalises(m, amb);
  }

  /** Correlation over every run. A settled call has the outcome of its own method and parameters; an id is in the
      request channel, on the server or in the reply channel exactly once if its entry belongs to the open connection,
      timed out or not, and nowhere otherwise. */
  lemma Correlation(cfg: Config, es: seq<Event>, id: string)
    ensures var s := Run(cfg, START, es);
            && (id in s.client.futures && s.client.futures[id].Done? ==>
                  && id in s.calls && id in s.worlds
                  && s.client.futures[id].outcome == Meaning(cfg.handlers, s.calls[id].name, s.calls[id].params, s.worlds[id]))
            && InFlight(s)[id] == (if id in Outstanding(s) then 1 else 0)
  {
    StartInv(cfg);
    RunInv(cfg, START, es);
  }

  lemma ArrivalKeepsSettled(role: Role, client: Client, m: Message, id: string)
    requires id in client.futures
    ensures var t := OnArrival(role, client, m);
            id in t.futures && (!client.futures[id].Waiting? ==> t.futures[id] == client.futures[id])
  {
  }

  lemma StepKeepsSettled(cfg: Config, s: System, e: Event, id: string)
    requires Inv(cfg, s) && id in s.calls
    ensures var t := Step(cfg, s, e);
            && id in t.calls && t.calls[id] == s.calls[id] && id in t.client.futures
            && (!s.client.futures[id].Waiting? ==> t.client.futures[id] == s.client.futures[id])
  {
    if e.Deliver? && Enabled(cfg, s, e) {
      ArrivalKeepsSettled(cfg.role, s.client, Normal(s.replies[0]), id);
    }
  }

  /** A future is settled or cancelled at most once: whatever follows leaves it as it is. */
  lemma {:induction false} SettledOnce(cfg: Config, s: System, es: seq<Event>, id: string)
    requires Inv(cfg, s) && id in s.calls && !s.client.futures[id].Waiting?
    ensures id in Run(cfg, s, es).client.futures && Run(cfg, s, es).client.futures[id] == s.client.futures[id]
    decreases |es|
  {
    if es == [] {
    } else {
      StepInv(cfg, s, es[0]);
      StepKeepsSettled(cfg, s, es[0], id);
      SettledOnce(cfg, Step(cfg, s, es[0]), es[1..], id);
    }
  }

  // What the history records, step by step, so that an outcome is that of the call as it was issued.

  /** Issuing a call records its name and parameters, opens its entry, and puts it on the wire if there is a connection. */
  lemma IssueIsRecorded(cfg: Config, s: System, name: string, params: Value, amb: Ambient)
    requires amb.Valid() && amb.uuid !in s.calls
    ensures var t := Step(cfg, s, Issue(name, params, amb));
            && t.calls == s.calls[amb.uuid := CallRecord(name, params, if s.connected then Some(s.epoch) else None)]
            && t.client == Client(s.client.pending + {amb.uuid}, s.client.futures[amb.uuid := Waiting])
            && t.started == s.started && t.worlds == s.worlds && t.busy == s.busy && t.replies == s.replies
            && (if s.connected then
                  && |t.requests| == |s.requests| + 1 && t.requests[..|s.requests|] == s.requests
                  && var m := t.requests[|s.requests|];
                     m.kind.Call? && m.id == Str(amb.uuid) && m.methodName == Str(name) && m.params == Or(params, EMPTY)
                else t.requests == s.requests)
  {
  }

  /** The server takes up the next message of the request channel: a call becomes the one it is busy with. */
  lemma TakeIsRecorded(cfg: Config, s: System, inp: ServerInput)
    requires s.busy.None? && s.requests != [] && inp.amb.Valid()
    ensures var t, m := Step(cfg, s, Take(inp)), Normal(s.requests[0]);
            && t.requests == s.requests[1..] && t.calls == s.calls && t.client == s.client && t.worlds == s.worlds
            && (m.kind.Call? ==> t.busy == Some(m) && t.replies == s.replies && t.started == s.started + TextId(m))
            && (!m.kind.Call? ==> t.busy == None && t.started == s.started)
  {
  }

  /** The handler ran in the world that was recorded for its call, and the reply is the last message on the way back. */
  lemma ReplyIsRecorded(cfg: Config, s: System, inp: ServerInput)
    requires Inv(cfg, s) && s.busy.Some? && inp.amb.Valid()
    ensures var t, m := Step(cfg, s, Event.Reply(inp)), s.busy.value;
            && m.id.Str? && t.busy == None && t.worlds == s.worlds[m.id.s := inp.world]
            && t.calls == s.calls && t.client == s.client && t.requests == s.requests
            && t.replies == s.replies + Sent(Serve(cfg.handlers, cfg.deviceId, m, inp))
  {
  }

  /** A timeout cancels a call that still waits, and nothing else changes. */
  lemma TimeOutIsRecorded(cfg: Config, s: System, id: string)
    ensures Step(cfg, s, TimeOut(id)) ==
            if id in s.client.futures && s.client.futures[id] == Waiting
            then s.(client := Client(s.client.pending, s.client.futures[id := Cancelled])) else s
  {
  }

  /** Whenever a connection ends, what is under way on it is lost, and the client keeps its calls; a session takes itself for
      connected afterwards exactly if the server closed in order. A new connection has the next number and empty channels; at
      the start the first one can be made. */
  lemma ConnectionEnds(cfg: Config, s: System, orderly: bool)
    requires Inv(cfg, s)
    ensures s.connected ==>
              var t := Step(cfg, s, Disconnect(orderly));
              && !t.connected && t.believed == orderly && t.requests == t.replies == [] && t.busy == None
              && t.client == s.client && t.calls == s.calls && t.worlds == s.worlds && t.epoch == s.epoch
    ensures cfg.role.Session? ==>
              var t := Step(cfg, s, CloseSession);
              && !t.connected && !t.believed && t.requests == t.replies == [] && t.busy == None
              && t.client == s.client && t.calls == s.calls && t.worlds == s.worlds && t.epoch == s.epoch
    ensures !s.connected && (cfg.role.Daemon? || !s.believed) ==>
              var t := Step(cfg, s, Connect);
              && t.connected && t.believed && t.epoch == s.epoch + 1 && t.requests == t.replies == [] && t.busy == None
              && t.client == s.client && t.calls == s.calls && t.worlds == s.worlds
    ensures Step(cfg, START, Connect).connected && START.epoch == 0
  {
  }

  /** Any reply that arrives finds its entry and removes it. A waiting call gets its own outcome; a late reply to a call
      that timed out settles nothing. */
  lemma ReplyArrives(cfg: Config, s: System, inp: DaemonInput)
    requires Inv(cfg, s) && s.replies != [] && IsReply(s.replies[0]) && inp.amb.Valid()
    ensures var t := Step(cfg, s, Deliver(inp));
            && s.replies[0].id.Str?
            && var id := s.replies[0].id.s;
            && id in s.client.pending && t.client.pending == s.client.pending - {id}
            && id in s.calls && id in s.worlds
            && t.client.futures == (if s.client.futures[id].Waiting? then s.client.futures[id := Done(OwnOutcome(cfg, s, id))]
                                    else s.client.futures)
  {
    var m := s.replies[0];
    assert ReplyOk(cfg, s, m);
    assert Normal(m) == m;
    ReceivedReply(cfg, s, s.(replies := s.replies[1..], client := Settle(cfg.role, s.client, m)), m);
  }

  /** The server takes up the call `id` in this step. */
  predicate Begins(cfg: Config, s: System, e: Event, id: string) {
    Enabled(cfg, s, e) && e.Take? && s.requests[0].kind.Call? && s.requests[0].id == Str(id)
  }

  /** How often it does so during a run. */
  function TimesBegun(cfg: Config, s: System, es: seq<Event>, id: string): nat
    decreases |es|
  {
    if es == [] then 0
    else (if Begins(cfg, s, es[0], id) then 1 else 0) + TimesBegun(cfg, Step(cfg, s, es[0]), es[1..], id)
  }

  lemma BeginsOnlyFresh(cfg: Config, s: System, e: Event, id: string)
    requires Inv(cfg, s)
    ensures Begins(cfg, s, e, id) ==> id !in s.started && id in Step(cfg, s, e).started
    ensures id in s.started ==> id in Step(cfg, s, e).started
  {
    if Begins(cfg, s, e, id) {
      assert RequestOk(s, s.requests[0]);
    }
  }

  /** At most once: over every run, reconnections included, the server begins each call at most once, and none that it had
      begun before. */
  lemma {:induction false} AtMostOnce(cfg: Config, s: System, es: seq<Event>, id: string)
    requires Inv(cfg, s)
    ensures TimesBegun(cfg, s, es, id) <= if id in s.started then 0 else 1
    decreases |es|
  {
    if es == [] {
    } else {
      BeginsOnlyFresh(cfg, s, es[0], id);
      StepInv(cfg, s, es[0]);
      AtMostOnce(cfg, Step(cfg, s, es[0]), es[1..], id);
    }
  }

  // ---- Reconnecting ----

  /** A session that takes itself for connected although its connection is gone. */
  predicate Stranded(cfg: Config, s: System) {
    cfg.role.Session? && !s.connected && s.believed
  }

  lemma StrandedStep(cfg: Config, s: System, e: Event)
    requires Inv(cfg, s) && Stranded(cfg, s) && !e.CloseSession?
    ensures Stranded(cfg, Step(cfg, s, e)) && Step(cfg, s, e).worlds == s.worlds
  {
  }

  lemma {:induction false} StrandedForEver(cfg: Config, s: System, es: seq<Event>)
    requires Inv(cfg, s) && Stranded(cfg, s) && CloseSession !in es
    ensures Stranded(cfg, Run(cfg, s, es)) && Run(cfg, s, es).worlds == s.worlds
    decreases |es|
  {
    if es == [] {
    } else {
      StrandedStep(cfg, s, es[0]);
      StepInv(cfg, s, es[0]);
      StrandedForEver(cfg, Step(cfg, s, es[0]), es[1..]);
    }
  }

  ghost predicate ConnectedAfter(cfg: Config, s: System, es: seq<Event>) {
    Run(cfg, s, es).connected
  }

  /** A lost connection can come back by itself if and only if the client is the daemon or has noticed the loss; a session can
      always be closed and connects again. */
  lemma ReconnectsExactly(cfg: Config, s: System)
    requires Inv(cfg, s) && !s.connected
    ensures (exists es :: CloseSession !in es && ConnectedAfter(cfg, s, es)) <==> cfg.role.Daemon? || !s.believed
    ensures cfg.role.Session? ==> ConnectedAfter(cfg, s, [CloseSession, Connect])
  {
    if cfg.role.Session? {
      var closed := Step(cfg, s, CloseSession);
      assert [CloseSession, Connect][1..] == [Connect] && [Connect][1..] == [];
      assert Run(cfg, closed, [Connect]) == Run(cfg, Step(cfg, closed, Connect), []) == Step(cfg, closed, Connect);
    }
    if Stranded(cfg, s) {
      forall es | CloseSession !in es ensures !ConnectedAfter(cfg, s, es) { StrandedForEver(cfg, s, es); }
    } else {
      assert Step(cfg, s, Connect).connected;
      assert ConnectedAfter(cfg, s, [Connect]) by { assert [Connect][1..] == []; }
    }
  }

  /** After an orderly close by the server, and until it is closed itself, a session never connects again, and no call it
      issues is ever settled. */
  lemma OrderlyCloseStrands(cfg: Config, s: System, es: seq<Event>, id: string)
    requires Inv(cfg, s) && cfg.role.Session? && s.connected && id !in s.calls && CloseSession !in es
    ensures var t := Run(cfg, Step(cfg, s, Disconnect(true)), es);
            !t.connected && (id in t.client.futures ==> !t.client.futures[id].Done?)
  {
    var s1 := Step(cfg, s, Disconnect(true));
    StepInv(cfg, s, Disconnect(true));
    StrandedForEver(cfg, s1, es);
    RunInv(cfg, s1, es);
  }

  // ---- Calls and heartbeats by the server, over whole runs ----

  /** The ids of the messages of one type, in order. */
  function IdsOf(q: seq<Message>, kind: MessageType): seq<Value> {
    if q == [] then [] else (if q[0].kind == kind then [q[0].id] else []) + IdsOf(q[1..], kind)
  }

  /** What the server sends that wants an answer, and the type of the answer. */
  predicate WantsAnswer(kind: MessageType) {
    kind.Call? || kind.Heartbeat?
  }

  function AnswerKind(kind: MessageType): MessageType {
    if kind.Call? then MessageType.Result else HeartbeatAck
  }

  /** A message by the server that the daemon took up, and whether the dispatch of a call raised. */
  datatype Handling = Handling(id: Value, raised: bool)

  function HandledIds(hs: seq<Handling>): seq<Value> {
    if hs == [] then [] else [hs[0].id] + HandledIds(hs[1..])
  }

  function ReturnedIds(hs: seq<Handling>): seq<Value> {
    if hs == [] then [] else (if hs[0].raised then [] else [hs[0].id]) + ReturnedIds(hs[1..])
  }

  /** What one event adds to the messages of a type pushed, to those handled, and to those read by the server. */
  function PushedNow(cfg: Config, s: System, e: Event, kind: MessageType): seq<Value> {
    if Enabled(cfg, s, e) && e.Push? then IdsOf([e.m], kind) else []
  }

  function HandledNow(cfg: Config, s: System, e: Event, kind: MessageType): seq<Handling> {
    if Enabled(cfg, s, e) && e.Deliver? && s.replies[0].kind == kind then
      [Handling(s.replies[0].id, kind.Call? && DispatchRaises(Normal(s.replies[0]), e.din))]
    else []
  }

  function ReadNow(cfg: Config, s: System, e: Event, kind: MessageType): seq<Value> {
    if Enabled(cfg, s, e) && e.Take? then IdsOf([s.requests[0]], kind) else []
  }

  function Pushed(cfg: Config, s: System, es: seq<Event>, kind: MessageType): seq<Value>
    decreases |es|
  {
    if es == [] then [] else PushedNow(cfg, s, es[0], kind) + Pushed(cfg, Step(cfg, s, es[0]), es[1..], kind)
  }

  function Handled(cfg: Config, s: System, es: seq<Event>, kind: MessageType): seq<Handling>
    decreases |es|
  {
    if es == [] then [] else HandledNow(cfg, s, es[0], kind) + Handled(cfg, Step(cfg, s, es[0]), es[1..], kind)
  }

  function Read(cfg: Config, s: System, es: seq<Event>, kind: MessageType): seq<Value>
    decreases |es|
  {
    if es == [] then [] else ReadNow(cfg, s, es[0], kind) + Read(cfg, Step(cfg, s, es[0]), es[1..], kind)
  }

  lemma {:induction false} IdsOfAppend(q: seq<Message>, r: seq<Message>, kind: MessageType)
    ensures IdsOf(q + r, kind) == IdsOf(q, kind) + IdsOf(r, kind)
  {
    if q == [] {
      assert q + r == r;
    } else {
      IdsOfAppend(q[1..], r, kind);
      var first := if q[0].kind == kind then [q[0].id] else [];
      calc {
        IdsOf(q + r, kind);
        { assert (q + r)[0] == q[0] && (q + r)[1..] == q[1..] + r; }
        first + IdsOf(q[1..] + r, kind);
        first + (IdsOf(q[1..], kind) + IdsOf(r, kind));
        { Associate(first, IdsOf(q[1..], kind), IdsOf(r, kind)); }
        IdsOf(q, kind) + IdsOf(r, kind);
      }
    }
  }

  lemma Associate(a: seq<Value>, b: seq<Value>, c: seq<Value>)
    ensures a + (b + c) == (a + b) + c
  {
  }

  lemma IdsOfOther(q: seq<Message>, m: Message, kind: MessageType)
    requires m.kind != kind
    ensures IdsOf(q + [m], kind) == IdsOf(q, kind)
  {
    IdsOfAppend(q, [m], kind);
    assert [m][1..] == [];
  }

  lemma IdsOfHead(q: seq<Message>, kind: MessageType)
    requires q != []
    ensures IdsOf(q, kind) == IdsOf([q[0]], kind) + IdsOf(q[1..], kind)
  {
    assert [q[0]][1..] == [];
  }

  lemma {:induction false} HandledAppend(a: seq<Handling>, b: seq<Handling>)
    ensures HandledIds(a + b) == HandledIds(a) + HandledIds(b)
    ensures ReturnedIds(a + b) == ReturnedIds(a) + ReturnedIds(b)
  {
    if a == [] {
      assert a + b == b;
    } else {
      assert (a + b)[0] == a[0] && (a + b)[1..] == a[1..] + b;
      HandledAppend(a[1..], b);
      Associate([a[0].id], HandledIds(a[1..]), HandledIds(b));
      Associate(if a[0].raised then [] else [a[0].id], ReturnedIds(a[1..]), ReturnedIds(b));
    }
  }

  lemma IdsOfServed(cfg: Config, q: seq<Message>, m: Message, inp: ServerInput, kind: MessageType)
    requires WantsAnswer(kind)
    ensures IdsOf(q + Sent(Serve(cfg.handlers, cfg.deviceId, m, inp)), kind) == IdsOf(q, kind)
  {
    IdsOfAppend(q, Sent(Serve(cfg.handlers, cfg.deviceId, m, inp)), kind);
  }

  /** The daemon's answer, if it is one to this type of message. */
  lemma AnswerFits(m: Message, inp: DaemonInput, kind: MessageType)
    requires Truthy(m.id) && WantsAnswer(kind)
    ensures IdsOf(Sent(Answer(Daemon, m, inp)), AnswerKind(kind)) ==
            if m.kind == kind && !(kind.Call? && DispatchRaises(m, inp)) then [m.id] else []
  {
    if m.kind.Call? {
      DaemonAnswersExactly(m, inp);
    }
    if Answer(Daemon, m, inp).Some? {
      assert [Answer(Daemon, m, inp).value][1..] == [];
    }
  }

  /** One event: calls and heartbeats by the server leave their channel only to be handled. */
  lemma PushesFlow(cfg: Config, s: System, e: Event, kind: MessageType)
    requires cfg.role.Daemon? && !e.Disconnect? && WantsAnswer(kind)
    ensures IdsOf(s.replies, kind) + PushedNow(cfg, s, e, kind) ==
            HandledIds(HandledNow(cfg, s, e, kind)) + IdsOf(Step(cfg, s, e).replies, kind)
  {
    if !Enabled(cfg, s, e) {
    } else if e.Deliver? {
      DeliveredFlow(cfg, s, e, kind);
    } else {
      match e
      case Take(inp) => IdsOfServed(cfg, s.replies, Normal(s.requests[0]), inp, kind);
      case Reply(inp) => IdsOfServed(cfg, s.replies, s.busy.value, inp, kind);
      case Push(m) => IdsOfAppend(s.replies, [m], kind);
      case _ =>
    }
  }

  lemma DeliveredFlow(cfg: Config, s: System, e: Event, kind: MessageType)
    requires e.Deliver? && Enabled(cfg, s, e)
    ensures IdsOf(s.replies, kind) == HandledIds(HandledNow(cfg, s, e, kind)) + IdsOf(Step(cfg, s, e).replies, kind)
  {
    IdsOfHead(s.replies, kind);
    assert HandledIds(HandledNow(cfg, s, e, kind)) == IdsOf([s.replies[0]], kind);
  }

  lemma DeliveredAnswers(cfg: Config, s: System, e: Event, kind: MessageType)
    requires Inv(cfg, s) && cfg.role.Daemon? && e.Deliver? && Enabled(cfg, s, e) && WantsAnswer(kind)
    ensures IdsOf(Step(cfg, s, e).requests, AnswerKind(kind)) ==
            IdsOf(s.requests, AnswerKind(kind)) + ReturnedIds(HandledNow(cfg, s, e, kind))
  {
    var m := Normal(s.replies[0]);
    assert ReplyOk(cfg, s, s.replies[0]);
    IdsOfAppend(s.requests, Sent(Answer(Daemon, m, e.din)), AnswerKind(kind));
    AnswerFits(m, e.din, kind);
  }

  lemma OtherAnswers(cfg: Config, s: System, e: Event, answer: MessageType)
    requires cfg.role.Daemon? && !e.Deliver? && !e.Disconnect? && !answer.Call? && !answer.SessionInit?
    ensures IdsOf(s.requests, answer) == ReadNow(cfg, s, e, answer) + IdsOf(Step(cfg, s, e).requests, answer)
  {
    if Enabled(cfg, s, e) {
      match e
      case Announce(info, amb) => IdsOfOther(s.requests, MakeSessionInit(info, amb), answer);
      case Issue(name, params, amb) => IdsOfOther(s.requests, MakeCall(name, params, amb), answer);
      case Take(_) => IdsOfHead(s.requests, answer);
      case _ =>
    }
  }

  /** One event: the answers on their way to the server are those to the heartbeats, and to the calls whose dispatch
      returned. */
  lemma AnswersFlow(cfg: Config, s: System, e: Event, kind: MessageType)
    requires Inv(cfg, s) && cfg.role.Daemon? && !e.Disconnect? && WantsAnswer(kind)
    ensures IdsOf(s.requests, AnswerKind(kind)) + ReturnedIds(HandledNow(cfg, s, e, kind)) ==
            ReadNow(cfg, s, e, AnswerKind(kind)) + IdsOf(Step(cfg, s, e).requests, AnswerKind(kind))
  {
    if !e.Deliver? {
      OtherAnswers(cfg, s, e, AnswerKind(kind));
    } else if Enabled(cfg, s, e) {
      DeliveredAnswers(cfg, s, e, kind);
    }
  }

  /** Over every run on one connection, in whatever interleaving, for calls and for heartbeats: those pushed are handled in
      that order, none of them lost or repeated; and what the server reads, followed by what is still under way, is one answer
      for each that was handled, calls whose dispatch raised excepted, in the same order and under its id. */
  lemma {:induction false} ServerIsAnswered(cfg: Config, s: System, es: seq<Event>, kind: MessageType)
    requires Inv(cfg, s) && cfg.role.Daemon? && WantsAnswer(kind) && forall e :: e in es ==> !e.Disconnect?
    ensures var t, hs, answer := Run(cfg, s, es), Handled(cfg, s, es, kind), AnswerKind(kind);
            && IdsOf(s.replies, kind) + Pushed(cfg, s, es, kind) == HandledIds(hs) + IdsOf(t.replies, kind)
            && IdsOf(s.requests, answer) + ReturnedIds(hs) == Read(cfg, s, es, answer) + IdsOf(t.requests, answer)
    decreases |es|
  {
    if es == [] {
    } else {
      var e, s1, answer := es[0], Step(cfg, s, es[0]), AnswerKind(kind);
      StepInv(cfg, s, e);
      PushesFlow(cfg, s, e, kind);
      AnswersFlow(cfg, s, e, kind);
      ServerIsAnswered(cfg, s1, es[1..], kind);
      var now, later := HandledNow(cfg, s, e, kind), Handled(cfg, s1, es[1..], kind);
      HandledAppend(now, later);
      var t := Run(cfg, s, es);
      FlowTwice(IdsOf(s.replies, kind), PushedNow(cfg, s, e, kind), HandledIds(now), IdsOf(s1.replies, kind),
                Pushed(cfg, s1, es[1..], kind), HandledIds(later), IdsOf(t.replies, kind));
      FlowTwice(IdsOf(s.requests, answer), ReturnedIds(now), ReadNow(cfg, s, e, answer), IdsOf(s1.requests, answer),
                ReturnedIds(later), Read(cfg, s1, es[1..], answer), IdsOf(t.requests, answer));
    }
  }

  lemma NothingElse(a: seq<Value>, b: seq<Value>)
    ensures [] + a == b + [] <==> a == b
  {
    assert [] + a == a && b + [] == b;
  }

  /** The calls pushed from an idle connection on are answered by results in that order, one each unless its dispatch raised,
      once nothing is under way any more. */
  lemma ServerCallsAnswered(cfg: Config, s: System, es: seq<Event>)
    requires Inv(cfg, s) && cfg.role.Daemon? && forall e :: e in es ==> !e.Disconnect?
    requires s.requests == s.replies == Run(cfg, s, es).requests == Run(cfg, s, es).replies == []
    ensures Pushed(cfg, s, es, Call) == HandledIds(Handled(cfg, s, es, Call))
    ensures Read(cfg, s, es, MessageType.Result) == ReturnedIds(Handled(cfg, s, es, Call))
  {
    ServerIsAnswered(cfg, s, es, Call);
    NothingElse(Pushed(cfg, s, es, Call), HandledIds(Handled(cfg, s, es, Call)));
    NothingElse(ReturnedIds(Handled(cfg, s, es, Call)), Read(cfg, s, es, MessageType.Result));
  }

  lemma {:induction false} BeatsNeverRaise(cfg: Config, s: System, es: seq<Event>)
    ensures ReturnedIds(Handled(cfg, s, es, Heartbeat)) == HandledIds(Handled(cfg, s, es, Heartbeat))
    decreases |es|
  {
    if es == [] {
    } else {
      var now, later := HandledNow(cfg, s, es[0], Heartbeat), Handled(cfg, Step(cfg, s, es[0]), es[1..], Heartbeat);
      HandledAppend(now, later);
      BeatsNeverRaise(cfg, Step(cfg, s, es[0]), es[1..]);
      assert now != [] ==> now[1..] == [];
    }
  }

  /** Every heartbeat pushed from an idle connection on is acknowledged, once, in order and under its id, once nothing is under
      way any more. */
  lemma HeartbeatsAcknowledged(cfg: Config, s: System, es: seq<Event>)
    requires Inv(cfg, s) && cfg.role.Daemon? && forall e :: e in es ==> !e.Disconnect?
    requires s.requests == s.replies == Run(cfg, s, es).requests == Run(cfg, s, es).replies == []
    ensures Read(cfg, s, es, HeartbeatAck) == Pushed(cfg, s, es, Heartbeat)
  {
    ServerIsAnswered(cfg, s, es, Heartbeat);
    BeatsNeverRaise(cfg, s, es);
    NothingElse(Pushed(cfg, s, es, Heartbeat), HandledIds(Handled(cfg, s, es, Heartbeat)));
    NothingElse(ReturnedIds(Handled(cfg, s, es, Heartbeat)), Read(cfg, s, es, HeartbeatAck));
  }

  /** What goes in comes out, twice over. */
  lemma FlowTwice(a: seq<Value>, in1: seq<Value>, out1: seq<Value>, b: seq<Value>,
                  in2: seq<Value>, out2: seq<Value>, c: seq<Value>)
    requires a + in1 == out1 + b && b + in2 == out2 + c
    ensures a + (in1 + in2) == (out1 + out2) + c
  {
    Associate(a, in1, in2);
    Associate(out1, b, in2);
    Associate(out1, out2, c);
  }

  // ---- Progress on a live connection ----

  predicate Internal(e: Event) {
    e.Take? || e.Reply? || e.Deliver?
  }

  function RequestWork(m: Message): nat {
    if m.kind.Call? then 4 else if m.kind.SessionInit? then 2 else 1
  }

  function ReplyWork(m: Message): nat {
    if m.kind.Heartbeat? || m.kind.Call? then 2 else 1
  }

  function Work(q: seq<Message>, reply: bool): nat {
    if q == [] then 0 else (if reply then ReplyWork(q[0]) else RequestWork(q[0])) + Work(q[1..], reply)
  }

  function Remaining(s: System): nat {
    Work(s.requests, false) + (if s.busy.Some? then 3 else 0) + Work(s.replies, true)
  }

  lemma {:induction false} WorkAppend(q: seq<Message>, r: seq<Message>, reply: bool)
    ensures Work(q + r, reply) == Work(q, reply) + Work(r, reply)
  {
    if q == [] {
      assert q + r == r;
    } else {
      assert (q + r)[1..] == q[1..] + r;
      WorkAppend(q[1..], r, reply);
    }
  }

  lemma ServeWork(cfg: Config, m: Message, inp: ServerInput)
    ensures Work(Sent(Serve(cfg.handlers, cfg.deviceId, m, inp)), true) <= if m.kind.Call? || m.kind.SessionInit? then 1 else 0
  {
  }

  lemma AnswerWork(cfg: Config, m: Message, inp: DaemonInput)
    ensures Work(Sent(Answer(cfg.role, m, inp)), false) < ReplyWork(m)
  {
  }

  /** Every turn of the server or of the client's receive loop uses up work, and only the calls' own fates change. */
  lemma InternalStep(cfg: Config, s: System, e: Event)
    requires Enabled(cfg, s, e) && Internal(e)
    ensures var t := Step(cfg, s, e);
            Remaining(t) < Remaining(s) && t.connected == s.connected && t.epoch == s.epoch && t.calls == s.calls
  {
    match e
    case Take(inp) =>
      ServeWork(cfg, Normal(s.requests[0]), inp);
      WorkAppend(s.replies, Sent(Serve(cfg.handlers, cfg.deviceId, Normal(s.requests[0]), inp)), true);
    case Reply(inp) =>
      ServeWork(cfg, s.busy.value, inp);
      WorkAppend(s.replies, Sent(Serve(cfg.handlers, cfg.deviceId, s.busy.value, inp)), true);
    case Deliver(inp) =>
      AnswerWork(cfg, Normal(s.replies[0]), inp);
      WorkAppend(s.requests, Sent(Answer(cfg.role, Normal(s.replies[0]), inp)), false);
  }

  lemma InternalFutures(cfg: Config, s: System, e: Event, id: string)
    requires Inv(cfg, s) && Internal(e) && id in s.calls && !s.client.futures[id].Cancelled?
    ensures id in Step(cfg, s, e).client.futures && !Step(cfg, s, e).client.futures[id].Cancelled?
  {
  }

  /** When nothing is in flight on a live connection, no call sent on it is left in the table. */
  lemma Quiescent(cfg: Config, s: System)
    requires Inv(cfg, s) && s.connected && Remaining(s) == 0
    ensures forall id :: id in s.client.pending ==> s.calls[id].sentOn != Some(s.epoch)
  {
    assert s.requests == [] && s.replies == [];
    assert InFlight(s) == multiset{};
    forall id | id in s.client.pending ensures s.calls[id].sentOn != Some(s.epoch) {
      assert multiset(Outstanding(s))[id] == 0;
      assert id !in Outstanding(s);
    }
  }

  /** Any run of internal turns that empties the channels answers every call outstanding at its start: the waiting ones
      are settled with their own outcome, the timed-out ones are cleared. */
  lemma {:induction false} DrainAnswers(cfg: Config, s: System, es: seq<Event>, id: string)
    requires Inv(cfg, s) && id in Outstanding(s)
    requires forall e :: e in es ==> Internal(e)
    requires Remaining(Run(cfg, s, es)) == 0
    ensures var t := Run(cfg, s, es);
            && id in t.calls && t.calls[id] == s.calls[id] && id !in t.client.pending
            && (s.client.futures[id].Waiting? ==>
                  id in t.worlds && id in t.client.futures && t.client.futures[id] == Done(OwnOutcome(cfg, t, id)))
  {
    RunInv(cfg, s, es);
    DrainKeeps(cfg, s, es, id);
    Quiescent(cfg, Run(cfg, s, es));
  }

  lemma {:induction false} DrainKeeps(cfg: Config, s: System, es: seq<Event>, id: string)
    requires Inv(cfg, s) && id in s.calls
    requires forall e :: e in es ==> Internal(e)
    ensures var t := Run(cfg, s, es);
            && id in t.calls && t.calls[id] == s.calls[id] && t.connected == s.connected && t.epoch == s.epoch
            && id in t.client.futures
            && (!s.client.futures[id].Cancelled? ==> !t.client.futures[id].Cancelled?)
    decreases |es|
  {
    if es == [] {
    } else {
      var e := es[0];
      StepInv(cfg, s, e);
      StepKeepsSettled(cfg, s, e, id);
      if Enabled(cfg, s, e) { InternalStep(cfg, s, e); }
      if !s.client.futures[id].Cancelled? { InternalFutures(cfg, s, e, id); }
      DrainKeeps(cfg, Step(cfg, s, e), es[1..], id);
    }
  }

  /** One world for every turn of a drain. */
  datatype DrainInput = DrainInput(server: ServerInput, io: HandlerResult)

  function NextTurn(s: System, inp: DrainInput): Event {
    if s.busy.Some? then Event.Reply(inp.server)
    else if s.requests != [] then Take(inp.server)
    else Deliver(DaemonInput(inp.io, inp.server.rendered, inp.server.amb))
  }

  lemma NextTurnWorks(cfg: Config, s: System, inp: DrainInput)
    requires inp.server.amb.Valid() && Remaining(s) > 0
    ensures Enabled(cfg, s, NextTurn(s, inp)) && Internal(NextTurn(s, inp))
    ensures Remaining(Step(cfg, s, NextTurn(s, inp))) < Remaining(s)
  {
    InternalStep(cfg, s, NextTurn(s, inp));
  }

  function Drain(cfg: Config, s: System, inp: DrainInput): seq<Event>
    requires inp.server.amb.Valid()
    decreases Remaining(s)
  {
    if Remaining(s) == 0 then [] else
      NextTurnWorks(cfg, s, inp);
      [NextTurn(s, inp)] + Drain(cfg, Step(cfg, s, NextTurn(s, inp)), inp)
  }

  /** And such a run always exists, no longer than the work in flight: nothing can get stuck. */
  lemma {:induction false} CanDrain(cfg: Config, s: System, inp: DrainInput)
    requires inp.server.amb.Valid()
    ensures var es := Drain(cfg, s, inp);
            |es| <= Remaining(s) && (forall e :: e in es ==> Internal(e)) && Remaining(Run(cfg, s, es)) == 0
    decreases Remaining(s)
  {
    if Remaining(s) > 0 {
      var e := NextTurn(s, inp);
      NextTurnWorks(cfg, s, inp);
      var t := Step(cfg, s, e);
      CanDrain(cfg, t, inp);
      var es := [e] + Drain(cfg, t, inp);
      assert es[0] == e && es[1..] == Drain(cfg, t, inp);
    }
  }
}
