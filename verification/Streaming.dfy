/** Streamed results: receivers and the manager that feeds them (runtime/streaming.py). */
module Streaming {
  import opened Json

  /** What a receiver holds. Python's None, the padding, is `Null`. */
  datatype Receiver = Receiver(metadata: Value, chunks: seq<Value>, complete: bool)

  const FRESH := Receiver(Object(map[]), [], false)

  function Padded(chunks: seq<Value>, length: nat): seq<Value> {
    if |chunks| < length then chunks + seq(length - |chunks|, _ => Null) else chunks
  }

  predicate InRange(r: Receiver, index: int) {
    |r.chunks| + index >= 0 || index >= 0
  }

  /** `on_chunk`. A negative index counts from the end, as in any list assignment, and raises if it is out of range. */
  function OnChunk(r: Receiver, data: Value, index: int): Receiver {
    if !InRange(r, index) then r
    else if index >= 0 then r.(chunks := Padded(r.chunks, index + 1)[index := data])
    else r.(chunks := r.chunks[|r.chunks| + index := data])
  }

  class StreamReceiver {
    const callId: string
    var metadata: Value
    var chunks: seq<Value>
    var complete: bool

    constructor (callId: string)
      ensures this.callId == callId && View() == FRESH
    {
      this.callId := callId;
      metadata := Object(map[]);
      chunks := [];
      complete := false;
    }

    ghost function View(): Receiver
      reads this
    {
      Receiver(metadata, chunks, complete)
    }

    /** `ok` is false if it raises IndexError. */
    method AddChunk(data: Value, index: int) returns (ok: bool)
      modifies this
      ensures View() == OnChunk(old(View()), data, index)
      ensures ok == InRange(old(View()), index)
    {
      if index < 0 && |chunks| + index < 0 {
        return false;
      }
      while |chunks| <= index
        invariant old(|chunks|) <= |chunks|
        invariant |chunks| > old(|chunks|) ==> |chunks| <= index + 1
        invariant chunks == old(chunks) + seq(|chunks| - old(|chunks|), _ => Null)
        invariant metadata == old(metadata) && complete == old(complete)
      {
        chunks := chunks + [Null];
      }
      var at := if index < 0 then |chunks| + index else index;
      chunks := chunks[at := data];
      return true;
    }
  }

  /** A piece with a negative index in range replaces the chunk that many places from the end, and nothing else. */
  lemma NegativeIndex(r: Receiver, data: Value, index: int)
    requires index < 0
    ensures var t := OnChunk(r, data, index);
            && t.metadata == r.metadata && t.complete == r.complete && |t.chunks| == |r.chunks|
            && forall i :: 0 <= i < |r.chunks| ==> t.chunks[i] == if i - |r.chunks| == index then data else r.chunks[i]
  {
  }

  // ---- The manager ----

  datatype Event =
    | Open(id: string)                                // create_stream
    | Begin(id: string, metadata: Value)              // STREAM_START
    | Piece(id: string, data: Value, index: int)      // STREAM_CHUNK
    | End(id: string)                                 // STREAM_END
    | Other(id: string)                               // any other message

  datatype Owned = Owned(id: string, receiver: Receiver)

  /** `all` holds every receiver ever created, `live` those the manager still knows. */
  datatype System = System(live: map<string, nat>, all: seq<Owned>)

  const START := System(map[], [])

  /** What a message does to the receiver it is for. */
  function Deliver(r: Receiver, e: Event): Receiver {
    match e
    case Begin(_, metadata) => r.(metadata := metadata)
    case Piece(_, data, index) => OnChunk(r, data, index)
    case End(_) => r.(complete := true)
    case _ => r
  }

  function Step(s: System, e: Event): System {
    if e.Open? then
      System(s.live[e.id := |s.all|], s.all + [Owned(e.id, FRESH)])
    else if e.id !in s.live || s.live[e.id] >= |s.all| then
      s
    else
      var h := s.live[e.id];
      System(if e.End? then s.live - {e.id} else s.live, s.all[h := Owned(s.all[h].id, Deliver(s.all[h].receiver, e))])
  }

  class StreamManager {
    var streams: map<string, StreamReceiver>
    ghost var handles: map<string, nat>
    ghost var created: seq<StreamReceiver>

    constructor ()
      ensures Valid() && View() == START
    {
      streams := map[];
      handles := map[];
      created := [];
    }

    ghost predicate Valid()
      reads this
    {
      && streams.Keys == handles.Keys
      && (forall id :: id in streams ==> handles[id] < |created| && streams[id] == created[handles[id]])
      && (forall i, j :: 0 <= i < j < |created| ==> created[i] != created[j])
    }

    ghost function View(): System
      reads this, created
    {
      System(handles, seq(|created|, i requires 0 <= i < |created| reads this, created =>
        Owned(created[i].callId, created[i].View())))
    }

    method CreateStream(id: string) returns (receiver: StreamReceiver)
      requires Valid()
      modifies this
      ensures Valid() && fresh(receiver) && created == old(created) + [receiver]
      ensures View() == Step(old(View()), Open(id))
    {
      receiver := new StreamReceiver(id);
      streams := streams[id := receiver];
      handles := handles[id := |created|];
      created := created + [receiver];
    }

    /** `ok` is false if it raises. */
    method HandleMessage(e: Event) returns (ok: bool)
      requires Valid() && !e.Open?
      modifies this, streams.Values
      ensures Valid() && created == old(created)
      ensures View() == Step(old(View()), e)
      ensures ok <==> e.id in old(streams) && e.Piece? ==> InRange(old(streams[e.id].View()), e.index)
    {
      ok := true;
      if e.id !in streams {
        return;
      }
      var receiver := streams[e.id];
      ghost var h := handles[e.id];
      match e
      case Begin(_, metadata) => receiver.metadata := metadata;
      case Piece(_, data, index) => ok := receiver.AddChunk(data, index);
      case End(id) =>
        receiver.complete := true;
        streams := streams - {id};
        handles := handles - {id};
      case Other(_) =>
      assert forall i :: 0 <= i < |created| && i != h ==> created[i] != receiver;
    }
  }

  // ---- One stream among many ----

  function Run(s: System, es: seq<Event>): System
    decreases |es|
  {
    if es == [] then s else Run(Step(s, es[0]), es[1..])
  }

  function Project(es: seq<Event>, id: string): seq<Event> {
    if es == [] then [] else (if es[0].id == id then [es[0]] else []) + Project(es[1..], id)
  }

  /** The receivers of one id in the order they were created; only the last can still be open. */
  datatype Solo = Solo(receivers: seq<Receiver>, open: bool)

  /** A stream id as if it were alone in the world. */
  function SoloStep(s: Solo, e: Event): Solo {
    if e.Open? then Solo(s.receivers + [FRESH], true)
    else if !s.open || s.receivers == [] then s
    else Solo(s.receivers[|s.receivers| - 1 := Deliver(s.receivers[|s.receivers| - 1], e)], !e.End?)
  }

  function SoloRun(s: Solo, es: seq<Event>): Solo
    decreases |es|
  {
    if es == [] then s else SoloRun(SoloStep(s, es[0]), es[1..])
  }

  function ReceiversOf(all: seq<Owned>, id: string): seq<Receiver> {
    if all == [] then []
    else ReceiversOf(all[..|all| - 1], id) + (if all[|all| - 1].id == id then [all[|all| - 1].receiver] else [])
  }

  function SoloView(s: System, id: string): Solo {
    Solo(ReceiversOf(s.all, id), id in s.live)
  }

  /** A live id refers to the latest receiver created for it. */
  ghost predicate Inv(s: System) {
    forall id :: id in s.live ==>
      && s.live[id] < |s.all| && s.all[s.live[id]].id == id
      && forall j :: s.live[id] < j < |s.all| ==> s.all[j].id != id
  }

  lemma StepInv(s: System, e: Event)
    requires Inv(s)
    ensures Inv(Step(s, e))
  {
  }

  lemma {:induction false} UpdateLatest(all: seq<Owned>, h: nat, id: string, r: Receiver)
    requires h < |all| && all[h].id == id && forall j :: h < j < |all| ==> all[j].id != id
    ensures ReceiversOf(all, id) != []
    ensures ReceiversOf(all, id)[|ReceiversOf(all, id)| - 1] == all[h].receiver
    ensures ReceiversOf(all[h := Owned(id, r)], id) == ReceiversOf(all, id)[|ReceiversOf(all, id)| - 1 := r]
  {
    var front := all[..|all| - 1];
    if h < |all| - 1 {
      UpdateLatest(front, h, id, r);
      assert all[h := Owned(id, r)][..|all| - 1] == front[h := Owned(id, r)];
    } else {
      assert all[h := Owned(id, r)][..|all| - 1] == front;
    }
  }

  lemma {:induction false} UpdateOther(all: seq<Owned>, h: nat, o: Owned, id: string)
    requires h < |all| && all[h].id == o.id != id
    ensures ReceiversOf(all[h := o], id) == ReceiversOf(all, id)
  {
    var front := all[..|all| - 1];
    if h < |all| - 1 {
      UpdateOther(front, h, o, id);
      assert all[h := o][..|all| - 1] == front[h := o];
    } else {
      assert all[h := o][..|all| - 1] == front;
    }
  }

  lemma StepSolo(s: System, e: Event, id: string)
    requires Inv(s)
    ensures SoloView(Step(s, e), id) == if e.id == id then SoloStep(SoloView(s, id), e) else SoloView(s, id)
  {
    if e.Open? {
      assert (s.all + [Owned(e.id, FRESH)])[..|s.all|] == s.all;
    } else if e.id in s.live {
      var h := s.live[e.id];
      var r := Deliver(s.all[h].receiver, e);
      if e.id == id {
        UpdateLatest(s.all, h, id, r);
      } else {
        UpdateOther(s.all, h, Owned(e.id, r), id);
      }
    }
  }

  /** No cross-talk: in any interleaving of any number of streams, the receivers of one id are what that id's own
      messages alone would have made of them. */
  lemma {:induction false} Demultiplexes(s: System, es: seq<Event>, id: string)
    requires Inv(s)
    ensures SoloView(Run(s, es), id) == SoloRun(SoloView(s, id), Project(es, id))
    decreases |es|
  {
    if es == [] {
    } else {
      StepInv(s, es[0]);
      StepSolo(s, es[0], id);
      Demultiplexes(Step(s, es[0]), es[1..], id);
      if es[0].id == id {
        var p := Project(es, id);
        assert p[0] == es[0] && p[1..] == Project(es[1..], id);
      } else {
        assert Project(es, id) == Project(es[1..], id);
      }
    }
  }

  ghost predicate Detached(s: System, h: nat) {
    h < |s.all| && forall id :: id in s.live ==> s.live[id] != h
  }

  /** A receiver the manager has let go, at its STREAM_END or because its id was opened anew, never changes again. */
  lemma {:induction false} Frozen(s: System, es: seq<Event>, h: nat)
    requires Inv(s) && Detached(s, h)
    ensures Detached(Run(s, es), h) && Run(s, es).all[h] == s.all[h]
    decreases |es|
  {
    if es == [] {
    } else {
      StepInv(s, es[0]);
      Frozen(Step(s, es[0]), es[1..], h);
    }
  }

  // ---- Reassembly ----

  /** Pieces of one original, in any order, any of them any number of times. */
  ghost predicate PiecesOf(es: seq<Event>, original: seq<Value>) {
    forall i :: 0 <= i < |es| && es[i].Piece? ==> 0 <= es[i].index < |original| && es[i].data == original[es[i].index]
  }

  predicate Arrived(es: seq<Event>, index: int) {
    exists i :: 0 <= i < |es| && es[i].Piece? && es[i].index == index
  }

  function Feed(r: Receiver, es: seq<Event>): Receiver {
    if es == [] then r else Deliver(Feed(r, es[..|es| - 1]), es[|es| - 1])
  }

  /** The list so far: every piece that arrived at its own index, None elsewhere, up to the highest index that arrived. */
  ghost predicate Holds(chunks: seq<Value>, es: seq<Event>, original: seq<Value>) {
    && |chunks| <= |original|
    && (|chunks| > 0 ==> Arrived(es, |chunks| - 1))
    && (forall i :: |chunks| <= i < |original| ==> !Arrived(es, i))
    && (forall i :: 0 <= i < |chunks| ==> chunks[i] == if Arrived(es, i) then original[i] else Null)
  }

  lemma ArrivedLast(es: seq<Event>, index: int)
    requires es != []
    ensures Arrived(es, index) <==> Arrived(es[..|es| - 1], index) || (es[|es| - 1].Piece? && es[|es| - 1].index == index)
  {
    var front := es[..|es| - 1];
    if Arrived(front, index) {
      var i :| 0 <= i < |front| && front[i].Piece? && front[i].index == index;
      assert es[i] == front[i];
    }
    if i :| 0 <= i < |es| && es[i].Piece? && es[i].index == index {
      assert i < |front| ==> front[i] == es[i];
    }
  }

  lemma {:induction false} FeedHolds(es: seq<Event>, original: seq<Value>)
    requires PiecesOf(es, original)
    ensures Holds(Feed(FRESH, es).chunks, es, original)
  {
    if es == [] {
    } else {
      var front, e := es[..|es| - 1], es[|es| - 1];
      FeedHolds(front, original);
      forall i ensures Arrived(es, i) <==> Arrived(front, i) || (e.Piece? && e.index == i) { ArrivedLast(es, i); }
      var before, after := Feed(FRESH, front).chunks, Feed(FRESH, es).chunks;
      if e.Piece? {
        forall i | 0 <= i < |after| ensures after[i] == if Arrived(es, i) then original[i] else Null {
          if i >= |before| { assert !Arrived(front, i); }
        }
      }
    }
  }

  /** Any order and any repetition rebuild the original exactly when its last piece has arrived and every missing piece
      is a None anyway. */
  lemma Reassembles(es: seq<Event>, original: seq<Value>)
    requires PiecesOf(es, original)
    ensures Feed(FRESH, es).chunks == original <==>
            && (original != [] ==> Arrived(es, |original| - 1))
            && (forall i :: 0 <= i < |original| ==> Arrived(es, i) || original[i] == Null)
  {
    FeedHolds(es, original);
  }

  // ---- Assembly ----

  /** The value handed to the caller: a Python value, or the encoding of a text. */
  datatype Assembled = Plain(value: Value) | Encoded(text: string)

  /** `str(c)` of every chunk, joined. */
  function Join(render: Value -> string, chunks: seq<Value>): string {
    if chunks == [] then "" else render(chunks[0]) + Join(render, chunks[1..])
  }

  function ContentType(metadata: map<string, Value>): Value {
    Get(metadata, "content_type", Str("json"))
  }

  /** `_assemble`, for chunks that came through JSON and so are no bytes objects; it raises if the metadata has no `get`. */
  function Assemble(render: Value -> string, r: Receiver): Option<Assembled> {
    if !r.metadata.Object? then None
    else
      var kind := ContentType(r.metadata.fields);
      if kind == Str("bytes") then Some(Encoded(Join(render, r.chunks)))
      else if kind == Str("text") then Some(Plain(Str(Join(render, r.chunks))))
      else if |r.chunks| == 1 then Some(Plain(r.chunks[0]))
      else Some(Plain(List(r.chunks)))
  }

  /** `pieces` are consecutive cuts of `text`. */
  ghost predicate Cuts(pieces: seq<Value>, text: string) {
    if pieces == [] then text == ""
    else pieces[0].Str? && pieces[0].s <= text && Cuts(pieces[1..], text[|pieces[0].s|..])
  }

  lemma {:induction false} JoinOfCuts(render: Value -> string, pieces: seq<Value>, text: string)
    requires (forall s :: render(Str(s)) == s) && Cuts(pieces, text)
    ensures Join(render, pieces) == text
  {
    if pieces == [] {
    } else {
      JoinOfCuts(render, pieces[1..], text[|pieces[0].s|..]);
      assert render(Str(pieces[0].s)) == pieces[0].s;
      assert text == pieces[0].s + text[|pieces[0].s|..];
    }
  }

  /** Without a content type of its own, assembly cannot tell a single chunk that is a list from that list sent in pieces,
      and confuses nothing else. */
  lemma ConfusedExactly(render: Value -> string, metadata: map<string, Value>, a: seq<Value>, b: seq<Value>)
    requires "content_type" in metadata ==> metadata["content_type"] !in {Str("bytes"), Str("text")}
    ensures Assemble(render, Receiver(Object(metadata), a, true)) == Assemble(render, Receiver(Object(metadata), b, true)) <==>
            a == b || (a == [List(b)] && |b| != 1) || (b == [List(a)] && |a| != 1)
  {
    if |a| == 1 { assert a == [a[0]]; }
    if |b| == 1 { assert b == [b[0]]; }
  }

  // ---- From the interleaved run to the result ----

  lemma {:induction false} SoloFeeds(receivers: seq<Receiver>, r: Receiver, es: seq<Event>)
    requires forall i :: 0 <= i < |es| ==> !es[i].Open? && !es[i].End?
    ensures SoloRun(Solo(receivers + [r], true), es) == Solo(receivers + [Feed(r, es)], true)
    decreases |es|
  {
    if es == [] {
    } else {
      var front, e := es[..|es| - 1], es[|es| - 1];
      SoloFeeds(receivers, r, front);
      SoloRunAppend(Solo(receivers + [r], true), front, [e]);
      assert es == front + [e];
      var s := Solo(receivers + [Feed(r, front)], true);
      assert SoloRun(s, [e]) == SoloRun(SoloStep(s, e), []);
      assert (receivers + [Feed(r, front)])[|receivers| := Feed(r, es)] == receivers + [Feed(r, es)];
    }
  }

  lemma {:induction false} SoloRunAppend(s: Solo, es: seq<Event>, fs: seq<Event>)
    ensures SoloRun(s, es + fs) == SoloRun(SoloRun(s, es), fs)
    decreases |es|
  {
    if es == [] {
      assert es + fs == fs;
    } else {
      assert (es + fs)[1..] == es[1..] + fs;
      SoloRunAppend(SoloStep(s, es[0]), es[1..], fs);
    }
  }

  lemma {:induction false} ClosedStays(s: Solo, es: seq<Event>)
    requires !s.open && forall i :: 0 <= i < |es| ==> !es[i].Open?
    ensures SoloRun(s, es) == s
    decreases |es|
  {
    if es == [] {
    } else {
      ClosedStays(s, es[1..]);
    }
  }

  lemma {:induction false} FeedMetadata(r: Receiver, es: seq<Event>, metadata: Value)
    requires forall i :: 0 <= i < |es| && es[i].Begin? ==> es[i].metadata == metadata
    requires forall i :: 0 <= i < |es| ==> !es[i].End?
    ensures Feed(r, es).complete == r.complete
    ensures Feed(r, es).metadata == if exists i :: 0 <= i < |es| && es[i].Begin? then metadata else r.metadata
  {
    if es == [] {
    } else {
      var front := es[..|es| - 1];
      FeedMetadata(r, front, metadata);
      if i :| 0 <= i < |es| && es[i].Begin? {
        assert i < |front| ==> front[i] == es[i];
      }
      if i :| 0 <= i < |front| && front[i].Begin? {
        assert es[i] == front[i];
      }
    }
  }

  lemma StreamCompletes(es: seq<Event>, id: string, metadata: Value, body: seq<Event>, rest: seq<Event>, original: seq<Value>)
    requires Project(es, id) == [Open(id)] + body + [End(id)] + rest
    requires forall i :: 0 <= i < |body| ==> !body[i].Open? && !body[i].End?
    requires forall i :: 0 <= i < |rest| ==> !rest[i].Open?
    requires PiecesOf(body, original) && forall i :: 0 <= i < |original| ==> Arrived(body, i)
    requires metadata == Object(map[]) || exists i :: 0 <= i < |body| && body[i].Begin?
    requires forall i :: 0 <= i < |body| && body[i].Begin? ==> body[i].metadata == metadata
    ensures SoloView(Run(START, es), id) == Solo([Receiver(metadata, original, true)], false)
  {
    Demultiplexes(START, es, id);
    var s0 := SoloView(START, id);
    var s1 := Solo([] + [FRESH], true);
    assert SoloRun(s0, [Open(id)]) == SoloRun(SoloStep(s0, Open(id)), []) == s1;
    SoloRunAppend(s0, [Open(id)] + body + [End(id)], rest);
    SoloRunAppend(s0, [Open(id)] + body, [End(id)]);
    SoloRunAppend(s0, [Open(id)], body);
    SoloFeeds([], FRESH, body);
    Reassembles(body, original);
    FeedMetadata(FRESH, body, metadata);
    var s2 := Solo([] + [Feed(FRESH, body)], true);
    assert s2.receivers[0] == Receiver(metadata, original, false);
    var s3 := Solo([Receiver(metadata, original, true)], false);
    assert SoloRun(s2, [End(id)]) == SoloRun(SoloStep(s2, End(id)), []) == s3;
    ClosedStays(s3, rest);
  }

  /** End to end: whatever else the manager handles in between and afterwards, a stream opened once, all of whose pieces
      arrive, in any order and any number of times, before its end, leaves one complete receiver, and that assembles to the
      original: a text to itself, wherever it was cut, any other original to the list of its chunks exactly if it is not a
      single chunk, and then to that. */
  lemma StreamDelivers(es: seq<Event>, id: string, metadata: map<string, Value>, body: seq<Event>, rest: seq<Event>,
                       original: seq<Value>, render: Value -> string, text: string)
    requires Project(es, id) == [Open(id)] + body + [End(id)] + rest
    requires forall i :: 0 <= i < |body| ==> !body[i].Open? && !body[i].End?
    requires forall i :: 0 <= i < |rest| ==> !rest[i].Open?
    requires PiecesOf(body, original) && forall i :: 0 <= i < |original| ==> Arrived(body, i)
    requires metadata == map[] || exists i :: 0 <= i < |body| && body[i].Begin?
    requires forall i :: 0 <= i < |body| && body[i].Begin? ==> body[i].metadata == Object(metadata)
    requires forall s :: render(Str(s)) == s
    ensures var r := Receiver(Object(metadata), original, true);
            var kind := if "content_type" in metadata then Some(metadata["content_type"]) else None;
            && SoloView(Run(START, es), id) == Solo([r], false)
            && (kind == Some(Str("text")) && Cuts(original, text) ==> Assemble(render, r) == Some(Plain(Str(text))))
            && (kind == Some(Str("bytes")) && Cuts(original, text) ==> Assemble(render, r) == Some(Encoded(text)))
            && (kind !in {Some(Str("bytes")), Some(Str("text"))} ==>
                  && (Assemble(render, r) == Some(Plain(List(original))) <==> |original| != 1)
                  && (|original| == 1 ==> Assemble(render, r) == Some(Plain(original[0]))))
  {
    StreamCompletes(es, id, Object(metadata), body, rest, original);
    if Cuts(original, text) {
      JoinOfCuts(render, original, text);
    }
    if |original| == 1 {
      assert original == [original[0]];
    }
  }
}
