/** The parallel chunk downloader (virtualization/fetcher.py). */
module Fetcher {
  import opened Json

  type Bytes = seq<bv8>

  /** A byte range as the Range header gives it: both ends included. */
  datatype Range = Range(start: nat, end: nat) {
    function Size(): int { end + 1 - start }
  }

  // ---- Partition ----

  /** `chunks` covers [from, to) without gap or overlap, in order, in pieces of 1 to `size` bytes. */
  ghost predicate Tiles(chunks: seq<Range>, from: nat, to: nat, size: nat) {
    if chunks == [] then from == to
    else
      && chunks[0].start == from <= chunks[0].end < to
      && chunks[0].Size() <= size
      && Tiles(chunks[1..], chunks[0].end + 1, to, size)
  }

  lemma {:induction false} TilesAppend(chunks: seq<Range>, from: nat, to: nat, size: nat, r: Range)
    requires Tiles(chunks, from, to, size) && r.start == to <= r.end && r.Size() <= size
    ensures Tiles(chunks + [r], from, r.end + 1, size)
  {
    if chunks == [] {
      assert chunks + [r] == [r] && [r][1..] == [];
    } else {
      assert (chunks + [r])[1..] == chunks[1..] + [r];
      TilesAppend(chunks[1..], chunks[0].end + 1, to, size, r);
    }
  }

  /** The partition loop. A chunk size of zero would never advance. */
  method PlanChunks(total: nat, chunkSize: nat) returns (chunks: seq<Range>)
    requires chunkSize > 0
    ensures Tiles(chunks, 0, total, chunkSize)
    ensures forall i :: 0 <= i < |chunks| - 1 ==> chunks[i].Size() == chunkSize
    ensures forall i :: 0 <= i < |chunks| ==> 0 < chunks[i].Size() <= chunkSize
  {
    chunks := [];
    var offset := 0;
    while offset < total
      invariant offset <= total
      invariant Tiles(chunks, 0, offset, chunkSize)
      invariant forall i :: 0 <= i < |chunks| ==> chunks[i].Size() == chunkSize || offset == total
      invariant forall i :: 0 <= i < |chunks| - 1 ==> chunks[i].Size() == chunkSize
      invariant forall i :: 0 <= i < |chunks| ==> 0 < chunks[i].Size() <= chunkSize
    {
      var end := if offset + chunkSize - 1 < total - 1 then offset + chunkSize - 1 else total - 1;
      TilesAppend(chunks, 0, offset, chunkSize, Range(offset, end));
      chunks := chunks + [Range(offset, end)];
      offset := end + 1;
    }
  }

  lemma {:induction false} TilesBounds(chunks: seq<Range>, from: nat, to: nat, size: nat, i: nat)
    requires Tiles(chunks, from, to, size) && i < |chunks|
    ensures from <= chunks[i].start <= chunks[i].end < to
  {
    if i == 0 {
    } else {
      TilesBounds(chunks[1..], chunks[0].end + 1, to, size, i - 1);
    }
  }

  lemma {:induction false} TilesDisjoint(chunks: seq<Range>, from: nat, to: nat, size: nat, i: nat, j: nat)
    requires Tiles(chunks, from, to, size) && i < j < |chunks|
    ensures chunks[i].end < chunks[j].start
  {
    if i == 0 {
      TilesBounds(chunks[1..], chunks[0].end + 1, to, size, j - 1);
    } else {
      TilesDisjoint(chunks[1..], chunks[0].end + 1, to, size, i - 1, j - 1);
    }
  }

  lemma {:induction false} TilesCover(chunks: seq<Range>, from: nat, to: nat, size: nat, k: nat)
    requires Tiles(chunks, from, to, size) && from <= k < to
    ensures exists i :: 0 <= i < |chunks| && chunks[i].start <= k <= chunks[i].end
  {
    if k > chunks[0].end {
      TilesCover(chunks[1..], chunks[0].end + 1, to, size, k);
      var i :| 0 <= i < |chunks[1..]| && chunks[1..][i].start <= k <= chunks[1..][i].end;
      assert chunks[i + 1] == chunks[1..][i];
    }
  }

  // ---- The file ----

  function Zeros(n: nat): Bytes {
    seq(n, _ => 0)
  }

  /** Seek and write: overwrites in place, extends the file if need be. */
  function WriteAt(file: Bytes, start: nat, data: Bytes): Bytes {
    var padded := if |file| < start then file + Zeros(start - |file|) else file;
    padded[..start] + data + (if start + |data| <= |padded| then padded[start + |data|..] else [])
  }

  /** The state the chunk tasks share. */
  class Download {
    var file: Bytes
    var downloaded: nat
    var progress: seq<nat>

    constructor (total: nat)
      ensures file == Zeros(total) && downloaded == 0 && progress == []
      ensures |file| == total && forall k :: 0 <= k < total ==> file[k] == 0
    {
      file := Zeros(total);
      downloaded := 0;
      progress := [];
    }

    /** The critical section of `fetch_chunk`: the bytes are at their place, and no byte elsewhere changes. */
    method StoreChunk(start: nat, data: Bytes)
      modifies this
      ensures file == WriteAt(old(file), start, data)
      ensures start + |data| <= |file| && file[start..start + |data|] == data
      ensures forall k :: 0 <= k < |old(file)| && !(start <= k < start + |data|) ==> k < |file| && file[k] == old(file)[k]
      ensures forall k :: |old(file)| <= k < start ==> file[k] == 0
      ensures downloaded == old(downloaded) + |data| && progress == old(progress) + [downloaded]
    {
      if |file| < start {
        file := file + Zeros(start - |file|);
      }
      if start + |data| <= |file| {
        file := file[..start] + data + file[start + |data|..];
      } else {
        file := file[..start] + data;
      }
      downloaded := downloaded + |data|;
      progress := progress + [downloaded];
    }
  }

  // ---- Concurrent tasks ----

  /** A task waits for the semaphore, fetches, waits for the lock with its data, and is done. */
  datatype Task = Ready | Fetching | Fetched(data: Bytes) | Done

  datatype State = State(file: Bytes, downloaded: nat, progress: seq<nat>, tasks: seq<Task>)

  datatype Event = Begin(i: nat) | Arrive(i: nat, data: Bytes) | Write(i: nat)

  datatype Config = Config(chunks: seq<Range>, total: nat, chunkSize: nat, maxConcurrent: nat) {
    ghost predicate Valid() { Tiles(chunks, 0, total, chunkSize) }
  }

  function Start(c: Config): State {
    State(Zeros(c.total), 0, [], seq(|c.chunks|, _ => Ready))
  }

  predicate Holds(t: Task) {
    t.Fetching? || t.Fetched?
  }

  function Sum(ns: seq<nat>): nat {
    if ns == [] then 0 else ns[0] + Sum(ns[1..])
  }

  function Holders(s: State): seq<nat> {
    seq(|s.tasks|, i requires 0 <= i < |s.tasks| => if Holds(s.tasks[i]) then 1 else 0)
  }

  /** The number of fetches that hold the semaphore. */
  function InFlight(s: State): nat {
    Sum(Holders(s))
  }

  predicate Enabled(c: Config, s: State, e: Event) {
    && e.i < |s.tasks|
    && match e
       case Begin(i) => s.tasks[i].Ready? && InFlight(s) < c.maxConcurrent
       case Arrive(i, _) => s.tasks[i].Fetching?
       case Write(i) => s.tasks[i].Fetched?
  }

  function Step(c: Config, s: State, e: Event): State
    requires |s.tasks| == |c.chunks| && Enabled(c, s, e)
  {
    match e
    case Begin(i) => s.(tasks := s.tasks[i := Fetching])
    case Arrive(i, data) => s.(tasks := s.tasks[i := Fetched(data)])
    case Write(i) =>
      var data := s.tasks[i].data;
      var downloaded := s.downloaded + |data|;
      State(WriteAt(s.file, c.chunks[i].start, data), downloaded, s.progress + [downloaded], s.tasks[i := Done])
  }

  /** The server answers with exactly the requested slice of the source. */
  predicate Honest(c: Config, source: Bytes, e: Event)
    requires |source| == c.total
  {
    e.Arrive? && e.i < |c.chunks| && c.chunks[e.i].start <= c.chunks[e.i].end < c.total ==> e.data == Slice(source, c.chunks[e.i])
  }

  function Slice(b: Bytes, r: Range): Bytes
    requires r.start <= r.end < |b|
  {
    b[r.start..r.end + 1]
  }

  function WrittenSizes(c: Config, s: State): seq<nat>
    requires |s.tasks| == |c.chunks|
  {
    seq(|s.tasks|, i requires 0 <= i < |s.tasks| =>
      if s.tasks[i].Done? && c.chunks[i].start <= c.chunks[i].end then c.chunks[i].Size() as nat else 0)
  }

  ghost predicate ChunkOk(c: Config, source: Bytes, s: State, i: nat)
    requires i < |s.tasks| == |c.chunks| && |source| == c.total
  {
    var r := c.chunks[i];
    && r.start <= r.end < c.total <= |s.file|
    && (s.tasks[i].Done? ==> Slice(s.file, r) == Slice(source, r))
    && (s.tasks[i].Fetched? ==> s.tasks[i].data == Slice(source, r))
  }

  ghost predicate StrictlyRising(ns: seq<nat>) {
    forall i, j :: 0 <= i < j < |ns| ==> ns[i] < ns[j]
  }

  ghost predicate Inv(c: Config, source: Bytes, s: State)
    requires |source| == c.total
  {
    && c.Valid() && |s.tasks| == |c.chunks| && |s.file| == c.total
    && (forall i :: 0 <= i < |s.tasks| ==> ChunkOk(c, source, s, i))
    && s.downloaded == Sum(WrittenSizes(c, s))
    && StrictlyRising(s.progress)
    && (forall i :: 0 <= i < |s.progress| ==> 0 < s.progress[i] <= s.downloaded)
    && (if s.progress == [] then s.downloaded == 0 else s.progress[|s.progress| - 1] == s.downloaded)
    && InFlight(s) <= c.maxConcurrent
  }

  lemma {:induction false} SumUpdate(ns: seq<nat>, i: nat, n: nat)
    requires i < |ns|
    ensures Sum(ns[i := n]) == Sum(ns) - ns[i] + n
  {
    if i == 0 {
      assert ns[i := n][1..] == ns[1..];
    } else {
      assert ns[i := n][1..] == ns[1..][i - 1 := n];
      SumUpdate(ns[1..], i - 1, n);
    }
  }

  lemma {:induction false} SumZeros(ns: seq<nat>)
    requires forall i :: 0 <= i < |ns| ==> ns[i] == 0
    ensures Sum(ns) == 0
  {
    if ns == [] {
    } else {
      SumZeros(ns[1..]);
    }
  }

  lemma StartInv(c: Config, source: Bytes)
    requires c.Valid() && |source| == c.total
    ensures Inv(c, source, Start(c))
  {
    var s := Start(c);
    SumZeros(WrittenSizes(c, s));
    SumZeros(Holders(s));
    forall i | 0 <= i < |s.tasks| ensures ChunkOk(c, source, s, i) {
      TilesBounds(c.chunks, 0, c.total, c.chunkSize, i);
    }
  }

  /** How one task's move changes the semaphore count. */
  lemma InFlightUpdate(s: State, i: nat, t: Task, s': State)
    requires i < |s.tasks| && s'.tasks == s.tasks[i := t]
    ensures InFlight(s') == InFlight(s) - (if Holds(s.tasks[i]) then 1 else 0) + (if Holds(t) then 1 else 0)
  {
    SumUpdate(Holders(s), i, if Holds(t) then 1 else 0);
    assert Holders(s') == Holders(s)[i := if Holds(t) then 1 else 0];
  }

  lemma FetchInv(c: Config, source: Bytes, s: State, e: Event)
    requires |source| == c.total && Inv(c, source, s) && Enabled(c, s, e) && Honest(c, source, e) && !e.Write?
    ensures Inv(c, source, Step(c, s, e))
  {
    var t := Step(c, s, e);
    InFlightUpdate(s, e.i, t.tasks[e.i], t);
    assert WrittenSizes(c, t) == WrittenSizes(c, s);
    forall i | 0 <= i < |t.tasks| ensures ChunkOk(c, source, t, i) {
      assert ChunkOk(c, source, s, i);
    }
  }

  lemma SliceWritten(file: Bytes, r: Range, data: Bytes)
    requires r.start <= r.end < |file| && |data| == r.Size()
    ensures var t := WriteAt(file, r.start, data); |t| == |file| && Slice(t, r) == data
  {
  }

  lemma SliceUntouched(file: Bytes, r: Range, data: Bytes, other: Range)
    requires r.start <= r.end < |file| && |data| == r.Size()
    requires other.start <= other.end < |file| && (other.end < r.start || r.end < other.start)
    ensures var t := WriteAt(file, r.start, data); |t| == |file| && Slice(t, other) == Slice(file, other)
  {
    var t := WriteAt(file, r.start, data);
    forall k | other.start <= k <= other.end ensures k < |t| && t[k] == file[k] {
    }
  }

  lemma WriteInv(c: Config, source: Bytes, s: State, e: Event)
    requires |source| == c.total && Inv(c, source, s) && Enabled(c, s, e) && e.Write?
    ensures Inv(c, source, Step(c, s, e))
  {
    var t, k := Step(c, s, e), e.i;
    var r, data := c.chunks[k], s.tasks[k].data;
    assert ChunkOk(c, source, s, k);
    SliceWritten(s.file, r, data);
    InFlightUpdate(s, k, Done, t);
    SumUpdate(WrittenSizes(c, s), k, r.Size() as nat);
    assert WrittenSizes(c, t) == WrittenSizes(c, s)[k := r.Size() as nat];
    forall i | 0 <= i < |t.tasks| ensures ChunkOk(c, source, t, i) {
      assert ChunkOk(c, source, s, i);
      if i < k {
        TilesDisjoint(c.chunks, 0, c.total, c.chunkSize, i, k);
        SliceUntouched(s.file, r, data, c.chunks[i]);
      } else if i > k {
        TilesDisjoint(c.chunks, 0, c.total, c.chunkSize, k, i);
        SliceUntouched(s.file, r, data, c.chunks[i]);
      }
    }
  }

  // ---- Runs ----

  ghost predicate ValidRun(c: Config, s: State, es: seq<Event>)
    requires |s.tasks| == |c.chunks|
    decreases |es|
  {
    es == [] || (Enabled(c, s, es[0]) && ValidRun(c, Step(c, s, es[0]), es[1..]))
  }

  function Run(c: Config, s: State, es: seq<Event>): (t: State)
    requires |s.tasks| == |c.chunks| && ValidRun(c, s, es)
    ensures |t.tasks| == |c.chunks|
    decreases |es|
  {
    if es == [] then s else Run(c, Step(c, s, es[0]), es[1..])
  }

  predicate AllDone(s: State) {
    forall i :: 0 <= i < |s.tasks| ==> s.tasks[i].Done?
  }

  lemma {:induction false} RunInv(c: Config, source: Bytes, s: State, es: seq<Event>)
    requires |source| == c.total && Inv(c, source, s) && ValidRun(c, s, es)
    requires forall i :: 0 <= i < |es| ==> Honest(c, source, es[i])
    ensures Inv(c, source, Run(c, s, es))
    decreases |es|
  {
    if es == [] {
    } else {
      if es[0].Write? { WriteInv(c, source, s, es[0]); } else { FetchInv(c, source, s, es[0]); }
      RunInv(c, source, Step(c, s, es[0]), es[1..]);
    }
  }

  lemma {:induction false} TilesSum(chunks: seq<Range>, from: nat, to: nat, size: nat, ns: seq<nat>)
    requires Tiles(chunks, from, to, size) && |ns| == |chunks|
    requires forall i :: 0 <= i < |ns| ==> ns[i] == chunks[i].Size()
    ensures Sum(ns) == to - from
  {
    if chunks == [] {
    } else {
      TilesSum(chunks[1..], chunks[0].end + 1, to, size, ns[1..]);
    }
  }

  lemma FinishedFile(c: Config, source: Bytes, s: State)
    requires |source| == c.total && Inv(c, source, s) && AllDone(s)
    ensures s.file == source && s.downloaded == c.total
  {
    forall k | 0 <= k < c.total ensures s.file[k] == source[k] {
      TilesCover(c.chunks, 0, c.total, c.chunkSize, k);
      var i :| 0 <= i < |c.chunks| && c.chunks[i].start <= k <= c.chunks[i].end;
      assert ChunkOk(c, source, s, i);
      assert Slice(s.file, c.chunks[i])[k - c.chunks[i].start] == Slice(source, c.chunks[i])[k - c.chunks[i].start];
    }
    forall i | 0 <= i < |s.tasks| ensures WrittenSizes(c, s)[i] == c.chunks[i].Size() {
      assert ChunkOk(c, source, s, i);
    }
    TilesSum(c.chunks, 0, c.total, c.chunkSize, WrittenSizes(c, s));
  }

  /** Whatever the order in which the chunks arrive and are written, a finished download is the source; the progress
      reports rise strictly, never exceed what is written, and end at the total; the limit on fetches is never passed. */
  lemma {:induction false} DownloadCorrect(c: Config, source: Bytes, es: seq<Event>)
    requires c.Valid() && |source| == c.total && ValidRun(c, Start(c), es)
    requires forall i :: 0 <= i < |es| ==> Honest(c, source, es[i])
    ensures var s := Run(c, Start(c), es);
            && InFlight(s) <= c.maxConcurrent
            && StrictlyRising(s.progress) && s.downloaded == Sum(WrittenSizes(c, s))
            && (s.progress != [] ==> s.progress[|s.progress| - 1] == s.downloaded)
            && (AllDone(s) ==> s.file == source && s.downloaded == c.total)
  {
    StartInv(c, source);
    RunInv(c, source, Start(c), es);
    var s := Run(c, Start(c), es);
    if AllDone(s) {
      FinishedFile(c, source, s);
    }
  }

  // ---- Progress ----

  function Work(t: Task): nat {
    match t case Ready => 3 case Fetching => 2 case Fetched(_) => 1 case Done => 0
  }

  function Works(s: State): seq<nat> {
    seq(|s.tasks|, i requires 0 <= i < |s.tasks| => Work(s.tasks[i]))
  }

  function Remaining(s: State): nat {
    Sum(Works(s))
  }

  lemma StepUsesWork(c: Config, s: State, e: Event)
    requires |s.tasks| == |c.chunks| && Enabled(c, s, e)
    ensures Remaining(Step(c, s, e)) == Remaining(s) - 1
  {
    var t := Step(c, s, e);
    SumUpdate(Works(s), e.i, Work(t.tasks[e.i]));
    assert Works(t) == Works(s)[e.i := Work(t.tasks[e.i])];
  }

  /** No deadlock: while a chunk is missing some task can move, if at least one fetch is allowed at a time. */
  lemma CanMove(c: Config, s: State)
    requires |s.tasks| == |c.chunks| && c.maxConcurrent > 0 && !AllDone(s)
    ensures exists e :: Enabled(c, s, e)
  {
    var i: nat :| i < |s.tasks| && !s.tasks[i].Done?;
    if j: nat :| j < |s.tasks| && Holds(s.tasks[j]) {
      assert Enabled(c, s, if s.tasks[j].Fetching? then Arrive(j, []) else Write(j));
    } else {
      SumZeros(Holders(s));
      assert Enabled(c, s, Begin(i));
    }
  }

  lemma {:induction false} RunUsesWork(c: Config, s: State, es: seq<Event>)
    requires |s.tasks| == |c.chunks| && ValidRun(c, s, es)
    ensures |es| + Remaining(Run(c, s, es)) == Remaining(s)
    decreases |es|
  {
    if es == [] {
    } else {
      StepUsesWork(c, s, es[0]);
      RunUsesWork(c, Step(c, s, es[0]), es[1..]);
    }
  }

  lemma {:induction false} SumTriples(ns: seq<nat>)
    requires forall i :: 0 <= i < |ns| ==> ns[i] == 3
    ensures Sum(ns) == 3 * |ns|
  {
    if ns == [] {
    } else {
      SumTriples(ns[1..]);
    }
  }

  /** A run that cannot be continued has downloaded everything, after exactly three moves per chunk. */
  lemma {:induction false} MaximalRunFinishes(c: Config, source: Bytes, es: seq<Event>)
    requires c.Valid() && |source| == c.total && c.maxConcurrent > 0 && ValidRun(c, Start(c), es)
    requires forall i :: 0 <= i < |es| ==> Honest(c, source, es[i])
    ensures |es| <= 3 * |c.chunks|
    ensures (forall e :: !Enabled(c, Run(c, Start(c), es), e)) ==> Run(c, Start(c), es).file == source
    ensures AllDone(Run(c, Start(c), es)) ==> |es| == 3 * |c.chunks|
  {
    var s := Run(c, Start(c), es);
    RunUsesWork(c, Start(c), es);
    SumTriples(Works(Start(c)));
    if AllDone(s) {
      SumZeros(Works(s));
    }
    if forall e :: !Enabled(c, s, e) {
      if !AllDone(s) { CanMove(c, s); }
      DownloadCorrect(c, source, es);
    }
  }

  // ---- The streaming download ----

  function Flatten(pieces: seq<Bytes>): Bytes {
    if pieces == [] then [] else Flatten(pieces[..|pieces| - 1]) + pieces[|pieces| - 1]
  }

  /** `_simple_download`: the pieces of the body in the order they come. */
  method SimpleDownload(pieces: seq<Bytes>) returns (file: Bytes, downloaded: nat, progress: seq<nat>)
    ensures file == Flatten(pieces) && downloaded == |file|
    ensures |progress| == |pieces| && forall i :: 0 <= i < |progress| ==> progress[i] == |Flatten(pieces[..i + 1])|
  {
    file, downloaded, progress := [], 0, [];
    for i := 0 to |pieces|
      invariant file == Flatten(pieces[..i]) && downloaded == |file|
      invariant |progress| == i && forall j :: 0 <= j < i ==> progress[j] == |Flatten(pieces[..j + 1])|
    {
      assert pieces[..i + 1][..i] == pieces[..i];
      file := file + pieces[i];
      downloaded := downloaded + |pieces[i]|;
      progress := progress + [downloaded];
    }
    assert pieces[..|pieces|] == pieces;
  }

  /** `pieces` are consecutive cuts of `source`. */
  ghost predicate Cuts(pieces: seq<Bytes>, source: Bytes) {
    if pieces == [] then source == [] else pieces[0] <= source && Cuts(pieces[1..], source[|pieces[0]|..])
  }

  lemma {:induction false} FlattenFront(pieces: seq<Bytes>)
    requires pieces != []
    ensures Flatten(pieces) == pieces[0] + Flatten(pieces[1..])
  {
    if |pieces| == 1 {
      assert pieces[..0] == [] && pieces[1..] == [];
    } else {
      var front := pieces[..|pieces| - 1];
      FlattenFront(front);
      var tail, last := pieces[1..], pieces[|pieces| - 1];
      assert tail[..|tail| - 1] == front[1..] && tail[|tail| - 1] == last;
      assert Flatten(tail) == Flatten(front[1..]) + last;
      assert pieces[0] + (Flatten(front[1..]) + last) == (pieces[0] + Flatten(front[1..])) + last;
    }
  }

  /** Pieces cut from a source in order, wherever it was cut, make up the source. */
  lemma {:induction false} PiecesMakeSource(pieces: seq<Bytes>, source: Bytes)
    requires Cuts(pieces, source)
    ensures Flatten(pieces) == source
  {
    if pieces == [] {
    } else {
      PiecesMakeSource(pieces[1..], source[|pieces[0]|..]);
      FlattenFront(pieces);
    }
  }

  // ---- The choice, and the check of the whole file ----

  /** What the server sends: the pieces of a plain answer, or the moves of the chunk tasks. */
  datatype Received = Received(pieces: seq<Bytes>, moves: seq<Event>)

  /** A file is cut into chunks if the server takes ranges and it has at least two. */
  predicate InChunks(c: Config, ranges: bool) {
    ranges && c.total >= c.chunkSize * 2
  }

  function FileLeft(c: Config, ranges: bool, received: Received): Bytes
    requires ValidRun(c, Start(c), received.moves)
  {
    if InChunks(c, ranges) then Run(c, Start(c), received.moves).file else Flatten(received.pieces)
  }

  /** `download`: the file as it is kept, or None if it is deleted and an error raised. Only the chunked way checks. */
  function Fetch(hash: Bytes -> string, c: Config, ranges: bool, expected: string, received: Received): Option<Bytes>
    requires ValidRun(c, Start(c), received.moves)
  {
    var file := FileLeft(c, ranges, received);
    if InChunks(c, ranges) && expected != "" && hash(file) != expected then None else Some(file)
  }

  ghost predicate Injective(hash: Bytes -> string) {
    (forall a, b :: hash(a) == hash(b) ==> a == b) && forall a :: hash(a) != ""
  }

  /** Without an expected hash, every download is kept as it is: the plain one is its pieces, the chunked one what the chunk
      tasks wrote. */
  lemma NoHashKeepsAll(hash: Bytes -> string, c: Config, ranges: bool, received: Received)
    requires ValidRun(c, Start(c), received.moves)
    ensures Fetch(hash, c, ranges, "", received) ==
            Some(if ranges && c.total >= 2 * c.chunkSize then Run(c, Start(c), received.moves).file else Flatten(received.pieces))
  {
  }

  /** Given the hash of a source, the file is kept exactly if it is the source. */
  ghost predicate KeptIffRight(hash: Bytes -> string, c: Config, ranges: bool, source: Bytes, received: Received)
    requires ValidRun(c, Start(c), received.moves)
  {
    Fetch(hash, c, ranges, hash(source), received) == if FileLeft(c, ranges, received) == source then Some(source) else None
  }

  /** The expected hash decides, whatever the server sends, if and only if the download is a chunked one. */
  lemma HashCheckedExactly(hash: Bytes -> string, c: Config, ranges: bool)
    requires Injective(hash)
    ensures (forall source, received: Received | ValidRun(c, Start(c), received.moves) ::
               KeptIffRight(hash, c, ranges, source, received)) <==> ranges && c.total >= 2 * c.chunkSize
  {
    if !InChunks(c, ranges) {
      var received := Received([], []);
      assert ValidRun(c, Start(c), received.moves);
      assert !KeptIffRight(hash, c, ranges, [0], received);
    }
  }
}
