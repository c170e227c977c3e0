/** The local package cache (client/cache.py): index, files, eviction and integrity checks. */
module Cache {
  import opened Json

  type Bytes = seq<bv8>

  /** A layer directory, file by file. */
  type Tree = seq<Bytes>

  /** Wheels and layers live in separate directories, so a path is one or the other. */
  datatype Path = WheelPath(name: string) | LayerPath(id: string)

  datatype Key = WheelKey(package: string, version: string) | LayerKey(id: string)

  datatype Entry = Entry(path: Path, sha: string, size: nat, lastAccessed: real)

  datatype Item = Item(key: Key, entry: Entry)

  /** A Python dict: unique keys in order of insertion. */
  type Index = seq<Item>

  datatype Disk = Disk(wheels: map<string, Bytes>, layers: map<string, Tree>) {
    predicate Has(p: Path) {
      match p case WheelPath(name) => name in wheels case LayerPath(id) => id in layers
    }

    function Without(p: Path): Disk {
      match p
      case WheelPath(name) => Disk(wheels - {name}, layers)
      case LayerPath(id) => Disk(wheels, layers - {id})
    }
  }

  datatype Config = Config(hash: Bytes -> string, maxSizeMb: int)

  datatype State = State(index: Index, disk: Disk)

  // ---- The index as a dict ----

  ghost predicate DistinctKeys(index: Index) {
    forall i, j :: 0 <= i < j < |index| ==> index[i].key != index[j].key
  }

  function Find(index: Index, key: Key): Option<Entry> {
    if index == [] then None
    else if index[0].key == key then Some(index[0].entry)
    else Find(index[1..], key)
  }

  /** Assignment to a key: in place if it is there, at the end if it is new. */
  function Put(index: Index, key: Key, entry: Entry): Index {
    if index == [] then [Item(key, entry)]
    else if index[0].key == key then [Item(key, entry)] + index[1..]
    else [index[0]] + Put(index[1..], key, entry)
  }

  function Remove(index: Index, key: Key): Index {
    if index == [] then []
    else if index[0].key == key then index[1..]
    else [index[0]] + Remove(index[1..], key)
  }

  lemma {:induction false} Absent(index: Index, key: Key)
    requires forall i :: 0 <= i < |index| ==> index[i].key != key
    ensures Find(index, key).None?
  {
    if index == [] {
    } else {
      Absent(index[1..], key);
    }
  }

  lemma {:induction false} RemoveForgets(index: Index, key: Key)
    requires DistinctKeys(index)
    ensures Find(Remove(index, key), key).None?
  {
    if index == [] {
    } else if index[0].key == key {
      Absent(index[1..], key);
    } else {
      RemoveForgets(index[1..], key);
    }
  }

  lemma {:induction false} RemoveShortens(index: Index, i: nat)
    requires i < |index|
    ensures |Remove(index, index[i].key)| < |index|
  {
    if i == 0 || index[0].key == index[i].key {
    } else {
      RemoveShortens(index[1..], i - 1);
    }
  }

  function TotalSize(index: Index): nat {
    if index == [] then 0 else index[0].entry.size + TotalSize(index[1..])
  }

  /** total / 2^20 > 0.9 * max, in whole numbers. */
  predicate TooBig(c: Config, total: int) {
    10 * total > 9 * c.maxSizeMb * 1048576
  }

  /** `min` over the keys: the first entry with the least access time. */
  function Oldest(index: Index): (i: nat)
    requires index != []
    ensures i < |index|
  {
    if |index| == 1 then 0
    else
      var i := Oldest(index[..|index| - 1]);
      if index[|index| - 1].entry.lastAccessed < index[i].entry.lastAccessed then |index| - 1 else i
  }

  // ---- Operations ----

  /** What is left of the state when the oldest entry goes. */
  function WithoutOldest(s: State): (t: State)
    requires s.index != []
    ensures |t.index| < |s.index|
  {
    RemoveShortens(s.index, Oldest(s.index));
    var v := s.index[Oldest(s.index)];
    State(Remove(s.index, v.key), s.disk.Without(v.entry.path))
  }

  /** `_maybe_evict` */
  function Evict(c: Config, s: State): State
    decreases |s.index|
  {
    if !TooBig(c, TotalSize(s.index)) || s.index == [] then s
    else
      Evict(c, WithoutOldest(s))
  }

  datatype Got = Found(path: Path) | Nothing | Raised

  function GetWheel(c: Config, s: State, key: Key, now: real): (State, Got) {
    match Find(s.index, key)
    case None => (s, Nothing)
    case Some(e) =>
      if !s.disk.Has(e.path) then (s.(index := Remove(s.index, key)), Nothing)
      else if !e.path.WheelPath? then (s, Raised)
      else if c.hash(s.disk.wheels[e.path.name]) != e.sha then
        (State(Remove(s.index, key), s.disk.Without(e.path)), Nothing)
      else (s.(index := Put(s.index, key, e.(lastAccessed := now))), Found(e.path))
  }

  function GetLayer(s: State, key: Key, now: real): (State, Got) {
    match Find(s.index, key)
    case None => (s, Nothing)
    case Some(e) =>
      if !s.disk.Has(e.path) then (s.(index := Remove(s.index, key)), Nothing)
      else (s.(index := Put(s.index, key, e.(lastAccessed := now))), Found(e.path))
  }

  /** Where the bytes come from: already at their destination, or copied from outside (None: no such file). */
  datatype Source<T> = InPlace | Outside(content: Option<T>)

  /** `store_wheel`; the flag is false when it raises. A wheel in place can be gone by the time it is stored: eviction
      comes first. */
  function StoreWheel(c: Config, s: State, key: Key, name: string, source: Source<Bytes>, sha: string, now: real): (State, bool) {
    var s1 := Evict(c, s);
    var wheels := if source.Outside? && source.content.Some? then s1.disk.wheels[name := source.content.value]
                  else s1.disk.wheels;
    if (source.Outside? && source.content.None?) || name !in wheels then (s1, false)
    else
      var content := wheels[name];
      var entry := Entry(WheelPath(name), if sha != "" then sha else c.hash(content), |content|, now);
      (State(Put(s1.index, key, entry), s1.disk.(wheels := wheels)), true)
  }

  function TreeSize(t: Tree): nat {
    if t == [] then 0 else |t[0]| + TreeSize(t[1..])
  }

  /** `store_layer`: the old directory goes before the copy is tried; a directory in place that is missing counts as empty. */
  function StoreLayer(c: Config, s: State, id: string, source: Source<Tree>, sha: string, now: real): (State, bool) {
    var s1 := Evict(c, s);
    if source.Outside? && source.content.None? then (s1.(disk := s1.disk.Without(LayerPath(id))), false)
    else
      var layers := if source.Outside? then s1.disk.layers[id := source.content.value] else s1.disk.layers;
      var size := if id in layers then TreeSize(layers[id]) else 0;
      (State(Put(s1.index, LayerKey(id), Entry(LayerPath(id), sha, size, now)), s1.disk.(layers := layers)), true)
  }

  /** A file is there, a hash is recorded, and they disagree. */
  predicate Corrupt(c: Config, d: Disk, e: Entry) {
    e.path.WheelPath? && e.path.name in d.wheels && e.sha != "" && c.hash(d.wheels[e.path.name]) != e.sha
  }

  predicate Intact(c: Config, d: Disk, e: Entry) {
    d.Has(e.path) && !Corrupt(c, d, e)
  }

  /** `verify_integrity`: missing entries are dropped, corrupt ones are dropped and their file deleted, in index order. */
  function Verify(c: Config, s: State): State
    decreases |s.index|
  {
    if s.index == [] then s
    else
      var e := s.index[0].entry;
      if Intact(c, s.disk, e) then
        var rest := Verify(c, State(s.index[1..], s.disk));
        State([s.index[0]] + rest.index, rest.disk)
      else
        Verify(c, State(s.index[1..], if Corrupt(c, s.disk, e) then s.disk.Without(e.path) else s.disk))
  }

  /** The keys it reports, in the same order. */
  function Issues(c: Config, s: State): seq<Key>
    decreases |s.index|
  {
    if s.index == [] then []
    else
      var e := s.index[0].entry;
      if Intact(c, s.disk, e) then Issues(c, State(s.index[1..], s.disk))
      else [s.index[0].key] + Issues(c, State(s.index[1..], if Corrupt(c, s.disk, e) then s.disk.Without(e.path) else s.disk))
  }

  // ---- The manager ----

  class CacheManager {
    const config: Config
    var index: Index
    var disk: Disk

    constructor (config: Config, disk: Disk)
      ensures this.config == config && View() == State([], disk)
    {
      this.config := config;
      this.disk := disk;
      index := [];
    }

    function View(): State
      reads this
    {
      State(index, disk)
    }

    method CurrentSize() returns (total: nat)
      ensures total == TotalSize(index)
    {
      total := 0;
      for i := 0 to |index|
        invariant total + TotalSize(index[i..]) == TotalSize(index)
      {
        assert index[i..][1..] == index[i + 1..];
        total := total + index[i].entry.size;
      }
    }

    method MaybeEvict()
      modifies this
      ensures View() == Evict(config, old(View()))
    {
      var total := CurrentSize();
      while TooBig(config, total)
        invariant total == TotalSize(index)
        invariant Evict(config, View()) == Evict(config, old(View()))
        decreases |index|
      {
        if index == [] {
          break;
        }
        var i := Oldest(index);
        disk := disk.Without(index[i].entry.path);
        RemoveShortens(index, i);
        index := Remove(index, index[i].key);
        total := CurrentSize();
      }
    }

    /** What is found is there and has the recorded hash; what is not found is no longer in the index. */
    method FetchWheel(key: Key, now: real) returns (got: Got)
      modifies this
      ensures (View(), got) == GetWheel(config, old(View()), key, now)
      ensures got.Found? ==>
                && got.path.WheelPath? && got.path.name in disk.wheels && disk == old(disk)
                && Find(old(index), key).Some? && Find(old(index), key).value.path == got.path
                && config.hash(disk.wheels[got.path.name]) == Find(old(index), key).value.sha
      ensures got.Nothing? && DistinctKeys(old(index)) ==> Find(index, key).None?
    {
      if DistinctKeys(index) {
        RemoveForgets(index, key);
      }
      var entry := Find(index, key);
      if entry.None? {
        return Nothing;
      }
      var e := entry.value;
      if !disk.Has(e.path) {
        index := Remove(index, key);
        return Nothing;
      }
      if !e.path.WheelPath? {
        return Raised;
      }
      if config.hash(disk.wheels[e.path.name]) != e.sha {
        disk := disk.Without(e.path);
        index := Remove(index, key);
        return Nothing;
      }
      index := Put(index, key, e.(lastAccessed := now));
      return Found(e.path);
    }

    method KeepWheel(key: Key, name: string, source: Source<Bytes>, sha: string, now: real) returns (ok: bool)
      modifies this
      ensures (View(), ok) == StoreWheel(config, old(View()), key, name, source, sha, now)
    {
      MaybeEvict();
      if source.Outside? {
        if source.content.None? {
          return false;
        }
        disk := disk.(wheels := disk.wheels[name := source.content.value]);
      }
      if name !in disk.wheels {
        return false;
      }
      var content := disk.wheels[name];
      var actual := if sha != "" then sha else config.hash(content);
      index := Put(index, key, Entry(WheelPath(name), actual, |content|, now));
      return true;
    }

    method FetchLayer(id: string, now: real) returns (got: Got)
      modifies this
      ensures (View(), got) == GetLayer(old(View()), LayerKey(id), now)
      ensures disk == old(disk) && !got.Raised?
      ensures got.Found? ==>
                && disk.Has(got.path) && Find(old(index), LayerKey(id)).Some?
                && Find(old(index), LayerKey(id)).value.path == got.path
      ensures got.Nothing? && DistinctKeys(old(index)) ==> Find(index, LayerKey(id)).None?
    {
      if DistinctKeys(index) {
        RemoveForgets(index, LayerKey(id));
      }
      var entry := Find(index, LayerKey(id));
      if entry.None? {
        return Nothing;
      }
      if !disk.Has(entry.value.path) {
        index := Remove(index, LayerKey(id));
        return Nothing;
      }
      index := Put(index, LayerKey(id), entry.value.(lastAccessed := now));
      return Found(entry.value.path);
    }

    method KeepLayer(id: string, source: Source<Tree>, sha: string, now: real) returns (ok: bool)
      modifies this
      ensures (View(), ok) == StoreLayer(config, old(View()), id, source, sha, now)
    {
      MaybeEvict();
      if source.Outside? {
        ghost var layers := disk.layers;
        disk := disk.Without(LayerPath(id));
        if source.content.None? {
          return false;
        }
        disk := disk.(layers := disk.layers[id := source.content.value]);
        assert disk.layers == layers[id := source.content.value];
      }
      var size := if id in disk.layers then TreeSize(disk.layers[id]) else 0;
      index := Put(index, LayerKey(id), Entry(LayerPath(id), sha, size, now));
      return true;
    }

    method VerifyIntegrity() returns (issues: seq<Key>)
      requires DistinctKeys(index)
      modifies this
      ensures View() == Verify(config, old(View()))
      ensures issues == Issues(config, old(View()))
    {
      issues := [];
      var todo := index;
      ghost var kept: Index := [];
      ghost var start := View();
      while todo != []
        invariant index == kept + todo
        invariant VerifiedSoFar(config, start, kept, State(todo, disk), issues)
        decreases |todo|
      {
        var item := todo[0];
        if Intact(config, disk, item.entry) {
          VerifyKeeps(config, start, kept, State(todo, disk), issues);
          MoveOver(kept, todo);
          kept := kept + [item];
        } else {
          VerifyDrops(config, start, kept, State(todo, disk), issues);
          issues := issues + [item.key];
          if Corrupt(config, disk, item.entry) {
            disk := disk.Without(item.entry.path);
          }
          RemoveMiddle(kept, todo, item.key);
          index := Remove(index, item.key);
        }
        todo := todo[1..];
      }
    }
  }

  lemma MoveOver(front: Index, back: Index)
    requires back != []
    ensures front + back == (front + [back[0]]) + back[1..]
  {
  }

  /** The loop of `verify_integrity` between two entries: `kept` are done, `rest` is still to do. */
  ghost predicate VerifiedSoFar(c: Config, start: State, kept: Index, rest: State, issues: seq<Key>) {
    && KeysApart(kept, rest.index) && DistinctKeys(rest.index)
    && Verify(c, start) == Prepend(kept, Verify(c, rest))
    && Issues(c, start) == issues + Issues(c, rest)
  }

  lemma VerifyKeeps(c: Config, start: State, kept: Index, rest: State, issues: seq<Key>)
    requires VerifiedSoFar(c, start, kept, rest, issues) && rest.index != [] && Intact(c, rest.disk, rest.index[0].entry)
    ensures VerifiedSoFar(c, start, kept + [rest.index[0]], State(rest.index[1..], rest.disk), issues)
  {
    PrependTwice(kept, rest.index[0], Verify(c, State(rest.index[1..], rest.disk)));
  }

  lemma VerifyDrops(c: Config, start: State, kept: Index, rest: State, issues: seq<Key>)
    requires VerifiedSoFar(c, start, kept, rest, issues) && rest.index != [] && !Intact(c, rest.disk, rest.index[0].entry)
    ensures var e := rest.index[0].entry;
            var disk := if Corrupt(c, rest.disk, e) then rest.disk.Without(e.path) else rest.disk;
            && VerifiedSoFar(c, start, kept, State(rest.index[1..], disk), issues + [rest.index[0].key])
            && forall j :: 0 <= j < |kept| ==> kept[j].key != rest.index[0].key
  {
  }

  ghost predicate KeysApart(a: Index, b: Index) {
    forall i, j :: 0 <= i < |a| && 0 <= j < |b| ==> a[i].key != b[j].key
  }

  function Prepend(kept: Index, s: State): State {
    State(kept + s.index, s.disk)
  }

  lemma PrependTwice(kept: Index, item: Item, s: State)
    ensures Prepend(kept, Prepend([item], s)) == Prepend(kept + [item], s)
  {
    assert kept + ([item] + s.index) == kept + [item] + s.index;
  }

  lemma {:induction false} RemoveMiddle(front: Index, back: Index, key: Key)
    requires back != [] && back[0].key == key
    requires forall j :: 0 <= j < |front| ==> front[j].key != key
    ensures Remove(front + back, key) == front + back[1..]
  {
    if front == [] {
      assert front + back == back && front + back[1..] == back[1..];
    } else {
      assert (front + back)[1..] == front[1..] + back;
      RemoveMiddle(front[1..], back, key);
      assert [front[0]] + (front[1..] + back[1..]) == front + back[1..];
    }
  }
}
