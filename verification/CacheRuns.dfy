/** What the package cache guarantees over whole runs: least-recently-used eviction, a size bound, and contents that agree
    with what was stored. */
module CacheRuns {
  import opened Json
  import opened Cache

  // ---- The index ----

  lemma {:induction false} FindItem(index: Index, key: Key)
    requires DistinctKeys(index)
    ensures forall item :: item in index && item.key == key ==> Find(index, key) == Some(item.entry)
    ensures Find(index, key).Some? ==> Item(key, Find(index, key).value) in index
  {
    if index == [] {
    } else {
      FindItem(index[1..], key);
    }
  }

  lemma {:induction false} PutItems(index: Index, key: Key, e: Entry)
    requires DistinctKeys(index)
    ensures var r := Put(index, key, e);
            && DistinctKeys(r) && Item(key, e) in r
            && (forall item :: item in r ==> item == Item(key, e) || (item in index && item.key != key))
            && (forall item :: item in index && item.key != key ==> item in r)
            && TotalSize(r) == TotalSize(index) + e.size - (if Find(index, key).Some? then Find(index, key).value.size else 0)
  {
    if index != [] && index[0].key != key {
      PutItems(index[1..], key, e);
      var r, rest := Put(index, key, e), Put(index[1..], key, e);
      assert r[1..] == rest;
      forall i, j | 0 <= i < j < |r| ensures r[i].key != r[j].key {
        if i == 0 { assert rest[j - 1] in rest; }
      }
    }
  }

  lemma {:induction false} RemoveItems(index: Index, key: Key)
    requires DistinctKeys(index)
    ensures var r := Remove(index, key);
            && DistinctKeys(r) && Find(r, key).None?
            && TotalSize(index) == TotalSize(r) + (if Find(index, key).Some? then Find(index, key).value.size else 0)
            && (forall item :: item in r <==> item in index && item.key != key)
  {
    if index == [] {
    } else {
      if index[0].key == key {
        FindItem(index[1..], key);
      } else {
        RemoveItems(index[1..], key);
        var r, rest := Remove(index, key), Remove(index[1..], key);
        assert r[1..] == rest;
        forall i, j | 0 <= i < j < |r| ensures r[i].key != r[j].key {
          if i == 0 { assert rest[j - 1] in rest; }
        }
      }
    }
  }

  lemma {:induction false} OldestIsLeast(index: Index)
    requires index != []
    ensures forall j :: 0 <= j < |index| ==> index[Oldest(index)].entry.lastAccessed <= index[j].entry.lastAccessed
    ensures forall j :: 0 <= j < Oldest(index) ==> index[Oldest(index)].entry.lastAccessed < index[j].entry.lastAccessed
  {
    if |index| > 1 {
      var front, last := index[..|index| - 1], index[|index| - 1];
      OldestIsLeast(front);
      assert index == front + [last];
      var i := Oldest(front);
      assert Oldest(index) == if last.entry.lastAccessed < front[i].entry.lastAccessed then |front| else i;
    }
  }

  // ---- Eviction ----

  /** `v` went, `t` is what is left. */
  predicate Evicted(s: State, t: State, v: Item) {
    v in s.index && v !in t.index
  }

  /** The last entry to go was needed: with it the rest would still be too big, and it was used no earlier than the other
      entries that went. */
  ghost predicate LastToGo(c: Config, s: State, t: State, v: Item) {
    && Evicted(s, t, v)
    && TooBig(c, TotalSize(t.index) + v.entry.size)
    && forall w :: Evicted(s, t, w) ==> w.entry.lastAccessed <= v.entry.lastAccessed
  }

  ghost predicate EvictsOldest(s: State, t: State) {
    forall v, k :: Evicted(s, t, v) && k in t.index ==> v.entry.lastAccessed <= k.entry.lastAccessed
  }

  lemma OldestGoes(s: State)
    requires DistinctKeys(s.index) && s.index != []
    ensures var v, s1 := s.index[Oldest(s.index)], WithoutOldest(s);
            && DistinctKeys(s1.index) && TotalSize(s.index) == TotalSize(s1.index) + v.entry.size
            && (forall k :: k in s1.index <==> k in s.index && k != v)
            && (forall k :: k in s.index ==> v.entry.lastAccessed <= k.entry.lastAccessed)
  {
    OldestIsLeast(s.index);
    RemoveItems(s.index, s.index[Oldest(s.index)].key);
    FindItem(s.index, s.index[Oldest(s.index)].key);
  }

  lemma {:induction false} EvictShrinks(c: Config, s: State)
    requires DistinctKeys(s.index)
    ensures var t := Evict(c, s);
            && DistinctKeys(t.index) && (forall k :: k in t.index ==> k in s.index) && TotalSize(t.index) <= TotalSize(s.index)
            && (TooBig(c, TotalSize(t.index)) ==> t.index == [])
    decreases |s.index|
  {
    if TooBig(c, TotalSize(s.index)) && s.index != [] {
      OldestGoes(s);
      EvictShrinks(c, WithoutOldest(s));
    }
  }

  /** Eviction ends small enough, takes the least recently used entries, no more of them than needed, and exactly their
      files. */
  lemma {:induction false} EvictionIsLru(c: Config, s: State)
    requires DistinctKeys(s.index)
    ensures var t := Evict(c, s);
            && DistinctKeys(t.index) && (forall k :: k in t.index ==> k in s.index) && TotalSize(t.index) <= TotalSize(s.index)
            && (TooBig(c, TotalSize(t.index)) ==> t.index == [])
            && EvictsOldest(s, t)
            && (t == s || exists v :: LastToGo(c, s, t, v))
            && (!TooBig(c, TotalSize(s.index)) ==> t == s)
    decreases |s.index|
  {
    var t := Evict(c, s);
    EvictShrinks(c, s);
    if TooBig(c, TotalSize(s.index)) && s.index != [] {
      OldestGoes(s);
      EvictShrinks(c, WithoutOldest(s));
      EvictionIsLru(c, WithoutOldest(s));
      RoundIsLru(c, s, WithoutOldest(s), t, s.index[Oldest(s.index)]);
    }
  }

  /** The first to go is the oldest of all; the last to go of the rest, if any, is also the last of all. */
  lemma RoundIsLru(c: Config, s: State, s1: State, t: State, v: Item)
    requires v in s.index && TooBig(c, TotalSize(s1.index) + v.entry.size)
    requires forall k :: k in s.index ==> v.entry.lastAccessed <= k.entry.lastAccessed
    requires forall k :: k in s1.index <==> k in s.index && k != v
    requires forall k :: k in t.index ==> k in s1.index
    requires EvictsOldest(s1, t) && (t == s1 || exists w :: LastToGo(c, s1, t, w))
    ensures EvictsOldest(s, t) && exists w :: LastToGo(c, s, t, w)
  {
    assert forall w :: Evicted(s, t, w) <==> w == v || Evicted(s1, t, w);
    if t == s1 {
      assert forall w :: !Evicted(s1, t, w);
      assert LastToGo(c, s, t, v);
    } else {
      var w :| LastToGo(c, s1, t, w);
      assert w in s.index by { assert Evicted(s, t, w); }
      assert LastToGo(c, s, t, w);
    }
  }

  /** The threshold in numbers: nothing goes within 0.9 of the maximum (a megabyte being 2^20 bytes), what is left is within it
      or nothing, and the last entry to go would have exceeded it. */
  lemma EvictsBeyondNineTenths(c: Config, s: State)
    requires DistinctKeys(s.index)
    ensures var t := Evict(c, s);
            && (10 * TotalSize(s.index) <= 9 * c.maxSizeMb * 1048576 ==> t == s)
            && (10 * TotalSize(t.index) <= 9 * c.maxSizeMb * 1048576 || t.index == [])
            && (t != s ==> exists v :: Evicted(s, t, v)
                             && (forall w :: Evicted(s, t, w) ==> w.entry.lastAccessed <= v.entry.lastAccessed)
                             && 10 * (TotalSize(t.index) + v.entry.size) > 9 * c.maxSizeMb * 1048576)
  {
    EvictionIsLru(c, s);
    var t := Evict(c, s);
    if t != s {
      var v :| LastToGo(c, s, t, v);
      assert Evicted(s, t, v);
    }
  }

  /** One round of the loop: the oldest entry goes, and then what goes from the rest. */
  lemma EvictionRound(c: Config, s: State)
    requires DistinctKeys(s.index) && TooBig(c, TotalSize(s.index)) && s.index != []
    ensures var v := s.index[Oldest(s.index)];
            var s1 := WithoutOldest(s);
            && DistinctKeys(s1.index) && Evict(c, s) == Evict(c, s1)
            && forall w :: Evicted(s, Evict(c, s), w) <==> w == v || Evicted(s1, Evict(c, s), w)
  {
    OldestGoes(s);
    EvictionIsLru(c, WithoutOldest(s));
  }

  /** A file is deleted if and only if an evicted entry pointed to it; nothing else on disk changes. */
  lemma {:induction false} EvictionDeletes(c: Config, s: State, p: Path)
    requires DistinctKeys(s.index)
    ensures var t := Evict(c, s);
            && (t.disk.Has(p) <==> s.disk.Has(p) && forall v :: Evicted(s, t, v) ==> v.entry.path != p)
            && (t.disk.Has(p) && p.WheelPath? ==> t.disk.wheels[p.name] == s.disk.wheels[p.name])
            && (t.disk.Has(p) && p.LayerPath? ==> t.disk.layers[p.id] == s.disk.layers[p.id])
    decreases |s.index|
  {
    if TooBig(c, TotalSize(s.index)) && s.index != [] {
      var v := s.index[Oldest(s.index)];
      EvictionRound(c, s);
      EvictionDeletes(c, WithoutOldest(s), p);
      assert Evicted(s, Evict(c, s), v);
    } else {
      assert forall v :: !Evicted(s, Evict(c, s), v);
    }
  }

  // ---- Runs ----

  datatype Event =
    | GetW(package: string, version: string, now: real)
    | GetL(id: string, now: real)
    | PutW(package: string, version: string, name: string, wheel: Source<Bytes>, sha: string, now: real)
    | PutL(id: string, layer: Source<Tree>, sha: string, now: real)
    | Check
    | TamperW(name: string, found: Option<Bytes>)       // somebody else writes or deletes a file
    | TamperL(id: string, tree: Option<Tree>)

  /** The cache with its history: what was last stored under each key, the hash recorded for it and how large it was, when
      each key was last stored or got, and the largest entry ever stored. */
  datatype System = System(s: State, stored: map<Key, Bytes>, recorded: map<Key, string>, sizes: map<Key, nat>,
                           used: map<Key, real>, biggest: nat)

  function Max(a: nat, b: nat): (r: nat)
    ensures r >= a && r >= b && (r == a || r == b)
  {
    if a >= b then a else b
  }

  function WheelOf(e: Event): Key
    requires e.GetW? || e.PutW?
  {
    WheelKey(e.package, e.version)
  }

  function Step(c: Config, h: System, e: Event): System {
    match e
    case GetW(_, _, now) =>
      var (s, got) := GetWheel(c, h.s, WheelOf(e), now);
      h.(s := s, used := if got.Found? then h.used[WheelOf(e) := now] else h.used)
    case GetL(id, now) =>
      var (s, got) := GetLayer(h.s, LayerKey(id), now);
      h.(s := s, used := if got.Found? then h.used[LayerKey(id) := now] else h.used)
    case PutW(_, _, name, source, sha, now) =>
      var (s, ok) := StoreWheel(c, h.s, WheelOf(e), name, source, sha, now);
      if ok && name in s.disk.wheels then
        var content := s.disk.wheels[name];
        System(s, h.stored[WheelOf(e) := content], h.recorded[WheelOf(e) := if sha != "" then sha else c.hash(content)],
               h.sizes[WheelOf(e) := |content|], h.used[WheelOf(e) := now], Max(h.biggest, |content|))
      else h.(s := s)
    case PutL(id, source, sha, now) =>
      var (s, ok) := StoreLayer(c, h.s, id, source, sha, now);
      if ok then
        var size := if id in s.disk.layers then TreeSize(s.disk.layers[id]) else 0;
        System(s, h.stored, h.recorded, h.sizes[LayerKey(id) := size], h.used[LayerKey(id) := now], Max(h.biggest, size))
      else h.(s := s)
    case Check => h.(s := Verify(c, h.s))
    case TamperW(name, found) =>
      var wheels := if found.Some? then h.s.disk.wheels[name := found.value] else h.s.disk.wheels - {name};
      h.(s := h.s.(disk := h.s.disk.(wheels := wheels)))
    case TamperL(id, tree) =>
      var layers := if tree.Some? then h.s.disk.layers[id := tree.value] else h.s.disk.layers - {id};
      h.(s := h.s.(disk := h.s.disk.(layers := layers)))
  }

  ghost predicate Injective(c: Config) {
    && (forall a, b :: c.hash(a) == c.hash(b) ==> a == b)
    && (forall a :: c.hash(a) != "")
  }

  predicate ItemOk(h: System, item: Item) {
    && (match item.key
        case WheelKey(_, _) =>
          item.entry.path.WheelPath? && item.key in h.stored && item.key in h.recorded && item.entry.sha == h.recorded[item.key]
        case LayerKey(id) => item.entry.path == LayerPath(id))
    && item.key in h.sizes && h.sizes[item.key] == item.entry.size
    && item.key in h.used && h.used[item.key] == item.entry.lastAccessed
  }

  ghost predicate Inv(c: Config, h: System) {
    && DistinctKeys(h.s.index)
    && (forall item :: item in h.s.index ==> ItemOk(h, item))
    && (c.maxSizeMb >= 0 ==> 10 * TotalSize(h.s.index) <= 9 * c.maxSizeMb * 1048576 + 10 * h.biggest)
  }

  lemma {:induction false} VerifyItems(c: Config, s: State)
    requires DistinctKeys(s.index)
    ensures var t := Verify(c, s);
            DistinctKeys(t.index) && (forall k :: k in t.index ==> k in s.index) && TotalSize(t.index) <= TotalSize(s.index)
    decreases |s.index|
  {
    if s.index == [] {
    } else {
      var e := s.index[0].entry;
      var disk := if Corrupt(c, s.disk, e) then s.disk.Without(e.path) else s.disk;
      VerifyItems(c, State(s.index[1..], disk));
      var t, rest := Verify(c, s), Verify(c, State(s.index[1..], disk)).index;
      forall i, j | 0 <= i < j < |t.index| ensures t.index[i].key != t.index[j].key {
        if t.index != rest && i == 0 { assert rest[j - 1] in rest; }
      }
    }
  }

  lemma TouchInv(c: Config, h: System, key: Key, entry: Entry, now: real)
    requires Inv(c, h) && Find(h.s.index, key) == Some(entry)
    ensures Inv(c, h.(s := h.s.(index := Put(h.s.index, key, entry.(lastAccessed := now))), used := h.used[key := now]))
  {
    FindItem(h.s.index, key);
    PutItems(h.s.index, key, entry.(lastAccessed := now));
    assert ItemOk(h, Item(key, entry));
    var t := h.(s := h.s.(index := Put(h.s.index, key, entry.(lastAccessed := now))), used := h.used[key := now]);
    forall item | item in t.s.index ensures ItemOk(t, item) {
      if item.key != key { assert ItemOk(h, item); }
    }
  }

  lemma ForgetInv(c: Config, h: System, key: Key, disk: Disk)
    requires Inv(c, h)
    ensures Inv(c, h.(s := State(Remove(h.s.index, key), disk)))
  {
    RemoveItems(h.s.index, key);
    var t := h.(s := State(Remove(h.s.index, key), disk));
    forall item | item in t.s.index ensures ItemOk(t, item) {
      assert ItemOk(h, item);
    }
  }

  lemma GetInv(c: Config, h: System, e: Event)
    requires Inv(c, h) && (e.GetW? || e.GetL?)
    ensures Inv(c, Step(c, h, e))
  {
    var key := if e.GetW? then WheelOf(e) else LayerKey(e.id);
    var found := Find(h.s.index, key);
    if found.Some? {
      TouchInv(c, h, key, found.value, e.now);
      ForgetInv(c, h, key, h.s.disk);
      ForgetInv(c, h, key, h.s.disk.Without(found.value.path));
    }
  }

  /** Evicting and then storing keeps the invariant; `key`'s history entries are those of the new entry. */
  lemma StoreInv(c: Config, h: System, t: System, key: Key, entry: Entry)
    requires Inv(c, h) && t.s.index == Put(Evict(c, h.s).index, key, entry)
    requires ItemOk(t, Item(key, entry))
    requires forall k :: k in h.stored && k != key ==> k in t.stored && t.stored[k] == h.stored[k]
    requires forall k :: k in h.recorded && k != key ==> k in t.recorded && t.recorded[k] == h.recorded[k]
    requires forall k :: k in h.sizes && k != key ==> k in t.sizes && t.sizes[k] == h.sizes[k]
    requires forall k :: k in h.used && k != key ==> k in t.used && t.used[k] == h.used[k]
    requires t.biggest == Max(h.biggest, entry.size)
    ensures Inv(c, t)
  {
    EvictionIsLru(c, h.s);
    PutItems(Evict(c, h.s).index, key, entry);
    forall item | item in t.s.index ensures ItemOk(t, item) {
      if item.key != key { assert ItemOk(h, item); }
    }
  }

  lemma EvictedInv(c: Config, h: System, disk: Disk)
    requires Inv(c, h)
    ensures Inv(c, h.(s := State(Evict(c, h.s).index, disk)))
  {
    EvictionIsLru(c, h.s);
    var t := h.(s := State(Evict(c, h.s).index, disk));
    forall item | item in t.s.index ensures ItemOk(t, item) {
      assert ItemOk(h, item);
    }
  }

  lemma PutWInv(c: Config, h: System, e: Event)
    requires Inv(c, h) && e.PutW?
    ensures Inv(c, Step(c, h, e))
  {
    var (s, ok) := StoreWheel(c, h.s, WheelOf(e), e.name, e.wheel, e.sha, e.now);
    if ok {
      var content := s.disk.wheels[e.name];
      var entry := Entry(WheelPath(e.name), if e.sha != "" then e.sha else c.hash(content), |content|, e.now);
      StoreInv(c, h, Step(c, h, e), WheelOf(e), entry);
    } else {
      EvictedInv(c, h, s.disk);
    }
  }

  lemma PutLInv(c: Config, h: System, e: Event)
    requires Inv(c, h) && e.PutL?
    ensures Inv(c, Step(c, h, e))
  {
    var (s, ok) := StoreLayer(c, h.s, e.id, e.layer, e.sha, e.now);
    if ok {
      var size := if e.id in s.disk.layers then TreeSize(s.disk.layers[e.id]) else 0;
      StoreInv(c, h, Step(c, h, e), LayerKey(e.id), Entry(LayerPath(e.id), e.sha, size, e.now));
    } else {
      EvictedInv(c, h, s.disk);
    }
  }

  lemma StepInv(c: Config, h: System, e: Event)
    requires Inv(c, h)
    ensures Inv(c, Step(c, h, e))
  {
    match e
    case GetW(_, _, _) => GetInv(c, h, e);
    case GetL(_, _) => GetInv(c, h, e);
    case PutW(_, _, _, _, _, _) => PutWInv(c, h, e);
    case PutL(_, _, _, _) => PutLInv(c, h, e);
    case Check =>
      VerifyItems(c, h.s);
      var t := Step(c, h, e);
      assert forall item :: item in t.s.index ==> ItemOk(h, item) && ItemOk(t, item);
    case TamperW(_, _) =>
    case TamperL(_, _) =>
  }

  function Run(c: Config, h: System, es: seq<Event>): System
    decreases |es|
  {
    if es == [] then h else Run(c, Step(c, h, es[0]), es[1..])
  }

  function Fresh(disk: Disk): System {
    System(State([], disk), map[], map[], map[], map[], 0)
  }

  lemma {:induction false} RunInv(c: Config, h: System, es: seq<Event>)
    requires Inv(c, h)
    ensures Inv(c, Run(c, h, es))
    decreases |es|
  {
    if es == [] {
    } else {
      StepInv(c, h, es[0]);
      RunInv(c, Step(c, h, es[0]), es[1..]);
    }
  }

  /** Over every run the total size stays within 0.9 of the maximum plus the largest entry ever stored, and each entry counts
      with the size it had when it was last stored. */
  lemma {:induction false} SizeBound(c: Config, disk: Disk, es: seq<Event>)
    requires c.maxSizeMb >= 0
    ensures var h := Run(c, Fresh(disk), es);
            && 10 * TotalSize(h.s.index) <= 9 * c.maxSizeMb * 1048576 + 10 * h.biggest
            && forall item :: item in h.s.index ==> item.key in h.sizes && item.entry.size == h.sizes[item.key]
  {
    RunInv(c, Fresh(disk), es);
    var h := Run(c, Fresh(disk), es);
    assert forall item :: item in h.s.index ==> ItemOk(h, item);
  }

  /** Agreement: after any run, outside corruption and wrong hashes included, a wheel that is found has the hash recorded when
      its key was last stored, so it is the content last stored if and only if that hash was the file's own; if a known key
      yields nothing, the index has let go of it; and nothing raises. */
  lemma Agreement(c: Config, disk: Disk, es: seq<Event>, package: string, version: string, now: real)
    requires Injective(c)
    ensures var h := Run(c, Fresh(disk), es);
            var key := WheelKey(package, version);
            var (t, got) := GetWheel(c, h.s, key, now);
            match got
            case Found(p) =>
              && p.WheelPath? && p.name in t.disk.wheels && key in h.stored && key in h.recorded
              && c.hash(t.disk.wheels[p.name]) == h.recorded[key]
              && (t.disk.wheels[p.name] == h.stored[key] <==> h.recorded[key] == c.hash(h.stored[key]))
            case Nothing => Find(t.index, key).None?
            case Raised => false
  {
    RunInv(c, Fresh(disk), es);
    var h := Run(c, Fresh(disk), es);
    var key := WheelKey(package, version);
    FindItem(h.s.index, key);
    RemoveItems(h.s.index, key);
    if Find(h.s.index, key).Some? {
      assert ItemOk(h, Item(key, Find(h.s.index, key).value));
    }
  }

  /** A wheel just stored is found by the next `get_wheel` if and only if no hash was given or the file's own; otherwise that
      very call deletes the file and forgets the key. */
  lemma StoredIsFoundExactly(c: Config, s: State, key: Key, name: string, source: Source<Bytes>, sha: string, now: real,
                             later: real)
    requires DistinctKeys(s.index) && StoreWheel(c, s, key, name, source, sha, now).1
    ensures var t := StoreWheel(c, s, key, name, source, sha, now).0;
            var (u, got) := GetWheel(c, t, key, later);
            && name in t.disk.wheels
            && (got == Found(WheelPath(name)) <==> sha == "" || sha == c.hash(t.disk.wheels[name]))
            && (got != Found(WheelPath(name)) ==> got == Nothing && name !in u.disk.wheels && Find(u.index, key).None?)
  {
    var t := StoreWheel(c, s, key, name, source, sha, now).0;
    var entry := Entry(WheelPath(name), if sha != "" then sha else c.hash(t.disk.wheels[name]), |t.disk.wheels[name]|, now);
    EvictionIsLru(c, s);
    PutItems(Evict(c, s).index, key, entry);
    FindItem(t.index, key);
    RemoveForgets(t.index, key);
  }

  /** A get that finds nothing forgets its own key and no other; one that finds something changes its own access time alone. */
  lemma GetsLeaveOthers(c: Config, s: State, key: Key, now: real)
    requires DistinctKeys(s.index)
    ensures LeavesOthers(s, GetWheel(c, s, key, now).0, GetWheel(c, s, key, now).1, key, now)
    ensures LeavesOthers(s, GetLayer(s, key, now).0, GetLayer(s, key, now).1, key, now)
  {
    match Find(s.index, key)
    case None => UnknownLeaves(s, key, now);
    case Some(entry) =>
      ForgottenLeaves(s, s.disk, key, now);
      ForgottenLeaves(s, s.disk.Without(entry.path), key, now);
      TouchedLeaves(s, key, entry, now);
  }

  lemma UnknownLeaves(s: State, key: Key, now: real)
    requires DistinctKeys(s.index) && Find(s.index, key).None?
    ensures LeavesOthers(s, s, Nothing, key, now)
  {
    FindItem(s.index, key);
  }

  lemma ForgottenLeaves(s: State, disk: Disk, key: Key, now: real)
    requires DistinctKeys(s.index)
    ensures LeavesOthers(s, State(Remove(s.index, key), disk), Nothing, key, now)
  {
    RemoveItems(s.index, key);
  }

  lemma TouchedLeaves(s: State, key: Key, entry: Entry, now: real)
    requires DistinctKeys(s.index) && Find(s.index, key) == Some(entry)
    ensures forall p :: LeavesOthers(s, s.(index := Put(s.index, key, entry.(lastAccessed := now))), Found(p), key, now)
  {
    PutItems(s.index, key, entry.(lastAccessed := now));
  }

  /** `t` is the state after a get that ended in `got`. */
  ghost predicate LeavesOthers(s: State, t: State, got: Got, key: Key, now: real) {
    match got
    case Nothing => forall item :: item in t.index <==> item in s.index && item.key != key
    case Found(_) =>
      && Find(s.index, key).Some?
      && (forall item: Item :: item.key != key ==> (item in t.index <==> item in s.index))
      && Item(key, Find(s.index, key).value.(lastAccessed := now)) in t.index
    case Raised => t == s
  }

  lemma {:induction false} TreeSizeSplits(a: Tree, b: Tree)
    ensures TreeSize(a + b) == TreeSize(a) + TreeSize(b)
  {
    if a == [] {
      assert a + b == b;
    } else {
      assert (a + b)[1..] == a[1..] + b;
      TreeSizeSplits(a[1..], b);
    }
  }

  /** The recorded size of a layer adds up the lengths of its files. */
  lemma TreeSizeIsSum(t: Tree, file: Bytes)
    ensures TreeSize([]) == 0 && TreeSize(t + [file]) == TreeSize(t) + |file|
  {
    TreeSizeSplits(t, [file]);
    assert [file][1..] == [];
  }

  /** A layer stored from outside is found by the next get, with the content given and its size; nothing else on disk changes
      but what eviction deletes. A store whose source is missing leaves neither directory nor new entry. */
  lemma StoredLayerIsFound(c: Config, s: State, id: string, tree: Tree, sha: string, now: real, later: real)
    requires DistinctKeys(s.index)
    ensures var (t, ok) := StoreLayer(c, s, id, Outside(Some(tree)), sha, now);
            var entry := Entry(LayerPath(id), sha, TreeSize(tree), now);
            && ok && t.disk == Evict(c, s).disk.(layers := Evict(c, s).disk.layers[id := tree])
            && Find(t.index, LayerKey(id)) == Some(entry)
            && (forall item: Item :: item.key != LayerKey(id) ==> (item in t.index <==> item in Evict(c, s).index))
            && GetLayer(t, LayerKey(id), later).1 == Found(LayerPath(id))
    ensures var (t, ok) := StoreLayer(c, s, id, Outside(None), sha, now);
            !ok && t.index == Evict(c, s).index && id !in t.disk.layers && t.disk.wheels == Evict(c, s).disk.wheels
  {
    EvictionIsLru(c, s);
    var t := StoreLayer(c, s, id, Outside(Some(tree)), sha, now).0;
    PutItems(Evict(c, s).index, LayerKey(id), Entry(LayerPath(id), sha, TreeSize(tree), now));
    FindItem(t.index, LayerKey(id));
  }

  /** A layer that is found is the directory of that layer, and it is there; if a known layer yields nothing, the index has
      let go of it. */
  lemma LayerAgreement(c: Config, disk: Disk, es: seq<Event>, id: string, now: real)
    ensures var h := Run(c, Fresh(disk), es);
            var (t, got) := GetLayer(h.s, LayerKey(id), now);
            && t.disk == h.s.disk
            && match got
               case Found(p) => p == LayerPath(id) && id in t.disk.layers
               case Nothing => Find(t.index, LayerKey(id)).None?
               case Raised => false
  {
    RunInv(c, Fresh(disk), es);
    var h := Run(c, Fresh(disk), es);
    FindItem(h.s.index, LayerKey(id));
    RemoveItems(h.s.index, LayerKey(id));
    if Find(h.s.index, LayerKey(id)).Some? {
      assert ItemOk(h, Item(LayerKey(id), Find(h.s.index, LayerKey(id)).value));
    }
  }

  /** What counts as use: after any run, a get that finds something dates its key, and no other; one that finds nothing dates
      none. The state moves as the operation says. */
  lemma GetsCountAsUse(c: Config, disk: Disk, es: seq<Event>, e: Event)
    requires e.GetW? || e.GetL?
    ensures var h := Run(c, Fresh(disk), es);
            var key := if e.GetW? then WheelKey(e.package, e.version) else LayerKey(e.id);
            var (s, got) := if e.GetW? then GetWheel(c, h.s, key, e.now) else GetLayer(h.s, key, e.now);
            var t := Run(c, Fresh(disk), es + [e]);
            && t.s == s && t.stored == h.stored && t.sizes == h.sizes
            && t.used == (if got.Found? then h.used[key := e.now] else h.used)
  {
    RunOneMore(c, Fresh(disk), es, e);
  }

  lemma {:induction false} RunOneMore(c: Config, h: System, es: seq<Event>, e: Event)
    ensures Run(c, h, es + [e]) == Step(c, Run(c, h, es), e)
    decreases |es|
  {
    if es == [] {
      assert [] + [e] == [e] && [e][1..] == [];
      assert Run(c, h, [e]) == Run(c, Step(c, h, e), []);
    } else {
      assert (es + [e])[0] == es[0] && (es + [e])[1..] == es[1..] + [e];
      RunOneMore(c, Step(c, h, es[0]), es[1..], e);
    }
  }

  /** What a store leaves in the history: after any run, one that succeeds is remembered with the file as it was given, the hash
      given or else the file's own, its size and its time; one that raises is not remembered at all. */
  lemma StoresAreRemembered(c: Config, disk: Disk, es: seq<Event>, e: Event)
    requires e.PutW?
    ensures var h := Run(c, Fresh(disk), es);
            var key := WheelKey(e.package, e.version);
            var (s, ok) := StoreWheel(c, h.s, key, e.name, e.wheel, e.sha, e.now);
            var t := Run(c, Fresh(disk), es + [e]);
            && t.s == s
            && (!ok ==> t == h.(s := s))
            && (ok ==>
                  && e.name in s.disk.wheels
                  && var file := s.disk.wheels[e.name];
                     && (e.wheel.Outside? ==> e.wheel.content == Some(file))
                     && (e.wheel.InPlace? ==> e.name in h.s.disk.wheels && h.s.disk.wheels[e.name] == file)
                     && t.stored == h.stored[key := file] && t.sizes == h.sizes[key := |file|] && t.used == h.used[key := e.now]
                     && t.recorded == h.recorded[key := if e.sha == "" then c.hash(file) else e.sha])
  {
    RunOneMore(c, Fresh(disk), es, e);
    if e.name in Evict(c, Run(c, Fresh(disk), es).s).disk.wheels {
      EvictedFilesStay(c, Run(c, Fresh(disk), es).s, e.name);
    }
  }

  lemma {:induction false} EvictedFilesStay(c: Config, s: State, name: string)
    requires name in Evict(c, s).disk.wheels
    ensures name in s.disk.wheels && s.disk.wheels[name] == Evict(c, s).disk.wheels[name]
    decreases |s.index|
  {
    if TooBig(c, TotalSize(s.index)) && s.index != [] {
      EvictedFilesStay(c, WithoutOldest(s), name);
    }
  }

  /** How large the entry is that an event stores, 0 if it stores none. */
  function StoredSize(c: Config, s: State, e: Event): nat {
    match e
    case PutW(package, version, name, source, sha, now) =>
      var (t, ok) := StoreWheel(c, s, WheelKey(package, version), name, source, sha, now);
      if ok && name in t.disk.wheels then |t.disk.wheels[name]| else 0
    case PutL(id, source, sha, now) =>
      var (t, ok) := StoreLayer(c, s, id, source, sha, now);
      if ok && id in t.disk.layers then TreeSize(t.disk.layers[id]) else 0
    case _ => 0
  }

  lemma StepBiggest(c: Config, h: System, e: Event)
    ensures Step(c, h, e).biggest == Max(h.biggest, StoredSize(c, h.s, e))
  {
  }

  /** The largest entry ever stored is one that was stored, and none was larger. */
  lemma {:induction false} BiggestWasStored(c: Config, h: System, es: seq<Event>)
    ensures Run(c, h, es).biggest >= h.biggest
    ensures forall i :: 0 <= i < |es| ==> StoredSize(c, Run(c, h, es[..i]).s, es[i]) <= Run(c, h, es).biggest
    ensures Run(c, h, es).biggest == h.biggest
            || exists i :: 0 <= i < |es| && StoredSize(c, Run(c, h, es[..i]).s, es[i]) == Run(c, h, es).biggest
    decreases |es|
  {
    if es == [] {
    } else {
      var front, e := es[..|es| - 1], es[|es| - 1];
      BiggestWasStored(c, h, front);
      RunOneMore(c, h, front, e);
      assert es == front + [e];
      forall i | 0 <= i < |front| ensures front[..i] == es[..i] && front[i] == es[i] {}
      StepBiggest(c, Run(c, h, front), e);
      assert es[..|front|] == front;
    }
  }

  /** Eviction in terms of use: after any run, whatever goes was last stored or got no later than whatever stays. */
  lemma EvictsLeastRecentlyUsed(c: Config, disk: Disk, es: seq<Event>, v: Item, k: Item)
    requires var h := Run(c, Fresh(disk), es); Evicted(h.s, Evict(c, h.s), v) && k in Evict(c, h.s).index
    ensures var h := Run(c, Fresh(disk), es); v.key in h.used && k.key in h.used && h.used[v.key] <= h.used[k.key]
  {
    RunInv(c, Fresh(disk), es);
    var h := Run(c, Fresh(disk), es);
    EvictionIsLru(c, h.s);
    assert ItemOk(h, v) && ItemOk(h, k);
  }

  // ---- The index as a record of the disk ----

  function SizeOnDisk(d: Disk, p: Path): nat
    requires d.Has(p)
  {
    match p case WheelPath(name) => |d.wheels[name]| case LayerPath(id) => TreeSize(d.layers[id])
  }

  ghost predicate Tracked(index: Index, p: Path) {
    exists a :: a in index && a.entry.path == p
  }

  /** Entries and files correspond one to one, with the sizes the files have. */
  ghost predicate Faithful(s: State) {
    && DistinctKeys(s.index)
    && (forall a, b :: a in s.index && b in s.index && a.entry.path == b.entry.path ==> a == b)
    && (forall p :: s.disk.Has(p) <==> Tracked(s.index, p))
    && (forall a :: a in s.index && s.disk.Has(a.entry.path) ==> a.entry.size == SizeOnDisk(s.disk, a.entry.path))
  }

  lemma EvictKeepsFaithful(c: Config, s: State)
    requires Faithful(s)
    ensures Faithful(Evict(c, s))
  {
    var t := Evict(c, s);
    EvictionIsLru(c, s);
    forall p
      ensures t.disk.Has(p) <==> Tracked(t.index, p)
      ensures t.disk.Has(p) ==> s.disk.Has(p) && SizeOnDisk(t.disk, p) == SizeOnDisk(s.disk, p)
    {
      EvictionDeletes(c, s, p);
      if a :| a in t.index && a.entry.path == p {
        assert forall v :: Evicted(s, t, v) ==> v in s.index && v != a;
      }
      if t.disk.Has(p) {
        assert Tracked(s.index, p);
        var a :| a in s.index && a.entry.path == p;
        assert !Evicted(s, t, a);
      }
    }
  }

  /** The state after writing `content` to a wheel file and recording it under `key`. */
  function Recorded(s: State, key: Key, name: string, content: Bytes, sha: string, now: real): State {
    State(Put(s.index, key, Entry(WheelPath(name), sha, |content|, now)), s.disk.(wheels := s.disk.wheels[name := content]))
  }

  lemma StoreRecords(c: Config, s: State, key: Key, name: string, source: Source<Bytes>, sha: string, now: real)
    requires StoreWheel(c, s, key, name, source, sha, now).1
    ensures exists content, actual ::
              StoreWheel(c, s, key, name, source, sha, now).0 == Recorded(Evict(c, s), key, name, content, actual, now)
  {
    var s1, t := Evict(c, s), StoreWheel(c, s, key, name, source, sha, now).0;
    var content := t.disk.wheels[name];
    assert s1.disk.wheels[name := content] == t.disk.wheels;
    assert t == Recorded(s1, key, name, content, if sha != "" then sha else c.hash(content), now);
  }

  lemma MatchingKeepsFaithful(s: State, key: Key, name: string, content: Bytes, sha: string, now: real)
    requires Faithful(s) && forall a :: a in s.index ==> (a.entry.path == WheelPath(name) <==> a.key == key)
    ensures Faithful(Recorded(s, key, name, content, sha, now))
  {
    var t, stored := Recorded(s, key, name, content, sha, now), Item(key, Entry(WheelPath(name), sha, |content|, now));
    PutItems(s.index, key, stored.entry);
    forall p ensures t.disk.Has(p) <==> Tracked(t.index, p) {
      if p == WheelPath(name) {
        assert stored in t.index;
      } else {
        assert (t.disk.Has(p) <==> s.disk.Has(p)) && (s.disk.Has(p) <==> Tracked(s.index, p));
        if a :| a in s.index && a.entry.path == p {
          assert a in t.index;
        }
        if a :| a in t.index && a.entry.path == p {
          assert a in s.index;
        }
      }
    }
    forall a | a in t.index && t.disk.Has(a.entry.path) ensures a.entry.size == SizeOnDisk(t.disk, a.entry.path) {
      if a != stored {
        assert a in s.index && a.entry.path != WheelPath(name);
        assert s.disk.Has(a.entry.path);
      }
    }
  }

  lemma OtherwiseUnfaithful(s: State, key: Key, name: string, content: Bytes, sha: string, now: real, a: Item)
    requires Faithful(s) && a in s.index && !(a.entry.path == WheelPath(name) <==> a.key == key)
    ensures !Faithful(Recorded(s, key, name, content, sha, now))
  {
    var t, stored := Recorded(s, key, name, content, sha, now), Item(key, Entry(WheelPath(name), sha, |content|, now));
    PutItems(s.index, key, stored.entry);
    if a.key == key {
      assert Tracked(s.index, a.entry.path) && t.disk.Has(a.entry.path);
      assert forall b :: b in t.index ==> b.entry.path != a.entry.path;
    } else {
      assert a in t.index && stored in t.index;
    }
  }

  /** Storing a wheel keeps the index a faithful record of the disk if and only if, after eviction, the file it writes and the
      key it writes it under belong together: nobody else's entry has that file, and the key's old entry, if any, has no other.
      Otherwise two entries count one file, or the old file stays on disk with no entry that could ever evict it. */
  lemma StoreKeepsFaithfulExactly(c: Config, s: State, key: Key, name: string, source: Source<Bytes>, sha: string, now: real)
    requires Faithful(s) && StoreWheel(c, s, key, name, source, sha, now).1
    ensures Faithful(StoreWheel(c, s, key, name, source, sha, now).0) <==>
            forall a :: a in Evict(c, s).index ==> (a.entry.path == WheelPath(name) <==> a.key == key)
  {
    var s1 := Evict(c, s);
    EvictKeepsFaithful(c, s);
    StoreRecords(c, s, key, name, source, sha, now);
    var content, actual :|
      StoreWheel(c, s, key, name, source, sha, now).0 == Recorded(s1, key, name, content, actual, now);
    if a :| a in s1.index && !(a.entry.path == WheelPath(name) <==> a.key == key) {
      OtherwiseUnfaithful(s1, key, name, content, actual, now, a);
    } else {
      MatchingKeepsFaithful(s1, key, name, content, actual, now);
    }
  }

  // ---- Integrity check ----

  /** An intact entry, checked before a corrupt one that shares its file: the file goes, the entry stays. */
  ghost predicate Undermined(c: Config, s: State) {
    exists i, j :: 0 <= i < j < |s.index| && UnderminedBy(c, s, i, j)
  }

  ghost predicate UnderminedBy(c: Config, s: State, i: nat, j: nat)
    requires i < |s.index| && j < |s.index|
  {
    && s.index[i].entry.path == s.index[j].entry.path
    && Intact(c, s.disk, s.index[i].entry) && Corrupt(c, s.disk, s.index[j].entry)
    && forall k :: 0 <= k < i && s.index[k].entry.path == s.index[i].entry.path ==> !Corrupt(c, s.disk, s.index[k].entry)
  }

  ghost predicate AllIntact(c: Config, s: State) {
    forall item :: item in s.index ==> Intact(c, s.disk, item.entry)
  }

  ghost predicate SomeCorruptAt(c: Config, s: State, p: Path) {
    exists i :: 0 <= i < |s.index| && s.index[i].entry.path == p && Corrupt(c, s.disk, s.index[i].entry)
  }

  /** The state the check goes on with after the first entry. */
  function AfterFirst(c: Config, s: State): State
    requires s.index != []
  {
    var e := s.index[0].entry;
    State(s.index[1..], if Corrupt(c, s.disk, e) then s.disk.Without(e.path) else s.disk)
  }

  /** The check deletes a file exactly if some entry found it corrupt. */
  lemma {:induction false} VerifyDeletes(c: Config, s: State, p: Path)
    ensures var t := Verify(c, s);
            && (t.disk.Has(p) <==> s.disk.Has(p) && !SomeCorruptAt(c, s, p))
            && (t.disk.Has(p) && p.WheelPath? ==> t.disk.wheels[p.name] == s.disk.wheels[p.name])
    decreases |s.index|
  {
    if s.index == [] {
    } else {
      var r := AfterFirst(c, s);
      VerifyDeletes(c, r, p);
      var e := s.index[0].entry;
      if i :| 0 <= i < |r.index| && r.index[i].entry.path == p && Corrupt(c, r.disk, r.index[i].entry) {
        assert s.index[i + 1] == r.index[i] && Corrupt(c, s.disk, s.index[i + 1].entry);
      }
      if i :| 0 <= i < |s.index| && s.index[i].entry.path == p && Corrupt(c, s.disk, s.index[i].entry) {
        if i > 0 && r.disk.Has(p) {
          assert r.index[i - 1] == s.index[i] && Corrupt(c, r.disk, r.index[i - 1].entry);
        }
      }
    }
  }

  /** The check keeps an entry exactly if its file was intact and no earlier entry had the file deleted. */
  lemma {:induction false} VerifyKeepsExactly(c: Config, s: State, i: nat)
    requires DistinctKeys(s.index) && i < |s.index|
    ensures s.index[i] in Verify(c, s).index <==>
            && Intact(c, s.disk, s.index[i].entry)
            && forall k :: 0 <= k < i && s.index[k].entry.path == s.index[i].entry.path ==> !Corrupt(c, s.disk, s.index[k].entry)
    decreases |s.index|
  {
    var r := AfterFirst(c, s);
    VerifyItems(c, r);
    if i == 0 {
      assert s.index[0] !in r.index;
    } else {
      VerifyKeepsExactly(c, r, i - 1);
      var e := s.index[i].entry;
      assert r.index[i - 1] == s.index[i];
      if Corrupt(c, s.disk, s.index[0].entry) && s.index[0].entry.path == e.path {
        assert !Intact(c, r.disk, e);
      } else {
        assert Intact(c, r.disk, e) <==> Intact(c, s.disk, e);
        forall k | 0 <= k < i - 1 && r.index[k].entry.path == e.path
          ensures Corrupt(c, r.disk, r.index[k].entry) <==> Corrupt(c, s.disk, s.index[k + 1].entry)
        {
          assert r.index[k] == s.index[k + 1];
        }
        if k :| 0 <= k < i && s.index[k].entry.path == e.path && Corrupt(c, s.disk, s.index[k].entry) {
          assert r.index[k - 1] == s.index[k];
        }
      }
    }
  }

  /** After the check every remaining entry is intact, if and only if no intact entry shared its file with a later corrupt
      one. In particular, entries with distinct paths are safe. */
  lemma VerifyLeavesIntact(c: Config, s: State)
    requires DistinctKeys(s.index)
    ensures AllIntact(c, Verify(c, s)) <==> !Undermined(c, s)
  {
    var t := Verify(c, s);
    VerifyItems(c, s);
    if Undermined(c, s) {
      var i, j :| 0 <= i < j < |s.index| && UnderminedBy(c, s, i, j);
      VerifyKeepsExactly(c, s, i);
      VerifyDeletes(c, s, s.index[i].entry.path);
      assert SomeCorruptAt(c, s, s.index[i].entry.path);
      assert !Intact(c, t.disk, s.index[i].entry);
    } else {
      forall item | item in t.index ensures Intact(c, t.disk, item.entry) {
        var i :| 0 <= i < |s.index| && s.index[i] == item;
        VerifyKeepsExactly(c, s, i);
        VerifyDeletes(c, s, item.entry.path);
        if SomeCorruptAt(c, s, item.entry.path) {
          var j :| 0 <= j < |s.index| && s.index[j].entry.path == item.entry.path && Corrupt(c, s.disk, s.index[j].entry);
          assert j > i;
          assert UnderminedBy(c, s, i, j);
        }
      }
    }
  }

  /** The cache gets there by itself: two wheels of one filename, the first stored again last. The check passes the first
      entry, then deletes the file they share on account of the second. */
  lemma SharedFilename(c: Config, disk: Disk, a: string, b: string, v: string, name: string, c1: Bytes, c2: Bytes, c3: Bytes)
    requires a != b && c.hash(c2) != c.hash(c3) && c.hash(c2) != "" && c.hash(c3) != ""
    requires !TooBig(c, |c1| + |c2|)
    ensures var h := Run(c, Fresh(disk), [
                       PutW(a, v, name, Outside(Some(c1)), "", 0.0),
                       PutW(b, v, name, Outside(Some(c2)), "", 1.0),
                       PutW(a, v, name, Outside(Some(c3)), "", 2.0)]);
            var t := Verify(c, h.s);
            && Undermined(c, h.s)
            && |t.index| == 1 && t.index[0].key == WheelKey(a, v) && !t.disk.Has(t.index[0].entry.path)
  {
    var ia := Item(WheelKey(a, v), Entry(WheelPath(name), c.hash(c1), |c1|, 0.0));
    var ib := Item(WheelKey(b, v), Entry(WheelPath(name), c.hash(c2), |c2|, 1.0));
    var ic := Item(WheelKey(a, v), Entry(WheelPath(name), c.hash(c3), |c3|, 2.0));
    SizeOfTwo(ia, ib);
    var h1 := PlainStore(c, Fresh(disk), a, v, name, c1, 0.0);
    var h2 := PlainStore(c, h1, b, v, name, c2, 1.0);
    assert h2.s.index == [ia] + Put([], ib.key, ib.entry) == [ia, ib] by { assert h1.s.index == [ia] && [ia][1..] == []; }
    var h3 := PlainStore(c, h2, a, v, name, c3, 2.0);
    assert h3.s.index == [ic, ib];
    RunThree(c, Fresh(disk), PutW(a, v, name, Outside(Some(c1)), "", 0.0), PutW(b, v, name, Outside(Some(c2)), "", 1.0),
             PutW(a, v, name, Outside(Some(c3)), "", 2.0));
    assert UnderminedBy(c, h3.s, 0, 1);
    assert [ic, ib][1..] == [ib] && [ib][1..] == [];
    assert Verify(c, State([ib], h3.s.disk)) == State([], h3.s.disk.Without(WheelPath(name)));
  }

  /** Storing a wheel from outside while there is room. */
  lemma PlainStore(c: Config, h: System, package: string, v: string, name: string, content: Bytes, now: real) returns (t: System)
    requires !TooBig(c, TotalSize(h.s.index))
    ensures t == Step(c, h, PutW(package, v, name, Outside(Some(content)), "", now))
    ensures t.s == Recorded(h.s, WheelKey(package, v), name, content, c.hash(content), now)
  {
    t := Step(c, h, PutW(package, v, name, Outside(Some(content)), "", now));
  }

  lemma SizeOfTwo(a: Item, b: Item)
    ensures TotalSize([a]) == a.entry.size && TotalSize([a, b]) == a.entry.size + b.entry.size
  {
    assert [a][1..] == [] && [a, b][1..] == [b] && [b][1..] == [];
  }

  lemma RunThree(c: Config, h: System, e1: Event, e2: Event, e3: Event)
    ensures Run(c, h, [e1, e2, e3]) == Step(c, Step(c, Step(c, h, e1), e2), e3)
  {
    var h2 := Step(c, Step(c, h, e1), e2);
    assert [e1, e2, e3][1..] == [e2, e3] && [e2, e3][1..] == [e3] && [e3][1..] == [];
    assert Run(c, h2, [e3]) == Run(c, Step(c, h2, e3), []) == Step(c, h2, e3);
  }

  /** An entry is intact if and only if what it points to is there and, for a wheel with a hash recorded, has that hash. */
  lemma IntactMeans(c: Config, d: Disk, e: Entry)
    ensures Intact(c, d, e) <==>
              match e.path
              case WheelPath(name) => name in d.wheels && (e.sha == "" || c.hash(d.wheels[name]) == e.sha)
              case LayerPath(id) => id in d.layers
  {
  }

  /** The keys of the entries that are not in `kept`, in order. */
  function KeysNotIn(index: Index, kept: Index): seq<Key> {
    if index == [] then [] else (if index[0] in kept then [] else [index[0].key]) + KeysNotIn(index[1..], kept)
  }

  lemma {:induction false} KeysNotInSame(index: Index, a: Index, b: Index)
    requires forall item :: item in index ==> (item in a <==> item in b)
    ensures KeysNotIn(index, a) == KeysNotIn(index, b)
  {
    if index == [] {
    } else {
      KeysNotInSame(index[1..], a, b);
    }
  }

  /** What it reports are the keys of the entries it drops, in the order of the index. */
  lemma {:induction false} IssuesAreDropped(c: Config, s: State)
    requires DistinctKeys(s.index)
    ensures Issues(c, s) == KeysNotIn(s.index, Verify(c, s).index)
    decreases |s.index|
  {
    if s.index == [] {
    } else {
      var r := AfterFirst(c, s);
      IssuesAreDropped(c, r);
      VerifyItems(c, r);
      assert s.index[0] !in r.index;
      KeysNotInSame(r.index, Verify(c, r).index, Verify(c, s).index);
    }
  }

  /** It reports nothing exactly when nothing was wrong. */
  lemma {:induction false} NoIssues(c: Config, s: State)
    ensures Issues(c, s) == [] <==> AllIntact(c, s)
    decreases |s.index|
  {
    if s.index == [] {
    } else {
      assert s.index[0] in s.index;
      if Intact(c, s.disk, s.index[0].entry) {
        NoIssues(c, State(s.index[1..], s.disk));
        assert forall item :: item in s.index <==> item == s.index[0] || item in s.index[1..];
      }
    }
  }
}
