/** Content-addressed package layers and their memoised composition (virtualization/layers.py). */
module Layers {

  type Bytes = seq<bv8>

  /** A directory as its files: relative path to content. No path is a file in one layer and a directory in another. */
  type Tree = map<string, Bytes>

  /** What unpacking an archive leaves behind, and whether it ran to its end. */
  datatype Extraction = Extraction(files: Tree, complete: bool)

  /** The content-addressed name of a layer, the directory name for a joined list of layer ids, and the unpacker. */
  datatype Config = Config(layerId: Bytes -> string, dirId: string -> string, extract: Bytes -> Extraction)

  datatype State = State(layers: map<string, Tree>, composed: map<string, Tree>)

  /** ":".join(ids) */
  function Join(ids: seq<string>): string {
    if ids == [] then ""
    else if |ids| == 1 then ids[0]
    else ids[0] + ":" + Join(ids[1..])
  }

  /** The files of the listed layers that exist, each later layer over the earlier ones. */
  function Overlay(layers: map<string, Tree>, ids: seq<string>): Tree {
    if ids == [] then map[]
    else
      var below := Overlay(layers, ids[..|ids| - 1]);
      if ids[|ids| - 1] in layers then below + layers[ids[|ids| - 1]] else below
  }

  /** `store_layer`; the flag is false when it raises. The directory is made before the archive is looked at. */
  function Store(c: Config, s: State, data: Bytes): (State, bool) {
    var id := c.layerId(data);
    if id in s.layers then (s, true)
    else (s.(layers := s.layers[id := c.extract(data).files]), c.extract(data).complete)
  }

  function Compose(c: Config, s: State, ids: seq<string>): State {
    var dir := c.dirId(Join(ids));
    if dir in s.composed then s else s.(composed := s.composed[dir := Overlay(s.layers, ids)])
  }

  function Cleanup(s: State, active: set<string>): State {
    s.(layers := map id | id in s.layers && id in active :: s.layers[id])
  }

  class LayerManager {
    const config: Config
    var layers: map<string, Tree>
    var composed: map<string, Tree>

    constructor (config: Config)
      ensures this.config == config && View() == State(map[], map[])
    {
      this.config := config;
      layers := map[];
      composed := map[];
    }

    ghost function View(): State
      reads this
    {
      State(layers, composed)
    }

    /** Returns the id of the layer and its files, or None if it raises. */
    method StoreLayer(data: Bytes) returns (ok: bool, id: string, files: set<string>)
      modifies this
      ensures (View(), ok) == Store(config, old(View()), data)
      ensures id == config.layerId(data) && id in layers && files == layers[id].Keys
    {
      id := config.layerId(data);
      ok := true;
      if id !in layers {
        var extraction := config.extract(data);
        layers := layers[id := extraction.files];
        ok := extraction.complete;
      }
      files := layers[id].Keys;
    }

    method ComposeLayers(ids: seq<string>) returns (dir: string)
      modifies this
      ensures View() == Compose(config, old(View()), ids)
      ensures dir == config.dirId(Join(ids)) && dir in composed
    {
      dir := config.dirId(Join(ids));
      if dir in composed {
        return;
      }
      composed := composed[dir := map[]];
      for i := 0 to |ids|
        invariant layers == old(layers)
        invariant composed == old(composed)[dir := Overlay(layers, ids[..i])]
      {
        assert ids[..i + 1][..i] == ids[..i];
        if ids[i] in layers {
          CopyTree(dir, layers[ids[i]]);
        }
      }
      assert ids[..|ids|] == ids;
    }

    /** Copies every file of `source` into the directory, in whatever order they are listed. */
    method CopyTree(dir: string, source: Tree)
      requires dir in composed
      modifies this`composed
      ensures composed == old(composed)[dir := old(composed)[dir] + source]
    {
      var items := source.Keys;
      while items != {}
        invariant items <= source.Keys
        invariant dir in composed
        invariant composed == old(composed)[dir := composed[dir]]
        invariant composed[dir] == old(composed)[dir] + (map p | p in source && p !in items :: source[p])
        decreases items
      {
        var p :| p in items;
        composed := composed[dir := composed[dir][p := source[p]]];
        items := items - {p};
      }
      assert (map p | p in source && p !in items :: source[p]) == source;
    }

    method CleanupUnused(active: set<string>) returns (removed: nat)
      modifies this
      ensures View() == Cleanup(old(View()), active)
      ensures removed == |old(layers).Keys - active|
    {
      removed := 0;
      var ids := layers.Keys;
      ghost var gone: set<string> := {};
      while ids != {}
        invariant ids <= old(layers).Keys && composed == old(composed)
        invariant gone == (old(layers).Keys - ids) - active && removed == |gone|
        invariant layers == old(layers) - gone
        decreases ids
      {
        var id :| id in ids;
        assert id !in gone;
        if id !in active {
          layers := layers - {id};
          removed := removed + 1;
          gone := gone + {id};
        }
        ids := ids - {id};
      }
      assert gone == old(layers).Keys - active;
    }
  }

  // ---- The plain overlay ----

  predicate Holds(layers: map<string, Tree>, id: string, p: string) {
    id in layers && p in layers[id]
  }

  /** `i` is the last listed layer that holds the file. */
  ghost predicate LastHolder(layers: map<string, Tree>, ids: seq<string>, p: string, i: nat) {
    i < |ids| && Holds(layers, ids[i], p) && forall j :: i < j < |ids| ==> !Holds(layers, ids[j], p)
  }

  lemma {:induction false} OverlayHas(layers: map<string, Tree>, ids: seq<string>, p: string)
    ensures p in Overlay(layers, ids) <==> exists i :: 0 <= i < |ids| && Holds(layers, ids[i], p)
  {
    if ids == [] {
    } else {
      var front := ids[..|ids| - 1];
      OverlayHas(layers, front, p);
      if i :| 0 <= i < |front| && Holds(layers, front[i], p) {
        assert ids[i] == front[i];
      }
      if i :| 0 <= i < |ids| && Holds(layers, ids[i], p) {
        assert i < |front| ==> front[i] == ids[i];
      }
    }
  }

  lemma {:induction false} OverlayAt(layers: map<string, Tree>, ids: seq<string>, p: string, i: nat)
    requires LastHolder(layers, ids, p, i)
    ensures p in Overlay(layers, ids) && Overlay(layers, ids)[p] == layers[ids[i]][p]
  {
    if i < |ids| - 1 {
      assert !Holds(layers, ids[|ids| - 1], p);
      OverlayAt(layers, ids[..|ids| - 1], p, i);
    }
  }

  /** Last one wins: a path is in the composition iff some listed layer holds it, with the content of the last that does. */
  lemma {:induction false} OverlayIsLastWins(layers: map<string, Tree>, ids: seq<string>, p: string)
    ensures p in Overlay(layers, ids) <==> exists i :: 0 <= i < |ids| && Holds(layers, ids[i], p)
    ensures forall i: nat :: LastHolder(layers, ids, p, i) ==>
              p in Overlay(layers, ids) && Overlay(layers, ids)[p] == layers[ids[i]][p]
  {
    OverlayHas(layers, ids, p);
    forall i: nat | LastHolder(layers, ids, p, i) { OverlayAt(layers, ids, p, i); }
  }

  lemma {:induction false} LastHolderExists(layers: map<string, Tree>, ids: seq<string>, p: string) returns (i: nat)
    requires p in Overlay(layers, ids)
    ensures LastHolder(layers, ids, p, i)
  {
    OverlayIsLastWins(layers, ids, p);
    i := |ids| - 1;
    while !Holds(layers, ids[i], p)
      decreases i
      invariant i < |ids| && forall j :: i < j < |ids| ==> !Holds(layers, ids[j], p)
    {
      assert i > 0;
      i := i - 1;
    }
  }

  /** Of the layers that are left, the last to hold the file holds these bytes. */
  ghost predicate LastLeftHas(some: map<string, Tree>, ids: seq<string>, p: string, bytes: Bytes) {
    exists k: nat :: LastHolder(some, ids, p, k) && some[ids[k]][p] == bytes
  }

  /** Leaving out a layer does no harm to a path if the last of the others to hold it holds the same bytes; paths that a later
      layer holds as well do not matter. */
  ghost predicate Harmless(some: map<string, Tree>, all: map<string, Tree>, ids: seq<string>) {
    forall i: nat, p :: LastHolder(all, ids, p, i) && ids[i] !in some ==> LastLeftHas(some, ids, p, all[ids[i]][p])
  }

  /** Composing only some of the layers gives the overlay of all if and only if no layer left out is missed. */
  lemma {:induction false} PartialOverlayExactly(some: map<string, Tree>, all: map<string, Tree>, ids: seq<string>)
    requires forall id :: id in ids && id in some ==> id in all && some[id] == all[id]
    ensures Overlay(some, ids) == Overlay(all, ids) <==> Harmless(some, all, ids)
  {
    forall p { OverlayIsLastWins(all, ids, p); }
    forall p { OverlayIsLastWins(some, ids, p); }
    if Overlay(some, ids) == Overlay(all, ids) {
      forall i: nat, p | LastHolder(all, ids, p, i) && ids[i] !in some ensures LastLeftHas(some, ids, p, all[ids[i]][p]) {
        var k := LastHolderExists(some, ids, p);
      }
    }
    if Harmless(some, all, ids) {
      forall p | p in Overlay(all, ids)
        ensures p in Overlay(some, ids) && Overlay(some, ids)[p] == Overlay(all, ids)[p]
      {
        var i := LastHolderExists(all, ids, p);
        if ids[i] in some {
          assert LastHolder(some, ids, p, i);
        }
      }
      forall p | p in Overlay(some, ids) ensures p in Overlay(all, ids) {
        var i := LastHolderExists(some, ids, p);
        assert Holds(all, ids[i], p);
      }
    }
  }

  // ---- Directory names ----

  /** Layer ids are hexadecimal digests: not empty, and without a colon. */
  predicate CleanId(id: string) {
    id != "" && ':' !in id
  }

  predicate Clean(ids: seq<string>) {
    forall i :: 0 <= i < |ids| ==> CleanId(ids[i])
  }

  lemma NotShorter(a: string, b: string, x: string, y: string)
    requires ':' !in b && a + ":" + x == b + ":" + y
    ensures |a| >= |b|
  {
    assert (a + ":" + x)[|a|] == ':';
  }

  lemma CutAtColon(a: string, b: string, x: string, y: string)
    requires ':' !in a && ':' !in b && a + ":" + x == b + ":" + y
    ensures a == b && x == y
  {
    NotShorter(a, b, x, y);
    NotShorter(b, a, y, x);
    var s := a + ":" + x;
    assert s[..|a|] == a && s[..|b|] == b && s[|a| + 1..] == x && s[|b| + 1..] == y;
  }

  lemma ColonInside(a: string, x: string, b: string)
    requires ':' !in b
    ensures a + ":" + x != b
  {
    assert (a + ":" + x)[|a|] == ':';
  }

  lemma {:induction false} JoinIsInjective(a: seq<string>, b: seq<string>)
    requires Clean(a) && Clean(b) && Join(a) == Join(b)
    ensures a == b
  {
    if |a| >= 2 && |b| >= 2 {
      CutAtColon(a[0], b[0], Join(a[1..]), Join(b[1..]));
      JoinIsInjective(a[1..], b[1..]);
      assert a == [a[0]] + a[1..] && b == [b[0]] + b[1..];
    } else if |a| >= 2 {
      ColonInside(a[0], Join(a[1..]), if b == [] then "" else b[0]);
    } else if |b| >= 2 {
      ColonInside(b[0], Join(b[1..]), if a == [] then "" else a[0]);
    }
  }

  // ---- Runs ----

  datatype Event = Put(data: Bytes) | Build(ids: seq<string>) | Sweep(active: set<string>)

  /** The store with its history: for each composed directory, the list it was composed from and the layers that were there
      at that moment. */
  datatype System = System(now: State, made: map<string, (seq<string>, set<string>)>)

  const EMPTY := System(State(map[], map[]), map[])

  function Step(c: Config, h: System, e: Event): System {
    match e
    case Put(data) => h.(now := Store(c, h.now, data).0)
    case Build(ids) =>
      var dir := c.dirId(Join(ids));
      System(Compose(c, h.now, ids), if dir in h.now.composed then h.made else h.made[dir := (ids, h.now.layers.Keys)])
    case Sweep(active) => h.(now := Cleanup(h.now, active))
  }

  function Run(c: Config, h: System, es: seq<Event>): System
    decreases |es|
  {
    if es == [] then h else Run(c, Step(c, h, es[0]), es[1..])
  }

  predicate CleanRun(es: seq<Event>) {
    forall i :: 0 <= i < |es| && es[i].Build? ==> Clean(es[i].ids)
  }

  ghost predicate Injective(c: Config) {
    && (forall a, b :: c.layerId(a) == c.layerId(b) ==> a == b)
    && (forall a, b :: c.dirId(a) == c.dirId(b) ==> a == b)
  }

  /** The files a layer id stands for, stored or not: content addressing leaves no choice. They are the files that come out
      of the one archive with that id, all that do come out if unpacking it fails. */
  ghost function Content(c: Config, id: string): Tree {
    if exists data :: c.layerId(data) == id then
      var data :| c.layerId(data) == id;
      c.extract(data).files
    else map[]
  }

  ghost function ContentOf(c: Config, present: set<string>): map<string, Tree> {
    map id | id in present :: Content(c, id)
  }

  ghost predicate Inv(c: Config, h: System) {
    && (forall id :: id in h.now.layers ==> h.now.layers[id] == Content(c, id))
    && h.made.Keys == h.now.composed.Keys
    && (forall dir :: dir in h.made ==>
          && Clean(h.made[dir].0) && dir == c.dirId(Join(h.made[dir].0))
          && h.now.composed[dir] == Overlay(ContentOf(c, h.made[dir].1), h.made[dir].0))
  }

  lemma {:induction false} OverlayOfContent(c: Config, layers: map<string, Tree>, ids: seq<string>)
    requires forall id :: id in layers ==> layers[id] == Content(c, id)
    ensures Overlay(layers, ids) == Overlay(ContentOf(c, layers.Keys), ids)
  {
    assert layers == ContentOf(c, layers.Keys);
  }

  lemma StepInv(c: Config, h: System, e: Event)
    requires Injective(c) && Inv(c, h) && (e.Build? ==> Clean(e.ids))
    ensures Inv(c, Step(c, h, e))
  {
    match e
    case Put(data) =>
      assert Content(c, c.layerId(data)) == c.extract(data).files;
    case Build(ids) => OverlayOfContent(c, h.now.layers, ids);
    case Sweep(active) =>
  }

  lemma {:induction false} RunInv(c: Config, h: System, es: seq<Event>)
    requires Injective(c) && Inv(c, h) && CleanRun(es)
    ensures Inv(c, Run(c, h, es))
    decreases |es|
  {
    if es == [] {
    } else {
      StepInv(c, h, es[0]);
      assert CleanRun(es[1..]);
      RunInv(c, Step(c, h, es[0]), es[1..]);
    }
  }

  /** After any run of stores, compositions and clean-ups, composing `ids` gives the overlay of the contents their ids stand
      for, restricted to the layers that were there when the list was first composed. That is the plain overlay of all of
      them if and only if the layers absent then are not missed. */
  lemma {:induction false} CompositionIsOverlay(c: Config, es: seq<Event>, ids: seq<string>)
    requires Injective(c) && CleanRun(es) && Clean(ids)
    ensures var h := Run(c, EMPTY, es);
            var dir := c.dirId(Join(ids));
            var present := ContentOf(c, if dir in h.made then h.made[dir].1 else h.now.layers.Keys);
            var listed := ContentOf(c, set id | id in ids);
            && dir in Compose(c, h.now, ids).composed
            && Compose(c, h.now, ids).composed[dir] == Overlay(present, ids)
            && (Compose(c, h.now, ids).composed[dir] == Overlay(listed, ids) <==> Harmless(present, listed, ids))
  {
    RunInv(c, EMPTY, es);
    var h := Run(c, EMPTY, es);
    var dir := c.dirId(Join(ids));
    if dir in h.made {
      JoinIsInjective(h.made[dir].0, ids);
    } else {
      OverlayOfContent(c, h.now.layers, ids);
    }
    var present := ContentOf(c, if dir in h.made then h.made[dir].1 else h.now.layers.Keys);
    PartialOverlayExactly(present, ContentOf(c, set id | id in ids), ids);
  }

  /** Storing a layer leaves the others and all compositions as they are; a layer already stored stays as it is, a new one is
      what comes out of its archive. */
  lemma StoreLeavesOthers(c: Config, s: State, data: Bytes)
    ensures var t := Store(c, s, data).0;
            var id := c.layerId(data);
            && t.composed == s.composed && id in t.layers
            && t.layers[id] == (if id in s.layers then s.layers[id] else c.extract(data).files)
            && forall k :: k != id ==> (k in t.layers <==> k in s.layers) && (k in t.layers ==> t.layers[k] == s.layers[k])
  {
  }

  /** A clean-up keeps a layer exactly if it is active, as it is, and touches no composition. */
  lemma CleanupKeepsActive(s: State, active: set<string>)
    ensures var t := Cleanup(s, active);
            && t.composed == s.composed
            && forall k :: (k in t.layers <==> k in s.layers && k in active) && (k in t.layers ==> t.layers[k] == s.layers[k])
  {
  }

  /** Whether a layer is there, told by the events alone: it was put, and since then every clean-up found it active. */
  predicate StillThere(c: Config, es: seq<Event>, id: string) {
    es != [] &&
    match es[|es| - 1]
    case Put(data) => c.layerId(data) == id || StillThere(c, es[..|es| - 1], id)
    case Build(_) => StillThere(c, es[..|es| - 1], id)
    case Sweep(active) => id in active && StillThere(c, es[..|es| - 1], id)
  }

  lemma {:induction false} LayersOfRun(c: Config, es: seq<Event>, id: string)
    ensures id in Run(c, EMPTY, es).now.layers <==> StillThere(c, es, id)
  {
    if es == [] {
    } else {
      LayersOfRun(c, es[..|es| - 1], id);
      assert es == es[..|es| - 1] + [es[|es| - 1]];
      RunOneMore(c, EMPTY, es[..|es| - 1], es[|es| - 1]);
    }
  }

  lemma {:induction false} RunOneMore(c: Config, h: System, es: seq<Event>, e: Event)
    ensures Run(c, h, es + [e]) == Step(c, Run(c, h, es), e)
    decreases |es|
  {
    if es == [] {
      assert [] + [e] == [e] && [e][1..] == [];
      assert Run(c, h, [e]) == Run(c, Step(c, h, e), []);
    } else {
      assert (es + [e])[0] == es[0] && (es + [e])[1..] == es[1..] + [e];
      RunOneMore(c, Step(c, h, es[0]), es[1..], e);
    }
  }

  /** A composed directory never changes again, whatever becomes of its layers. */
  lemma {:induction false} MemoIsFinal(c: Config, h: System, es: seq<Event>, dir: string)
    requires dir in h.now.composed
    ensures dir in Run(c, h, es).now.composed && Run(c, h, es).now.composed[dir] == h.now.composed[dir]
    decreases |es|
  {
    if es == [] {
    } else {
      MemoIsFinal(c, Step(c, h, es[0]), es[1..], dir);
    }
  }

  /** A list composed before its layer is stored stays empty for ever, which is right only for an archive without files. */
  lemma ComposedTooEarly(c: Config, data: Bytes, es: seq<Event>)
    requires Injective(c)
    ensures var ids := [c.layerId(data)];
            var h := Run(c, Step(c, Step(c, EMPTY, Build(ids)), Put(data)), es);
            var dir := c.dirId(Join(ids));
            && dir in h.now.composed && h.now.composed[dir] == map[]
            && (h.now.composed[dir] == Overlay(ContentOf(c, {ids[0]}), ids) <==> c.extract(data).files == map[])
  {
    var ids := [c.layerId(data)];
    assert ids[..0] == [] && Overlay(map[], ids) == map[];
    MemoIsFinal(c, Step(c, Step(c, EMPTY, Build(ids)), Put(data)), es, c.dirId(Join(ids)));
    assert Content(c, ids[0]) == c.extract(data).files;
    assert Overlay(ContentOf(c, {ids[0]}), ids) == map[] + Content(c, ids[0]) == Content(c, ids[0]);
  }

  /** An archive that fails to unpack raises exactly once: its directory stays, and the next store of the same data takes it
      for the layer, with whatever files got out. */
  lemma FailedStoreIsTakenForDone(c: Config, s: State, data: Bytes)
    requires c.layerId(data) !in s.layers
    ensures var (t, ok) := Store(c, s, data);
            && (ok <==> c.extract(data).complete)
            && Store(c, t, data) == (t, true) && t.layers[c.layerId(data)] == c.extract(data).files
  {
  }
}
