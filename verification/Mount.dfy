/** Mounting composed packages into the import path (virtualization/mount.py). */
module Mount {

  datatype Mounted = Mounted(name: string, dir: string)

  /** `mounts` is a dict in order of insertion, `path` is sys.path, `modules` the keys of sys.modules. */
  datatype State = State(mounts: seq<Mounted>, path: seq<string>, modules: set<string>)

  predicate IsMounted(mounts: seq<Mounted>, name: string) {
    exists i :: 0 <= i < |mounts| && mounts[i].name == name
  }

  function DirOf(mounts: seq<Mounted>, name: string): (dir: string)
    requires IsMounted(mounts, name)
    ensures Mounted(name, dir) in mounts
  {
    if mounts[0].name == name then mounts[0].dir
    else
      assert IsMounted(mounts[1..], name) by {
        var i :| 0 <= i < |mounts| && mounts[i].name == name;
        assert mounts[1..][i - 1].name == name;
      }
      DirOf(mounts[1..], name)
  }

  function Without(mounts: seq<Mounted>, name: string): seq<Mounted> {
    if mounts == [] then []
    else if mounts[0].name == name then mounts[1..]
    else [mounts[0]] + Without(mounts[1..], name)
  }

  /** `list.remove`: the first occurrence goes. */
  function RemoveFirst(path: seq<string>, dir: string): seq<string> {
    if path == [] then []
    else if path[0] == dir then path[1..]
    else [path[0]] + RemoveFirst(path[1..], dir)
  }

  predicate Belongs(m: string, package: string) {
    m == package || package + "." <= m
  }

  /** `mount`, once the layers are composed to `dir`. */
  function DoMount(s: State, name: string, dir: string): State {
    if IsMounted(s.mounts, name) then s
    else State(s.mounts + [Mounted(name, dir)], if dir in s.path then s.path else [dir] + s.path, s.modules)
  }

  function DoUnmount(s: State, name: string): State {
    var modules := set m | m in s.modules && !Belongs(m, name);
    if IsMounted(s.mounts, name) then
      State(Without(s.mounts, name), RemoveFirst(s.path, DirOf(s.mounts, name)), modules)
    else s.(modules := modules)
  }

  function DoUnmountAll(s: State, names: seq<string>): State
    decreases |names|
  {
    if names == [] then s else DoUnmountAll(DoUnmount(s, names[0]), names[1..])
  }

  function Names(mounts: seq<Mounted>): seq<string> {
    seq(|mounts|, i requires 0 <= i < |mounts| => mounts[i].name)
  }

  class VirtualMount {
    var mounts: seq<Mounted>
    var path: seq<string>
    var modules: set<string>

    constructor (path: seq<string>, modules: set<string>)
      ensures View() == State([], path, modules)
    {
      mounts := [];
      this.path := path;
      this.modules := modules;
    }

    ghost function View(): State
      reads this
    {
      State(mounts, path, modules)
    }

    method MountPackage(name: string, composed: string) returns (dir: string)
      modifies this
      ensures View() == DoMount(old(View()), name, composed)
      ensures dir == if IsMounted(old(mounts), name) then DirOf(old(mounts), name) else composed
    {
      if IsMounted(mounts, name) {
        return DirOf(mounts, name);
      }
      if composed !in path {
        path := [composed] + path;
      }
      mounts := mounts + [Mounted(name, composed)];
      return composed;
    }

    method Unmount(name: string)
      modifies this
      ensures View() == DoUnmount(old(View()), name)
    {
      if IsMounted(mounts, name) {
        var dir := DirOf(mounts, name);
        mounts := Without(mounts, name);
        if dir in path {
          path := RemoveFirst(path, dir);
        } else {
          NothingToRemove(path, dir);
        }
      }
      modules := set m | m in modules && !Belongs(m, name);
    }

    method UnmountAll()
      modifies this
      ensures View() == DoUnmountAll(old(View()), Names(old(mounts)))
    {
      var names := Names(mounts);
      for i := 0 to |names|
        invariant DoUnmountAll(View(), names[i..]) == DoUnmountAll(old(View()), names)
      {
        assert names[i..][1..] == names[i + 1..];
        Unmount(names[i]);
      }
    }
  }

  lemma {:induction false} NothingToRemove(path: seq<string>, dir: string)
    requires dir !in path
    ensures RemoveFirst(path, dir) == path
  {
    if path == [] {
    } else {
      NothingToRemove(path[1..], dir);
    }
  }

  /** Unmounting takes out of `sys.modules` the package and what is below it, dot by dot, mounted or not, and nothing else. */
  lemma UnmountTakesModules(s: State, name: string, m: string)
    ensures m in DoUnmount(s, name).modules <==>
              m in s.modules && m != name && !exists rest: string :: m == name + "." + rest
  {
    if name + "." <= m {
      assert m == name + "." + m[|name| + 1..];
    }
    if rest: string :| m == name + "." + rest {
      assert name + "." <= m;
    }
  }

  /** A longer name is no submodule: "numpy_x" stays when "numpy" goes, and "numpy.linalg" does not. */
  lemma OnlyDotsCount(s: State, name: string, c: char, rest: string)
    requires name + [c] + rest in s.modules
    ensures name + [c] + rest in DoUnmount(s, name).modules <==> c != '.'
  {
    var m := name + [c] + rest;
    assert m[|name|] == c && |m| > |name|;
    assert name + "." <= m <==> m[..|name| + 1] == name + ".";
    assert m[..|name| + 1] == name + [c] && (name + ".")[|name|] == '.';
  }

  /** Of a directory that is on the path more than once, the first occurrence goes. */
  lemma {:induction false} FirstGoes(before: seq<string>, from: seq<string>)
    requires from != [] && from[0] !in before
    ensures RemoveFirst(before + from, from[0]) == before + from[1..]
  {
    if before == [] {
      assert before + from == from && before + from[1..] == from[1..];
    } else {
      var path, later := before + from, before[1..];
      FirstGoes(later, from);
      assert path[0] == before[0] != from[0] && path[1..] == later + from;
      RemoveSkips(path, from[0]);
      assert before == [before[0]] + later;
      assert [before[0]] + (later + from[1..]) == before + from[1..];
    }
  }

  lemma RemoveSkips(path: seq<string>, dir: string)
    requires path != [] && path[0] != dir
    ensures RemoveFirst(path, dir) == [path[0]] + RemoveFirst(path[1..], dir)
  {
  }

  // ---- The import path over whole runs ----

  /** The directories of the live mounts, newest first. */
  function NewestFirst(mounts: seq<Mounted>): seq<string> {
    if mounts == [] then [] else NewestFirst(mounts[1..]) + [mounts[0].dir]
  }

  ghost predicate DistinctNames(mounts: seq<Mounted>) {
    forall i, j :: 0 <= i < j < |mounts| ==> mounts[i].name != mounts[j].name
  }

  ghost predicate DistinctDirs(mounts: seq<Mounted>) {
    forall i, j :: 0 <= i < j < |mounts| ==> mounts[i].dir != mounts[j].dir
  }

  ghost predicate Inv(s: State, original: seq<string>) {
    && DistinctNames(s.mounts) && DistinctDirs(s.mounts)
    && (forall i :: 0 <= i < |s.mounts| ==> s.mounts[i].dir !in original)
    && s.path == NewestFirst(s.mounts) + original
  }

  lemma {:induction false} NewestFirstAppend(a: seq<Mounted>, b: seq<Mounted>)
    ensures NewestFirst(a + b) == NewestFirst(b) + NewestFirst(a)
  {
    if a == [] {
      assert a + b == b;
    } else {
      assert (a + b)[1..] == a[1..] + b;
      NewestFirstAppend(a[1..], b);
    }
  }

  lemma {:induction false} NewestFirstMembers(mounts: seq<Mounted>, d: string)
    ensures d in NewestFirst(mounts) <==> exists i :: 0 <= i < |mounts| && mounts[i].dir == d
  {
    if mounts == [] {
    } else {
      NewestFirstMembers(mounts[1..], d);
      if i :| 0 <= i < |mounts[1..]| && mounts[1..][i].dir == d { assert mounts[i + 1].dir == d; }
      if i :| 0 <= i < |mounts| && mounts[i].dir == d { assert i > 0 ==> mounts[1..][i - 1].dir == d; }
    }
  }

  lemma {:induction false} RemoveFirstSplit(a: seq<string>, d: string, b: seq<string>)
    requires d !in a
    ensures RemoveFirst(a + [d] + b, d) == a + b
  {
    if a == [] {
      assert a + [d] + b == [d] + b && a + b == b;
    } else {
      assert (a + [d] + b)[1..] == a[1..] + [d] + b;
      RemoveFirstSplit(a[1..], d, b);
      assert [a[0]] + (a[1..] + b) == a + b;
    }
  }

  lemma {:induction false} WithoutSplit(a: seq<Mounted>, m: Mounted, b: seq<Mounted>)
    requires DistinctNames(a + [m] + b)
    ensures Without(a + [m] + b, m.name) == a + b
    ensures IsMounted(a + [m] + b, m.name) && DirOf(a + [m] + b, m.name) == m.dir
  {
    var all := a + [m] + b;
    assert all[|a|] == m;
    if a == [] {
      assert all == [m] + b && a + b == b;
    } else {
      assert all[1..] == a[1..] + [m] + b;
      assert all[0].name != m.name by { assert all[|a|].name == m.name; }
      WithoutSplit(a[1..], m, b);
      assert [a[0]] + (a[1..] + b) == a + b;
    }
  }

  /** Mounting a package whose directory is not on the path yet puts it in front; a package already mounted stays put. */
  lemma MountInv(s: State, original: seq<string>, name: string, dir: string)
    requires Inv(s, original) && (IsMounted(s.mounts, name) || dir !in s.path)
    ensures Inv(DoMount(s, name, dir), original)
  {
    if !IsMounted(s.mounts, name) {
      NewestFirstAppend(s.mounts, [Mounted(name, dir)]);
      NewestFirstMembers(s.mounts, dir);
      assert NewestFirst([Mounted(name, dir)]) == [dir];
      assert [dir] + NewestFirst(s.mounts) + original == [dir] + s.path;
    }
  }

  lemma NewestFirstSplit(a: seq<Mounted>, m: Mounted, b: seq<Mounted>)
    ensures NewestFirst(a + [m] + b) == NewestFirst(b) + [m.dir] + NewestFirst(a)
    ensures NewestFirst(a + b) == NewestFirst(b) + NewestFirst(a)
  {
    NewestFirstAppend(a + [m], b);
    NewestFirstAppend(a, [m]);
    NewestFirstAppend(a, b);
    assert NewestFirst([m]) == [m.dir];
  }

  lemma Regroup(a: seq<string>, d: string, b: seq<string>, c: seq<string>)
    ensures a + [d] + b + c == a + [d] + (b + c)
    ensures a + b + c == a + (b + c)
  {
  }

  lemma UnmountedPath(a: seq<Mounted>, m: Mounted, b: seq<Mounted>, original: seq<string>)
    requires DistinctDirs(a + [m] + b)
    ensures RemoveFirst(NewestFirst(a + [m] + b) + original, m.dir) == NewestFirst(a + b) + original
  {
    var all := a + [m] + b;
    NewestFirstSplit(a, m, b);
    NewestFirstMembers(b, m.dir);
    forall i | 0 <= i < |b| ensures b[i].dir != m.dir {
      assert all[|a|] == m && all[|a| + 1 + i] == b[i];
    }
    Regroup(NewestFirst(b), m.dir, NewestFirst(a), original);
    RemoveFirstSplit(NewestFirst(b), m.dir, NewestFirst(a) + original);
  }

  lemma OthersStay(a: seq<Mounted>, m: Mounted, b: seq<Mounted>, original: seq<string>)
    requires DistinctNames(a + [m] + b) && DistinctDirs(a + [m] + b)
    requires forall i :: 0 <= i < |a + [m] + b| ==> (a + [m] + b)[i].dir !in original
    ensures DistinctNames(a + b) && DistinctDirs(a + b) && !IsMounted(a + b, m.name)
    ensures forall i :: 0 <= i < |a + b| ==> (a + b)[i].dir !in original
  {
    var all, rest := a + [m] + b, a + b;
    assert all[|a|] == m;
    assert forall i :: 0 <= i < |rest| ==> rest[i] == all[if i < |a| then i else i + 1];
  }

  lemma UnmountAt(s: State, original: seq<string>, a: seq<Mounted>, m: Mounted, b: seq<Mounted>)
    requires Inv(s, original) && s.mounts == a + [m] + b
    ensures Inv(DoUnmount(s, m.name), original)
    ensures !IsMounted(DoUnmount(s, m.name).mounts, m.name)
  {
    WithoutSplit(a, m, b);
    UnmountedPath(a, m, b, original);
    OthersStay(a, m, b, original);
  }

  lemma UnmountInv(s: State, original: seq<string>, name: string)
    requires Inv(s, original)
    ensures Inv(DoUnmount(s, name), original)
    ensures !IsMounted(DoUnmount(s, name).mounts, name)
  {
    if IsMounted(s.mounts, name) {
      var k :| 0 <= k < |s.mounts| && s.mounts[k].name == name;
      assert s.mounts == s.mounts[..k] + [s.mounts[k]] + s.mounts[k + 1..];
      UnmountAt(s, original, s.mounts[..k], s.mounts[k], s.mounts[k + 1..]);
    }
  }

  datatype Event = Add(name: string, dir: string) | Drop(name: string)

  function Step(s: State, e: Event): State {
    match e case Add(name, dir) => DoMount(s, name, dir) case Drop(name) => DoUnmount(s, name)
  }

  function Run(s: State, es: seq<Event>): State
    decreases |es|
  {
    if es == [] then s else Run(Step(s, es[0]), es[1..])
  }

  /** A package that is newly mounted has a directory of its own. */
  ghost predicate OwnDirs(s: State, es: seq<Event>)
    decreases |es|
  {
    es == [] ||
    ((es[0].Add? && !IsMounted(s.mounts, es[0].name) ==> es[0].dir !in s.path) && OwnDirs(Step(s, es[0]), es[1..]))
  }

  lemma {:induction false} RunInv(s: State, original: seq<string>, es: seq<Event>)
    requires Inv(s, original) && OwnDirs(s, es)
    ensures Inv(Run(s, es), original)
    decreases |es|
  {
    if es == [] {
    } else {
      match es[0] {
        case Add(name, dir) => MountInv(s, original, name, dir);
        case Drop(name) => UnmountInv(s, original, name);
      }
      RunInv(Step(s, es[0]), original, es[1..]);
    }
  }

  /** After every run of mounts and unmounts the import path is the live mounts, newest first, and then the original path. */
  lemma PathIsMountsThenOriginal(original: seq<string>, modules: set<string>, es: seq<Event>)
    requires OwnDirs(State([], original, modules), es)
    ensures var s := Run(State([], original, modules), es); s.path == NewestFirst(s.mounts) + original
  {
    assert [] + original == original;
    RunInv(State([], original, modules), original, es);
  }

  lemma {:induction false} UnmountNames(s: State, original: seq<string>)
    requires Inv(s, original)
    ensures DoUnmountAll(s, Names(s.mounts)).mounts == [] && DoUnmountAll(s, Names(s.mounts)).path == original
    decreases |s.mounts|
  {
    if s.mounts == [] {
      assert [] + original == original;
    } else {
      var m, rest := s.mounts[0], s.mounts[1..];
      UnmountInv(s, original, m.name);
      var t := DoUnmount(s, m.name);
      assert t.mounts == rest && Names(s.mounts)[1..] == Names(rest);
      UnmountNames(t, original);
    }
  }

  /** `unmount_all` gives the original path back. */
  lemma UnmountAllRestores(original: seq<string>, modules: set<string>, es: seq<Event>)
    requires OwnDirs(State([], original, modules), es)
    ensures var s := Run(State([], original, modules), es);
            DoUnmountAll(s, Names(s.mounts)).path == original && DoUnmountAll(s, Names(s.mounts)).mounts == []
  {
    assert [] + original == original;
    RunInv(State([], original, modules), original, es);
    UnmountNames(Run(State([], original, modules), es), original);
  }

  lemma {:induction false} RemovalShortens(path: seq<string>, d: string)
    requires d in path
    ensures |RemoveFirst(path, d)| == |path| - 1
  {
    if path[0] != d {
      RemovalShortens(path[1..], d);
    }
  }

  /** Unmounting undoes mounting if and only if the directory was not on the path before: a directory shared with another
      package, or there from the start, is removed although this mount did not add it. */
  lemma UndoExactly(s: State, name: string, dir: string)
    requires DistinctNames(s.mounts) && !IsMounted(s.mounts, name)
    ensures var t := DoUnmount(DoMount(s, name, dir), name);
            t.mounts == s.mounts && (t.path == s.path <==> dir !in s.path)
  {
    var m := Mounted(name, dir);
    assert s.mounts + [m] + [] == s.mounts + [m] && s.mounts + [] == s.mounts;
    WithoutSplit(s.mounts, m, []);
    if dir in s.path {
      RemovalShortens(s.path, dir);
    } else {
      assert [] + [dir] + s.path == [dir] + s.path && [] + s.path == s.path;
      RemoveFirstSplit([], dir, s.path);
    }
  }
}
