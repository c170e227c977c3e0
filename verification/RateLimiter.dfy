/** The sliding-window rate limiter (server/auth/rate_limiter.py). */
module RateLimiter {

  /** Times of accepted requests per client key. */
  type Times = map<string, seq<real>>

  function At(m: Times, key: string): seq<real> {
    if key in m then m[key] else []
  }

  /** `[t for t in ts if t > cutoff]` */
  function After(ts: seq<real>, cutoff: real): (r: seq<real>)
    ensures |r| <= |ts|
  {
    if ts == [] then []
    else After(ts[..|ts| - 1], cutoff) + (if ts[|ts| - 1] > cutoff then [ts[|ts| - 1]] else [])
  }

  /** One call of `check`: who asks, when, and under which `RateLimit`. */
  datatype Request = Request(key: string, now: real, limit: int, window: int) {
    function Cutoff(): real { now - window as real }
  }

  // ---- What the limiter keeps ----

  predicate Stale(ts: seq<real>, cutoff: real) {
    ts == [] || forall i :: 0 <= i < |ts| ==> ts[i] <= cutoff
  }

  function Pruned(m: Times, cutoff: real): Times {
    if |m| > 1000 then map k | k in m && !Stale(m[k], cutoff) :: m[k] else m
  }

  function Checked(m: Times, r: Request): (Times, bool) {
    var m1 := Pruned(m[r.key := After(At(m, r.key), r.Cutoff())], r.Cutoff());
    var ts := At(m1, r.key);
    if |ts| >= r.limit then (m1[r.key := ts], false) else (m1[r.key := ts + [r.now]], true)
  }

  function Remaining(m: Times, r: Request): int {
    var left := r.limit - |After(At(m, r.key), r.Cutoff())|;
    if left > 0 then left else 0
  }

  class RateLimiter {
    var windows: Times

    constructor ()
      ensures windows == map[]
    {
      windows := map[];
    }

    method PruneKeys(cutoff: real)
      modifies this
      ensures windows == map k | k in old(windows) && !Stale(old(windows)[k], cutoff) :: old(windows)[k]
    {
      var keys := windows.Keys;
      while keys != {}
        invariant keys <= old(windows).Keys
        invariant windows == map k | k in old(windows) && (k in keys || !Stale(old(windows)[k], cutoff)) :: old(windows)[k]
        decreases keys
      {
        var k :| k in keys;
        if Stale(windows[k], cutoff) {
          windows := windows - {k};
        }
        keys := keys - {k};
      }
    }

    method Check(r: Request) returns (accepted: bool)
      modifies this
      ensures (windows, accepted) == Checked(old(windows), r)
    {
      var cutoff := r.Cutoff();
      windows := windows[r.key := After(At(windows, r.key), cutoff)];
      ghost var m1 := Pruned(windows, cutoff);
      if |windows| > 1000 {
        PruneKeys(cutoff);
      }
      assert windows == m1;
      ghost var m2 := m1[r.key := At(m1, r.key)];
      if r.key !in windows {
        windows := windows[r.key := []];
      }
      assert windows == m2;
      if |windows[r.key]| >= r.limit {
        return false;
      }
      windows := windows[r.key := windows[r.key] + [r.now]];
      assert windows == m1[r.key := At(m1, r.key) + [r.now]];
      return true;
    }

    method CountRemaining(r: Request) returns (left: int)
      ensures left == Remaining(windows, r)
    {
      var current := 0;
      var ts := At(windows, r.key);
      for i := 0 to |ts|
        invariant current == |After(ts[..i], r.Cutoff())|
      {
        assert ts[..i + 1][..i] == ts[..i];
        if ts[i] > r.Cutoff() {
          current := current + 1;
        }
      }
      assert ts[..|ts|] == ts;
      left := if r.limit - current > 0 then r.limit - current else 0;
    }
  }

  // ---- The full history, nothing forgotten ----

  /** The limiter with a record of everything it ever accepted. */
  datatype System = System(kept: Times, accepted: Times)

  const FRESH := System(map[], map[])

  function Step(s: System, r: Request): System {
    var (kept, ok) := Checked(s.kept, r);
    System(kept, if ok then s.accepted[r.key := At(s.accepted, r.key) + [r.now]] else s.accepted)
  }

  function Run(s: System, rs: seq<Request>): System
    decreases |rs|
  {
    if rs == [] then s else Run(Step(s, rs[0]), rs[1..])
  }

  /** The decision of a limiter that remembers everything. */
  predicate AcceptsByHistory(accepted: Times, r: Request) {
    |After(At(accepted, r.key), r.Cutoff())| < r.limit
  }

  function RemainingByHistory(accepted: Times, r: Request): int {
    var left := r.limit - |After(At(accepted, r.key), r.Cutoff())|;
    if left > 0 then left else 0
  }

  /** Beyond `cutoff` nothing has been forgotten. */
  ghost predicate Faithful(s: System, cutoff: real) {
    forall k, d {:trigger After(At(s.kept, k), d)} :: d >= cutoff ==> After(At(s.kept, k), d) == After(At(s.accepted, k), d)
  }

  lemma AfterPush(ts: seq<real>, t: real, d: real)
    ensures After(ts + [t], d) == After(ts, d) + (if t > d then [t] else [])
  {
    assert (ts + [t])[..|ts|] == ts;
  }

  lemma {:induction false} AfterAfter(ts: seq<real>, c: real, d: real)
    requires c <= d
    ensures After(After(ts, c), d) == After(ts, d)
  {
    if ts == [] {
    } else {
      var front, last := ts[..|ts| - 1], ts[|ts| - 1];
      AfterAfter(front, c, d);
      AfterPush(After(front, c), last, d);
      assert After(ts, c) == After(front, c) + (if last > c then [last] else []);
      assert After(front, c) + [] == After(front, c);
    }
  }

  lemma {:induction false} StaleIsEmpty(ts: seq<real>, c: real)
    ensures Stale(ts, c) <==> After(ts, c) == []
  {
    if ts == [] {
    } else {
      var front := ts[..|ts| - 1];
      StaleIsEmpty(front, c);
      if Stale(ts, c) {
        assert forall i :: 0 <= i < |front| ==> front[i] == ts[i];
      } else {
        var i :| 0 <= i < |ts| && ts[i] > c;
        assert i < |front| ==> front[i] == ts[i];
      }
    }
  }

  /** Cleaning one key and pruning the others loses nothing beyond the cutoff. */
  lemma CleaningIsFaithful(m: Times, r: Request, k: string, d: real)
    requires r.Cutoff() <= d
    ensures After(At(Pruned(m[r.key := After(At(m, r.key), r.Cutoff())], r.Cutoff()), k), d) == After(At(m, k), d)
  {
    var c := r.Cutoff();
    var m0 := m[r.key := After(At(m, r.key), c)];
    AfterAfter(At(m, k), c, d);
    if k in m0 && k !in Pruned(m0, c) {
      StaleIsEmpty(m0[k], c);
      AfterAfter(m0[k], c, d);
    }
  }

  /** The key's own list is already filtered when it is counted. */
  lemma KeyIsClean(m: Times, r: Request)
    ensures var c := r.Cutoff();
            At(Pruned(m[r.key := After(At(m, r.key), c)], c), r.key) == After(At(m, r.key), c)
  {
    var c := r.Cutoff();
    AfterAfter(At(m, r.key), c, c);
    StaleIsEmpty(After(At(m, r.key), c), c);
  }

  /** The time an accept adds under its key. */
  function Added(m: Times, r: Request, k: string): seq<real> {
    if k == r.key && Checked(m, r).1 then [r.now] else []
  }

  /** What a check leaves: the cleaned and pruned map, with the time of an accept added. */
  lemma CheckedKeeps(m: Times, r: Request, k: string)
    ensures At(Checked(m, r).0, k) == At(Pruned(m[r.key := After(At(m, r.key), r.Cutoff())], r.Cutoff()), k) + Added(m, r, k)
  {
  }

  lemma HistoryKeeps(s: System, r: Request, k: string)
    ensures At(Step(s, r).accepted, k) == At(s.accepted, k) + Added(s.kept, r, k)
  {
  }

  lemma AfterTail(xs: seq<real>, ys: seq<real>, tail: seq<real>, d: real)
    requires |tail| <= 1 && After(xs, d) == After(ys, d)
    ensures After(xs + tail, d) == After(ys + tail, d)
  {
    if tail == [] {
      assert xs + tail == xs && ys + tail == ys;
    } else {
      assert tail == [tail[0]];
      AfterPush(xs, tail[0], d);
      AfterPush(ys, tail[0], d);
    }
  }

  lemma StepIsFaithful(s: System, r: Request, last: real, k: string, d: real)
    requires Faithful(s, last) && last <= r.Cutoff() <= d
    ensures After(At(Step(s, r).kept, k), d) == After(At(Step(s, r).accepted, k), d)
  {
    CleaningIsFaithful(s.kept, r, k, d);
    CheckedKeeps(s.kept, r, k);
    HistoryKeeps(s, r, k);
    AfterTail(At(Pruned(s.kept[r.key := After(At(s.kept, r.key), r.Cutoff())], r.Cutoff()), k), At(s.accepted, k),
              Added(s.kept, r, k), d);
  }

  /** Up to a thousand keys are kept as they are; beyond that, exactly those with a request after the cutoff. */
  lemma PrunesBeyondThousand(m: Times, cutoff: real)
    ensures |m| <= 1000 ==> Pruned(m, cutoff) == m
    ensures forall k :: k in Pruned(m, cutoff) ==> k in m && Pruned(m, cutoff)[k] == m[k]
    ensures |m| > 1000 ==>
              forall k :: k in m ==> (k in Pruned(m, cutoff) <==> exists i :: 0 <= i < |m[k]| && m[k][i] > cutoff)
  {
  }

  /** After a check its key is in memory, with its requests in the window and, if it was accepted, the new one. */
  lemma CheckedList(m: Times, r: Request)
    ensures var (kept, ok) := Checked(m, r);
            && r.key in kept
            && kept[r.key] == After(At(m, r.key), r.Cutoff()) + (if ok then [r.now] else [])
            && (ok <==> |After(At(m, r.key), r.now - r.window as real)| < r.limit)
  {
    KeyIsClean(m, r);
  }

  /** With a cutoff that does not fall, one check decides as the full history would, and stays faithful. */
  lemma CheckByHistory(s: System, r: Request, last: real)
    requires Faithful(s, last) && last <= r.Cutoff()
    ensures Checked(s.kept, r).1 == AcceptsByHistory(s.accepted, r)
    ensures Remaining(s.kept, r) == RemainingByHistory(s.accepted, r)
    ensures Faithful(Step(s, r), r.Cutoff())
  {
    KeyIsClean(s.kept, r);
    assert After(At(s.kept, r.key), r.Cutoff()) == After(At(s.accepted, r.key), r.Cutoff());
    forall k, d | d >= r.Cutoff() ensures After(At(Step(s, r).kept, k), d) == After(At(Step(s, r).accepted, k), d) {
      StepIsFaithful(s, r, last, k, d);
    }
  }

  // ---- Whole runs ----

  ghost predicate ClockRises(rs: seq<Request>) {
    forall i, j :: 0 <= i < j < |rs| ==> rs[i].now <= rs[j].now
  }

  /** Every request of a run is decided, and its remaining count given, as the full history at that point would. */
  ghost predicate DecidedByHistory(s: System, rs: seq<Request>)
    decreases |rs|
  {
    rs == [] ||
    (&& Checked(s.kept, rs[0]).1 == AcceptsByHistory(s.accepted, rs[0])
     && Remaining(s.kept, rs[0]) == RemainingByHistory(s.accepted, rs[0])
     && DecidedByHistory(Step(s, rs[0]), rs[1..]))
  }

  lemma {:induction false} RunByHistory(s: System, rs: seq<Request>, last: real)
    requires Faithful(s, last)
    requires forall i :: 0 <= i < |rs| ==> last <= rs[i].Cutoff()
    requires forall i, j :: 0 <= i < j < |rs| ==> rs[i].Cutoff() <= rs[j].Cutoff()
    ensures DecidedByHistory(s, rs)
    decreases |rs|
  {
    if rs == [] {
    } else {
      CheckByHistory(s, rs[0], last);
      RunByHistory(Step(s, rs[0]), rs[1..], rs[0].Cutoff());
    }
  }

  /** With these windows in use, no run can tell the limiter from one that remembers everything. */
  ghost predicate AlwaysExact(windows: set<int>) {
    forall rs: seq<Request> :: ClockRises(rs) && Uses(rs, windows) ==> DecidedByHistory(FRESH, rs)
  }

  ghost predicate Uses(rs: seq<Request>, windows: set<int>) {
    forall i :: 0 <= i < |rs| ==> rs[i].window in windows
  }

  lemma OneWindowIsExact(rs: seq<Request>, w: int)
    requires ClockRises(rs) && Uses(rs, {w})
    ensures DecidedByHistory(FRESH, rs)
  {
    if rs != [] {
      assert forall i :: 0 <= i < |rs| ==> rs[i].window == w;
      RunByHistory(FRESH, rs, rs[0].Cutoff());
    }
  }

  /** The limiter is exact if and only if all limits share one window. */
  lemma ExactlyOneWindow(windows: set<int>)
    requires forall w :: w in windows ==> w >= 0
    ensures AlwaysExact(windows) <==> forall v, w :: v in windows && w in windows ==> v == w
  {
    if v, w :| v in windows && w in windows && v > w {
      var rs := Forgetful(v, w);
      ShortWindowForgets(v, w);
      assert ClockRises(rs) && Uses(rs, windows);
    } else {
      forall rs: seq<Request> | ClockRises(rs) && Uses(rs, windows) ensures DecidedByHistory(FRESH, rs) {
        if rs != [] {
          assert Uses(rs, {rs[0].window}) by { assert forall i :: 0 <= i < |rs| ==> rs[i].window == rs[0].window; }
          OneWindowIsExact(rs, rs[0].window);
        }
      }
    }
  }

  /** A request under a long window, one under a shorter window that throws the first away, one more under the long. */
  function Forgetful(v: int, w: int): seq<Request> {
    [Request("k", 0.0, 1, v), Request("k", w as real, 1, w), Request("k", w as real, 2, v)]
  }

  /** The first two requests leave one entry, although two were accepted. */
  lemma FirstTwo(v: int, w: int)
    requires v > w >= 0
    ensures var s2 := Step(Step(FRESH, Forgetful(v, w)[0]), Forgetful(v, w)[1]);
            s2 == System(map["k" := [w as real]], map["k" := [0.0, w as real]])
  {
    var r0, r1 := Forgetful(v, w)[0], Forgetful(v, w)[1];
    FewKeys("k", [], r0.Cutoff());
    FewKeys("k", [], r1.Cutoff());
    assert After([], r0.Cutoff()) == [] && FRESH.kept["k" := []] == map["k" := []];
    assert [] + [0.0] == [0.0] && map["k" := []]["k" := [0.0]] == map["k" := [0.0]];
    var s1 := Step(FRESH, r0);
    assert s1 == System(map["k" := [0.0]], map["k" := [0.0]]);
    AfterPush([], 0.0, r1.Cutoff());
    assert After([0.0], r1.Cutoff()) == [] && s1.kept["k" := []] == map["k" := []];
    assert [] + [w as real] == [w as real] && [0.0] + [w as real] == [0.0, w as real];
    assert map["k" := []]["k" := [w as real]] == map["k" := [w as real]];
    assert Checked(s1.kept, r1) == (map["k" := [w as real]], true);
    assert s1.accepted["k" := [0.0, w as real]] == map["k" := [0.0, w as real]];
  }

  lemma ShortWindowForgets(v: int, w: int)
    requires v > w >= 0
    ensures !DecidedByHistory(FRESH, Forgetful(v, w))
  {
    var rs := Forgetful(v, w);
    FirstTwo(v, w);
    var s1 := Step(FRESH, rs[0]);
    var s2, r2 := Step(s1, rs[1]), rs[2];
    AfterPush([0.0], w as real, r2.Cutoff());
    AfterPush([], w as real, r2.Cutoff());
    AfterPush([], 0.0, r2.Cutoff());
    assert [0.0] + [w as real] == [0.0, w as real] && [] + [w as real] == [w as real] && [] + [0.0] == [0.0];
    KeyIsClean(s2.kept, r2);
    assert Checked(s2.kept, r2).1 && !AcceptsByHistory(s2.accepted, r2);
    assert rs[1..][0] == rs[1] && rs[1..][1..][0] == r2;
    assert !DecidedByHistory(s2, rs[1..][1..]);
    assert !DecidedByHistory(s1, rs[1..]);
  }

  lemma FewKeys(k: string, ts: seq<real>, c: real)
    ensures Pruned(map[k := ts], c) == map[k := ts]
  {
    assert |map[k := ts]| == 1;
  }

  // ---- The bound ----

  /** How many accepted requests lie in (a, b]. */
  function Between(ts: seq<real>, a: real, b: real): nat {
    if ts == [] then 0
    else Between(ts[..|ts| - 1], a, b) + (if a < ts[|ts| - 1] <= b then 1 else 0)
  }

  /** Each accepted request had at most `n` accepted requests, itself included, in its trailing window. */
  ghost predicate Throttled(ts: seq<real>, window: real, n: nat) {
    && Rising(ts)
    && forall i :: 0 <= i < |ts| ==> ThrottledAt(ts, i, window, n)
  }

  ghost predicate Rising(ts: seq<real>) {
    forall i, j :: 0 <= i < j < |ts| ==> ts[i] <= ts[j]
  }

  predicate ThrottledAt(ts: seq<real>, i: nat, window: real, n: nat)
    requires i < |ts|
  {
    |After(ts[..i + 1], ts[i] - window)| <= n
  }

  lemma {:induction false} BetweenIsAfter(ts: seq<real>, a: real, b: real, c: real)
    requires c <= a
    ensures Between(ts, a, b) <= |After(ts, c)|
  {
    if ts == [] {
    } else {
      BetweenIsAfter(ts[..|ts| - 1], a, b, c);
    }
  }

  lemma {:induction false} WindowBound(ts: seq<real>, window: real, n: nat, a: real)
    requires Throttled(ts, window, n)
    ensures Between(ts, a, a + window) <= n
  {
    if ts == [] {
    } else {
      var front, last := ts[..|ts| - 1], ts[|ts| - 1];
      if last <= a + window {
        assert ts[..|ts|] == ts && ThrottledAt(ts, |ts| - 1, window, n);
        BetweenIsAfter(ts, a, a + window, last - window);
      } else {
        forall i | 0 <= i < |front| ensures ThrottledAt(front, i, window, n) {
          assert front[..i + 1] == ts[..i + 1] && ThrottledAt(ts, i, window, n);
        }
        WindowBound(front, window, n, a);
      }
    }
  }

  /** What every run under one window and limits up to `n` keeps. */
  ghost predicate Inv(s: System, window: int, n: nat, now: real) {
    && Faithful(s, now - window as real)
    && (forall k :: k in s.kept ==> |s.kept[k]| <= n)
    && (forall k :: k in s.accepted ==> Throttled(s.accepted[k], window as real, n) && Until(s.accepted[k], now))
  }

  ghost predicate Until(ts: seq<real>, now: real) {
    forall i :: 0 <= i < |ts| ==> ts[i] <= now
  }

  lemma AcceptThrottles(ts: seq<real>, t: real, window: real, n: nat, limit: int)
    requires Throttled(ts, window, n) && Until(ts, t)
    requires |After(ts, t - window)| < limit <= n
    ensures |After(ts + [t], t - window)| <= limit
    ensures Throttled(ts + [t], window, n)
  {
    AfterPush(ts, t, t - window);
    forall i | 0 <= i < |ts + [t]| ensures ThrottledAt(ts + [t], i, window, n) {
      if i < |ts| {
        EarlierStays(ts, t, i, window, n);
      } else {
        assert (ts + [t])[..i + 1] == ts + [t];
      }
    }
  }

  lemma EarlierStays(ts: seq<real>, t: real, i: nat, window: real, n: nat)
    requires i < |ts| && ThrottledAt(ts, i, window, n)
    ensures ThrottledAt(ts + [t], i, window, n)
  {
    assert (ts + [t])[..i + 1] == ts[..i + 1];
  }

  lemma AcceptExtends(s: System, r: Request, last: real)
    requires Faithful(s, last) && last <= r.Cutoff() && Checked(s.kept, r).1
    ensures |After(At(s.accepted, r.key), r.Cutoff())| < r.limit
    ensures At(Step(s, r).accepted, r.key) == At(s.accepted, r.key) + [r.now]
  {
    CheckByHistory(s, r, last);
  }

  lemma HistoryAt(s: System, window: int, n: nat, now: real, key: string)
    requires Inv(s, window, n, now)
    ensures Throttled(At(s.accepted, key), window as real, n) && Until(At(s.accepted, key), now)
    ensures |At(s.kept, key)| <= n
  {
  }

  lemma PushBound(ts: seq<real>, pushed: seq<real>, r: Request, n: nat)
    requires Throttled(ts, r.window as real, n) && Until(ts, r.now) && pushed == ts + [r.now]
    requires |After(ts, r.Cutoff())| < r.limit <= n
    ensures Throttled(pushed, r.window as real, n) && Until(pushed, r.now) && |After(pushed, r.Cutoff())| <= r.limit
  {
    AcceptThrottles(ts, r.now, r.window as real, n, r.limit);
  }

  /** An accept leaves at most the limit it was checked against in its trailing window. */
  lemma AcceptBound(s: System, r: Request, n: nat, now: real)
    requires Inv(s, r.window, n, now) && now <= r.now && r.limit <= n && Checked(s.kept, r).1
    ensures Throttled(At(Step(s, r).accepted, r.key), r.window as real, n) && Until(At(Step(s, r).accepted, r.key), r.now)
    ensures |After(At(Step(s, r).accepted, r.key), r.Cutoff())| <= r.limit
  {
    AcceptExtends(s, r, now - r.window as real);
    HistoryAt(s, r.window, n, now, r.key);
    PushBound(At(s.accepted, r.key), At(Step(s, r).accepted, r.key), r, n);
  }

  lemma KeptStaysShort(s: System, r: Request, n: nat)
    requires (forall k :: k in s.kept ==> |s.kept[k]| <= n) && r.limit <= n
    ensures forall k :: k in Step(s, r).kept ==> |Step(s, r).kept[k]| <= n
  {
    var c := r.Cutoff();
    var m1 := Pruned(s.kept[r.key := After(At(s.kept, r.key), c)], c);
    forall k | k in m1 ensures |m1[k]| <= n {
      if k != r.key { assert m1[k] == s.kept[k]; }
    }
  }

  lemma AcceptedStaysThrottled(s: System, r: Request, n: nat, now: real, k: string)
    requires Inv(s, r.window, n, now) && now <= r.now && r.limit <= n && k in Step(s, r).accepted
    ensures Throttled(Step(s, r).accepted[k], r.window as real, n) && Until(Step(s, r).accepted[k], r.now)
  {
    if k == r.key && Checked(s.kept, r).1 {
      AcceptBound(s, r, n, now);
    } else {
      assert Step(s, r).accepted[k] == s.accepted[k];
    }
  }

  lemma StepInv(s: System, r: Request, n: nat, now: real)
    requires Inv(s, r.window, n, now) && now <= r.now && r.limit <= n
    ensures Inv(Step(s, r), r.window, n, r.now)
  {
    CheckByHistory(s, r, now - r.window as real);
    KeptStaysShort(s, r, n);
    forall k | k in Step(s, r).accepted
      ensures Throttled(Step(s, r).accepted[k], r.window as real, n) && Until(Step(s, r).accepted[k], r.now)
    {
      AcceptedStaysThrottled(s, r, n, now, k);
    }
  }

  lemma {:induction false} RunInv(s: System, rs: seq<Request>, window: int, n: nat, now: real)
    requires Inv(s, window, n, now) && ClockRises(rs)
    requires forall i :: 0 <= i < |rs| ==> rs[i].window == window && rs[i].limit <= n && now <= rs[i].now
    ensures exists last :: Inv(Run(s, rs), window, n, last)
    decreases |rs|
  {
    if rs != [] {
      StepInv(s, rs[0], n, now);
      RunInv(Step(s, rs[0]), rs[1..], window, n, rs[0].now);
      var last :| Inv(Run(Step(s, rs[0]), rs[1..]), window, n, last);
      assert Inv(Run(s, rs), window, n, last);
    } else {
      assert Inv(Run(s, rs), window, n, now);
    }
  }

  lemma {:induction false} AfterKeeps(ts: seq<real>, c: real, i: nat)
    requires i <= |ts| && forall k :: i <= k < |ts| ==> ts[k] > c
    ensures |After(ts, c)| >= |ts| - i
  {
    if i == |ts| {
    } else {
      AfterKeeps(ts[..|ts| - 1], c, i);
    }
  }

  lemma CloseTogether(ts: seq<real>, window: real, n: nat, i: nat, j: nat)
    requires Throttled(ts, window, n) && i <= j < |ts|
    ensures ts[i] <= ts[j] && (ts[j] - ts[i] < window ==> j - i + 1 <= n)
  {
    assert i < j ==> ts[i] <= ts[j];
    if ts[j] - ts[i] < window {
      assert ThrottledAt(ts, j, window, n);
      var front := ts[..j + 1];
      forall k | i <= k < |front| ensures front[k] > ts[j] - window {
        assert i < k ==> ts[i] <= ts[k];
      }
      AfterKeeps(front, ts[j] - window, i);
    }
  }

  /** The list rises, and no more than `n` of it lie within less than a window. */
  ghost predicate FewCloseTogether(ts: seq<real>, window: real, n: nat) {
    forall i, j :: 0 <= i <= j < |ts| ==> ts[i] <= ts[j] && (ts[j] - ts[i] < window ==> j - i + 1 <= n)
  }

  lemma AllCloseTogether(ts: seq<real>, window: real, n: nat)
    requires Throttled(ts, window, n)
    ensures FewCloseTogether(ts, window, n)
  {
    forall i, j | 0 <= i <= j < |ts| ensures ts[i] <= ts[j] && (ts[j] - ts[i] < window ==> j - i + 1 <= n) {
      CloseTogether(ts, window, n, i, j);
    }
  }

  lemma FreshInv(window: int, n: nat, now: real)
    ensures Inv(FRESH, window, n, now)
  {
  }

  /** Under one window W and limits up to n, no interval (a, a+W] ever holds more than n accepted requests of one client,
      and no list kept in memory grows beyond n. In terms of the accepted times themselves, which rise: any two of them less than
      W apart have at most n - 2 between them. */
  lemma NeverMoreThanLimit(rs: seq<Request>, window: int, n: nat, key: string, a: real)
    requires ClockRises(rs) && forall i :: 0 <= i < |rs| ==> rs[i].window == window && rs[i].limit <= n
    ensures Between(At(Run(FRESH, rs).accepted, key), a, a + window as real) <= n
    ensures |At(Run(FRESH, rs).kept, key)| <= n
    ensures var ts := At(Run(FRESH, rs).accepted, key);
            FewCloseTogether(ts, window as real, n)
  {
    var now := if rs == [] then 0.0 else rs[0].now;
    FreshInv(window, n, now);
    RunInv(FRESH, rs, window, n, now);
    var s := Run(FRESH, rs);
    var last :| Inv(s, window, n, last);
    HistoryAt(s, window, n, last, key);
    WindowBound(At(s.accepted, key), window as real, n, a);
    AllCloseTogether(At(s.accepted, key), window as real, n);
  }

  /** The interval of the bound, counted by positions. */
  lemma {:induction false} BetweenCounts(ts: seq<real>, a: real, b: real)
    ensures Between(ts, a, b) == |set i | 0 <= i < |ts| && a < ts[i] <= b|
  {
    if ts == [] {
    } else {
      var front := ts[..|ts| - 1];
      BetweenCounts(front, a, b);
      var before := set i | 0 <= i < |front| && a < front[i] <= b;
      var all := set i | 0 <= i < |ts| && a < ts[i] <= b;
      assert all == before + (if a < ts[|front|] <= b then {|front|} else {});
    }
  }
}
