/** The build queue and its worker (builder/queue.py, builder/worker.py). */
module BuildQueue {

  /** A queued tuple: the priority and time of the push, and what was pushed. */
  datatype Entry<R> = Entry(priority: int, time: real, item: R)

  predicate KeyLe<R, S>(a: Entry<R>, b: Entry<S>) {
    a.priority < b.priority || (a.priority == b.priority && a.time <= b.time)
  }

  // ---- list.sort(key=(priority, timestamp)) ----

  /** `e` goes behind everything whose key is not greater. */
  function Insert<R>(q: seq<Entry<R>>, e: Entry<R>): (r: seq<Entry<R>>)
    ensures |r| == |q| + 1
  {
    if q == [] || KeyLe(q[|q| - 1], e) then q + [e]
    else Insert(q[..|q| - 1], e) + [q[|q| - 1]]
  }

  function StableSort<R>(q: seq<Entry<R>>): (r: seq<Entry<R>>)
    ensures |r| == |q|
  {
    if q == [] then [] else Insert(StableSort(q[..|q| - 1]), q[|q| - 1])
  }

  ghost predicate Sorted<R>(q: seq<Entry<R>>) {
    forall i, j :: 0 <= i < j < |q| ==> KeyLe(q[i], q[j])
  }

  /** The entries with one key, in order. */
  function Class<R>(q: seq<Entry<R>>, p: int, t: real): seq<Entry<R>> {
    if q == [] then []
    else Class(q[..|q| - 1], p, t) + (if q[|q| - 1].priority == p && q[|q| - 1].time == t then [q[|q| - 1]] else [])
  }

  lemma {:induction false} InsertSorts<R>(q: seq<Entry<R>>, e: Entry<R>)
    requires Sorted(q)
    ensures Sorted(Insert(q, e))
    ensures forall i :: 0 <= i < |q| + 1 ==> Insert(q, e)[i] == e || Insert(q, e)[i] in q
  {
    if q != [] && !KeyLe(q[|q| - 1], e) {
      var front, last := q[..|q| - 1], q[|q| - 1];
      InsertSorts(front, e);
      var r := Insert(front, e);
      forall i | 0 <= i < |r| ensures KeyLe(r[i], last) {
        if r[i] != e {
          var j :| 0 <= j < |front| && front[j] == r[i];
          assert q[j] == front[j];
        }
      }
    }
  }

  lemma {:induction false} InsertKeepsClasses<R>(q: seq<Entry<R>>, e: Entry<R>, p: int, t: real)
    ensures Class(Insert(q, e), p, t) == Class(q + [e], p, t)
  {
    assert (q + [e])[..|q|] == q;
    if q != [] && !KeyLe(q[|q| - 1], e) {
      var front, last := q[..|q| - 1], q[|q| - 1];
      InsertKeepsClasses(front, e, p, t);
      var r := Insert(front, e);
      assert (r + [last])[..|r|] == r;
      assert (front + [e])[..|front|] == front;
    }
  }

  /** The sort orders by key and keeps equal keys in their old order. */
  lemma {:induction false} SortIsStable<R>(q: seq<Entry<R>>, p: int, t: real)
    ensures Sorted(StableSort(q)) && Class(StableSort(q), p, t) == Class(q, p, t)
  {
    if q == [] {
    } else {
      var front, last := q[..|q| - 1], q[|q| - 1];
      SortIsStable(front, p, t);
      var r := StableSort(front);
      InsertSorts(r, last);
      InsertKeepsClasses(r, last, p, t);
      assert (r + [last])[..|r|] == r;
    }
  }

  lemma {:induction false} ClassAt<R>(q: seq<Entry<R>>, i: nat)
    requires i < |q|
    ensures q[i] in Class(q, q[i].priority, q[i].time)
  {
    if i < |q| - 1 {
      ClassAt(q[..|q| - 1], i);
    }
  }

  lemma {:induction false} ClassMembers<R>(q: seq<Entry<R>>, p: int, t: real)
    ensures forall e :: e in Class(q, p, t) ==> e in q && e.priority == p && e.time == t
  {
    if q == [] {
    } else {
      ClassMembers(q[..|q| - 1], p, t);
    }
  }

  ghost predicate SameClasses<R(!new)>(a: seq<Entry<R>>, b: seq<Entry<R>>) {
    forall p, t :: Class(a, p, t) == Class(b, p, t)
  }

  lemma LastAgree<R(!new)>(a: seq<Entry<R>>, b: seq<Entry<R>>)
    requires Sorted(a) && Sorted(b) && SameClasses(a, b) && a != [] && b != []
    ensures a[|a| - 1] == b[|b| - 1]
  {
    var x, y := a[|a| - 1], b[|b| - 1];
    ClassMembers(b, x.priority, x.time);
    ClassMembers(a, y.priority, y.time);
    var cx := Class(a, x.priority, x.time);
    assert cx[|cx| - 1] == x && cx == Class(b, x.priority, x.time);
    var cy := Class(b, y.priority, y.time);
    assert cy[|cy| - 1] == y && cy == Class(a, y.priority, y.time);
    assert x in b && y in a;
    assert KeyLe(x, y) && KeyLe(y, x);
  }

  /** Order by key and stability leave no choice: there is only one stable sort. */
  lemma {:induction false} StableSortUnique<R(!new)>(a: seq<Entry<R>>, b: seq<Entry<R>>)
    requires Sorted(a) && Sorted(b) && SameClasses(a, b)
    ensures a == b
    decreases |a|
  {
    if a == [] || b == [] {
      if a != [] { ClassAt(a, 0); }
      if b != [] { ClassAt(b, 0); }
    } else {
      LastAgree(a, b);
      var a', b' := a[..|a| - 1], b[..|b| - 1];
      forall p, t ensures Class(a', p, t) == Class(b', p, t) {
        var ca, cb := Class(a, p, t), Class(b, p, t);
        assert ca == cb;
        if a[|a| - 1].priority == p && a[|a| - 1].time == t {
          assert Class(a', p, t) == ca[..|ca| - 1] && Class(b', p, t) == cb[..|cb| - 1];
        } else {
          assert ca == Class(a', p, t) && cb == Class(b', p, t);
        }
      }
      StableSortUnique(a', b');
    }
  }

  lemma {:induction false} SortedIsFixed<R>(q: seq<Entry<R>>)
    requires Sorted(q)
    ensures StableSort(q) == q
  {
    if q == [] {
    } else {
      SortedIsFixed(q[..|q| - 1]);
    }
  }

  // ---- The queue as a value ----

  type Job = Entry<string>

  /** `clock` is the time of the last push. */
  datatype State = State(queue: seq<Job>, processing: map<string, int>, clock: real)

  function Push(s: State, id: string, priority: int, now: real): State {
    s.(queue := StableSort(s.queue + [Entry(priority, now, id)]), clock := now)
  }

  function Pop(s: State): State {
    if s.queue == [] then s
    else State(s.queue[1..], s.processing[s.queue[0].item := s.queue[0].priority], s.clock)
  }

  function Complete(s: State, id: string): State {
    s.(processing := s.processing - {id})
  }

  function Demoted(priority: int): int {
    if priority + 1 <= 10 then priority + 1 else 10
  }

  function Fail(s: State, id: string, now: real): State {
    if id !in s.processing then s
    else Push(s.(processing := s.processing - {id}), id, Demoted(s.processing[id]), now)
  }

  // ---- The queue as an object ----

  class BuildRequest {
    const requestId: string
    var priority: int

    constructor (requestId: string, priority: int)
      ensures this.requestId == requestId && this.priority == priority
    {
      this.requestId := requestId;
      this.priority := priority;
    }
  }

  function JobOf(e: Entry<BuildRequest>): Job {
    Entry(e.priority, e.time, e.item.requestId)
  }

  function Jobs(q: seq<Entry<BuildRequest>>): seq<Job> {
    seq(|q|, i requires 0 <= i < |q| => JobOf(q[i]))
  }

  lemma {:induction false} JobsInsert(q: seq<Entry<BuildRequest>>, e: Entry<BuildRequest>)
    ensures Jobs(Insert(q, e)) == Insert(Jobs(q), JobOf(e))
  {
    if q != [] && !KeyLe(q[|q| - 1], e) {
      JobsInsert(q[..|q| - 1], e);
      assert Jobs(q)[..|q| - 1] == Jobs(q[..|q| - 1]);
    }
  }

  lemma {:induction false} JobsSort(q: seq<Entry<BuildRequest>>)
    ensures Jobs(StableSort(q)) == StableSort(Jobs(q))
  {
    if q == [] {
    } else {
      JobsSort(q[..|q| - 1]);
      JobsInsert(StableSort(q[..|q| - 1]), q[|q| - 1]);
      assert Jobs(q)[..|q| - 1] == Jobs(q[..|q| - 1]);
    }
  }

  lemma {:induction false} InsertMembers<R>(q: seq<Entry<R>>, e: Entry<R>)
    ensures multiset(Insert(q, e)) == multiset(q) + multiset{e}
  {
    if q != [] && !KeyLe(q[|q| - 1], e) {
      InsertMembers(q[..|q| - 1], e);
      assert q == q[..|q| - 1] + [q[|q| - 1]];
    }
  }

  lemma {:induction false} SortMembers<R>(q: seq<Entry<R>>)
    ensures multiset(StableSort(q)) == multiset(q)
  {
    if q == [] {
    } else {
      SortMembers(q[..|q| - 1]);
      InsertMembers(StableSort(q[..|q| - 1]), q[|q| - 1]);
      assert q == q[..|q| - 1] + [q[|q| - 1]];
    }
  }

  class BuildQueue {
    var queue: seq<Entry<BuildRequest>>
    var processing: map<string, BuildRequest>
    ghost var clock: real

    constructor ()
      ensures Valid() && View() == State([], map[], 0.0)
    {
      queue := [];
      processing := map[];
      clock := 0.0;
    }

    /** A tuple shows its request's priority, and no queued request is being processed. */
    ghost predicate Valid()
      reads this, set i | 0 <= i < |queue| :: queue[i].item
    {
      && (forall i :: 0 <= i < |queue| ==> queue[i].priority == queue[i].item.priority)
      && (forall i :: 0 <= i < |queue| ==> queue[i].item.requestId !in processing)
      && (forall id :: id in processing ==> processing[id].requestId == id)
    }

    ghost function View(): State
      reads this, processing.Values
    {
      State(Jobs(queue), map id | id in processing :: processing[id].priority, clock)
    }

    /** Every request object the queue refers to. */
    ghost function Requests(): set<BuildRequest>
      reads this
    {
      processing.Values + (set i | 0 <= i < |queue| :: queue[i].item)
    }

    method PushRequest(request: BuildRequest, now: real)
      requires Valid() && request.requestId !in processing
      modifies this
      ensures Valid() && processing == old(processing) && Requests() <= old(Requests()) + {request}
      ensures View() == Push(old(View()), request.requestId, request.priority, now)
    {
      var entry := Entry(request.priority, now, request);
      SortMembers(queue + [entry]);
      JobsSort(queue + [entry]);
      assert Jobs(queue + [entry]) == Jobs(queue) + [JobOf(entry)];
      ghost var before := queue + [entry];
      queue := StableSort(queue + [entry]);
      clock := now;
      forall i | 0 <= i < |queue|
        ensures queue[i].priority == queue[i].item.priority && queue[i].item.requestId !in processing
        ensures queue[i].item in old(Requests()) + {request}
      {
        assert queue[i] in multiset(before);
        var j :| 0 <= j < |before| && before[j] == queue[i];
        assert j < |old(queue)| ==> before[j] == old(queue)[j];
      }
    }

    method PopRequest() returns (request: BuildRequest?)
      requires Valid() && (forall i :: 0 < i < |queue| ==> queue[i].item.requestId != queue[0].item.requestId)
      modifies this
      ensures Valid() && Requests() <= old(Requests())
      ensures View() == Pop(old(View()))
      ensures if old(queue) == [] then request == null
              else request != null && request.requestId == old(View()).queue[0].item && request.requestId in processing
                   && processing[request.requestId] == request
    {
      if queue == [] {
        return null;
      }
      request := queue[0].item;
      queue := queue[1..];
      processing := processing[request.requestId := request];
      assert Jobs(queue) == old(View()).queue[1..];
    }

    method CompleteRequest(id: string)
      requires Valid()
      modifies this
      ensures Valid() && Requests() <= old(Requests())
      ensures View() == Complete(old(View()), id)
    {
      processing := processing - {id};
    }

    method FailRequest(id: string, now: real)
      requires Valid()
      modifies this, processing.Values
      ensures Valid() && Requests() <= old(Requests())
      ensures View() == Fail(old(View()), id, now)
    {
      if id in processing {
        var request := processing[id];
        processing := processing - {id};
        request.priority := if request.priority + 1 < 10 then request.priority + 1 else 10;
        assert forall k :: k in processing ==> processing[k] != request;
        assert View() == old(View()).(processing := old(View()).processing - {id});
        PushRequest(request, now);
      }
    }
  }
}
