/** What the build queue guarantees over whole runs: order, conservation, demotion and freedom from starvation. */
module BuildSchedule {
  import opened BuildQueue
  import opened Json

  datatype Event =
    | Arrive(id: string, priority: int, now: real)
    | Take
    | Finish(id: string)
    | Drop(id: string, now: real)

  predicate Enabled(s: State, e: Event) {
    match e
    case Arrive(id, _, now) => id !in Ids(s.queue) && id !in s.processing && s.clock <= now
    case Take => true
    case Finish(_) => true
    case Drop(_, now) => s.clock <= now
  }

  function Step(s: State, e: Event): State {
    match e
    case Arrive(id, priority, now) => Push(s, id, priority, now)
    case Take => Pop(s)
    case Finish(id) => Complete(s, id)
    case Drop(id, now) => Fail(s, id, now)
  }

  function Ids(q: seq<Job>): set<string> {
    set i | 0 <= i < |q| :: q[i].item
  }

  ghost predicate Distinct(q: seq<Job>) {
    forall i, j :: 0 <= i < j < |q| ==> q[i].item != q[j].item
  }

  ghost predicate Inv(s: State) {
    && Sorted(s.queue) && Distinct(s.queue)
    && (forall i :: 0 <= i < |s.queue| ==> s.queue[i].time <= s.clock)
    && (forall i :: 0 <= i < |s.queue| ==> s.queue[i].item !in s.processing)
  }

  /** With a clock that does not go back, sorting puts a new job behind every job at least as urgent, and nothing else
      moves. */
  function Behind(q: seq<Job>, priority: int): (k: nat)
    ensures k <= |q|
  {
    if q == [] || q[|q| - 1].priority <= priority then |q| else Behind(q[..|q| - 1], priority)
  }

  lemma {:induction false} BehindSplits(q: seq<Job>, priority: int)
    requires Sorted(q)
    ensures forall i :: 0 <= i < |q| ==> (i < Behind(q, priority) <==> q[i].priority <= priority)
  {
    if q != [] && q[|q| - 1].priority > priority {
      BehindSplits(q[..|q| - 1], priority);
    }
  }

  lemma {:induction false} InsertAt(q: seq<Job>, e: Job)
    requires forall i :: 0 <= i < |q| ==> q[i].time <= e.time
    ensures var k := Behind(q, e.priority); Insert(q, e) == q[..k] + [e] + q[k..]
  {
    if q != [] && q[|q| - 1].priority > e.priority {
      InsertAt(q[..|q| - 1], e);
      var k := Behind(q, e.priority);
      assert q[..|q| - 1][..k] == q[..k];
      assert q[k..] == q[..|q| - 1][k..] + [q[|q| - 1]];
    }
  }

  lemma PushInserts(s: State, id: string, priority: int, now: real)
    requires Inv(s) && s.clock <= now
    ensures var k := Behind(s.queue, priority);
            Push(s, id, priority, now).queue == s.queue[..k] + [Entry(priority, now, id)] + s.queue[k..]
  {
    var e := Entry(priority, now, id);
    assert (s.queue + [e])[..|s.queue|] == s.queue;
    SortedIsFixed(s.queue);
    InsertAt(s.queue, e);
  }

  /** `r` is `q` with `e` put in at `k`, position by position. */
  ghost predicate PutInAt(q: seq<Job>, k: nat, e: Job, r: seq<Job>) {
    && k <= |q| && |r| == |q| + 1 && r[k] == e
    && (forall i :: 0 <= i < k ==> r[i] == q[i])
    && (forall i :: k < i < |r| ==> r[i] == q[i - 1])
  }

  lemma PushShape(s: State, id: string, priority: int, now: real)
    requires Inv(s) && s.clock <= now
    ensures PutInAt(s.queue, Behind(s.queue, priority), Entry(priority, now, id), Push(s, id, priority, now).queue)
  {
    PushInserts(s, id, priority, now);
  }

  lemma PushInv(s: State, id: string, priority: int, now: real)
    requires Inv(s) && s.clock <= now && id !in Ids(s.queue) && id !in s.processing
    ensures Inv(Push(s, id, priority, now))
  {
    PushShape(s, id, priority, now);
    BehindSplits(s.queue, priority);
    var k, e, r := Behind(s.queue, priority), Entry(priority, now, id), Push(s, id, priority, now).queue;
    PutInKeepsOrder(s.queue, k, e, r);
    forall i | 0 <= i < |r| ensures r[i] == e || r[i] in s.queue {
      if i < k { assert r[i] == s.queue[i]; } else if i > k { assert r[i] == s.queue[i - 1]; }
    }
  }

  lemma PutInKeepsOrder(q: seq<Job>, k: nat, e: Job, r: seq<Job>)
    requires PutInAt(q, k, e, r) && Sorted(q) && Distinct(q) && e.item !in Ids(q)
    requires forall i :: 0 <= i < |q| ==> q[i].time <= e.time && (i < k <==> q[i].priority <= e.priority)
    ensures Sorted(r) && Distinct(r)
  {
    forall i, j | 0 <= i < j < |r| ensures KeyLe(r[i], r[j]) && r[i].item != r[j].item {
      if i == k {
        assert r[j] == q[j - 1];
      } else if j == k {
        assert r[i] == q[i];
      } else {
        assert r[i] == q[if i < k then i else i - 1] && r[j] == q[if j < k then j else j - 1];
      }
    }
  }

  lemma StepInv(s: State, e: Event)
    requires Inv(s) && Enabled(s, e)
    ensures Inv(Step(s, e))
  {
    match e
    case Arrive(id, priority, now) => PushInv(s, id, priority, now);
    case Take =>
    case Finish(id) =>
    case Drop(id, now) =>
      if id in s.processing {
        PushInv(s.(processing := s.processing - {id}), id, Demoted(s.processing[id]), now);
      }
  }

  // ---- One first-in first-out line per priority ----

  /** The ids waiting at one priority, in order of arrival. */
  function Line(q: seq<Job>, p: int): seq<string> {
    if q == [] then [] else (if q[0].priority == p then [q[0].item] else []) + Line(q[1..], p)
  }

  lemma {:induction false} LineAppend(q: seq<Job>, r: seq<Job>, p: int)
    ensures Line(q + r, p) == Line(q, p) + Line(r, p)
  {
    if q == [] {
      assert q + r == r;
    } else {
      assert (q + r)[1..] == q[1..] + r;
      LineAppend(q[1..], r, p);
    }
  }

  lemma {:induction false} LineEmpty(q: seq<Job>, p: int)
    requires forall i :: 0 <= i < |q| ==> q[i].priority != p
    ensures Line(q, p) == []
  {
    if q == [] {
    } else {
      LineEmpty(q[1..], p);
    }
  }

  lemma LineInsert(q: seq<Job>, k: nat, e: Job, p: int)
    requires k <= |q|
    ensures Line(q, p) == Line(q[..k], p) + Line(q[k..], p)
    ensures Line(q[..k] + [e] + q[k..], p) == Line(q[..k], p) + (if e.priority == p then [e.item] else []) + Line(q[k..], p)
  {
    LineAppend(q[..k] + [e], q[k..], p);
    LineAppend(q[..k], [e], p);
    LineAppend(q[..k], q[k..], p);
    assert q[..k] + q[k..] == q && [e][1..] == [];
  }

  /** A push joins the end of its own line and leaves every other line alone. */
  lemma PushJoinsLine(s: State, id: string, priority: int, now: real, p: int)
    requires Inv(s) && s.clock <= now
    ensures Line(Push(s, id, priority, now).queue, p) == Line(s.queue, p) + (if p == priority then [id] else [])
  {
    var q, e, k := s.queue, Entry(priority, now, id), Behind(s.queue, priority);
    PushInserts(s, id, priority, now);
    BehindSplits(q, priority);
    LineInsert(q, k, e, p);
    if p == priority {
      LineEmpty(q[k..], p);
    }
  }

  /** A pop takes the head of the most urgent line that is not empty. */
  lemma PopTakesMostUrgent(s: State, p: int)
    requires Inv(s) && s.queue != []
    ensures var first := s.queue[0];
            && Line(s.queue, first.priority) == [first.item] + Line(Pop(s).queue, first.priority)
            && (p < first.priority ==> Line(s.queue, p) == [])
            && (p != first.priority ==> Line(Pop(s).queue, p) == Line(s.queue, p))
            && first.item in Pop(s).processing && Pop(s).processing[first.item] == first.priority
  {
    if p < s.queue[0].priority {
      LineEmpty(s.queue, p);
    }
  }

  function Run(s: State, es: seq<Event>): State
    decreases |es|
  {
    if es == [] then s else Run(Step(s, es[0]), es[1..])
  }

  ghost predicate Valid(s: State, es: seq<Event>)
    decreases |es|
  {
    es == [] || (Enabled(s, es[0]) && Valid(Step(s, es[0]), es[1..]))
  }

  // ---- Conservation and demotion ----

  /** The queue with its history: each job's first priority, its failures so far, and what was completed. */
  datatype History = History(now: State, first: map<string, int>, failures: map<string, nat>, completed: set<string>)

  const FRESH := History(State([], map[], 0.0), map[], map[], {})

  predicate HEnabled(h: History, e: Event) {
    Enabled(h.now, e) && (e.Arrive? ==> e.id !in h.first)
  }

  function HStep(h: History, e: Event): History {
    var next := Step(h.now, e);
    match e
    case Arrive(id, priority, _) => h.(now := next, first := h.first[id := priority], failures := h.failures[id := 0])
    case Take => h.(now := next)
    case Finish(id) => h.(now := next, completed := if id in h.now.processing then h.completed + {id} else h.completed)
    case Drop(id, _) =>
      h.(now := next, failures := if id in h.now.processing && id in h.failures then h.failures[id := h.failures[id] + 1]
                                  else h.failures)
  }

  /** min(p0 + k, 10), except that a job pushed with more than 10 keeps its priority until it first fails. */
  function PriorityAfter(p0: int, k: nat): int {
    if k == 0 || p0 + k <= 10 then p0 + k else 10
  }

  ghost predicate HInv(h: History) {
    && Inv(h.now)
    && h.failures.Keys == h.first.Keys
    // every pushed job is in exactly one place
    && h.first.Keys == Ids(h.now.queue) + h.now.processing.Keys + h.completed
    && Ids(h.now.queue) !! h.now.processing.Keys !! h.completed
    // and has been demoted once per failure
    && (forall i :: 0 <= i < |h.now.queue| ==>
          var job := h.now.queue[i];
          job.item in h.first && job.item in h.failures && job.priority == PriorityAfter(h.first[job.item], h.failures[job.item]))
    && (forall id :: id in h.now.processing ==>
          id in h.first && id in h.failures && h.now.processing[id] == PriorityAfter(h.first[id], h.failures[id]))
  }

  lemma PushIds(s: State, id: string, priority: int, now: real)
    requires Inv(s) && s.clock <= now
    ensures Ids(Push(s, id, priority, now).queue) == Ids(s.queue) + {id}
    ensures forall i :: 0 <= i < |s.queue| + 1 ==>
              var e := Push(s, id, priority, now).queue[i]; e == Entry(priority, now, id) || e in s.queue
  {
    PushShape(s, id, priority, now);
    var q, k, r := s.queue, Behind(s.queue, priority), Push(s, id, priority, now).queue;
    assert r[k].item == id;
    forall i | 0 <= i < |q| ensures q[i].item in Ids(r) {
      assert q[i] == r[if i < k then i else i + 1];
    }
    forall i | 0 <= i < |r| ensures r[i] == Entry(priority, now, id) || r[i] in q {
      if i != k { assert r[i] == q[if i < k then i else i - 1]; }
    }
  }

  lemma HArrive(h: History, e: Event)
    requires HInv(h) && HEnabled(h, e) && e.Arrive?
    ensures HInv(HStep(h, e))
  {
    StepInv(h.now, e);
    PushIds(h.now, e.id, e.priority, e.now);
  }

  lemma HTake(h: History, e: Event)
    requires HInv(h) && e.Take?
    ensures HInv(HStep(h, e))
  {
    StepInv(h.now, e);
    var q := h.now.queue;
    if q != [] {
      assert Ids(q) == Ids(q[1..]) + {q[0].item};
      assert q[0].item !in Ids(q[1..]);
    }
  }

  lemma HDrop(h: History, e: Event)
    requires HInv(h) && HEnabled(h, e) && e.Drop? && e.id in h.now.processing
    ensures HInv(HStep(h, e))
  {
    StepInv(h.now, e);
    var s := h.now.(processing := h.now.processing - {e.id});
    PushIds(s, e.id, Demoted(h.now.processing[e.id]), e.now);
  }

  lemma HStepInv(h: History, e: Event)
    requires HInv(h) && HEnabled(h, e)
    ensures HInv(HStep(h, e))
  {
    match e {
      case Arrive(_, _, _) => HArrive(h, e);
      case Take => HTake(h, e);
      case Finish(_) =>
      case Drop(id, _) => if id in h.now.processing { HDrop(h, e); }
    }
  }

  function HRun(h: History, es: seq<Event>): History
    decreases |es|
  {
    if es == [] then h else HRun(HStep(h, es[0]), es[1..])
  }

  ghost predicate HValid(h: History, es: seq<Event>)
    decreases |es|
  {
    es == [] || (HEnabled(h, es[0]) && HValid(HStep(h, es[0]), es[1..]))
  }

  lemma {:induction false} HRunInv(h: History, es: seq<Event>)
    requires HInv(h) && HValid(h, es)
    ensures HInv(HRun(h, es))
    decreases |es|
  {
    if es == [] {
    } else {
      HStepInv(h, es[0]);
      HRunInv(HStep(h, es[0]), es[1..]);
    }
  }

  function Min(a: int, b: int): int {
    if a <= b then a else b
  }

  ghost predicate InOnePlace(h: History, id: string) {
    && (if id in Ids(h.now.queue) then 1 else 0) + (if id in h.now.processing then 1 else 0)
       + (if id in h.completed then 1 else 0) == (if id in h.first then 1 else 0)
    && Distinct(h.now.queue)
    && (id in h.first ==>
          && id in h.failures
          && (forall i :: 0 <= i < |h.now.queue| && h.now.queue[i].item == id ==>
                h.now.queue[i].priority == PriorityAfter(h.first[id], h.failures[id]))
          && (id in h.now.processing ==> h.now.processing[id] == PriorityAfter(h.first[id], h.failures[id])))
  }

  lemma HInvPlaces(h: History, id: string)
    requires HInv(h)
    ensures InOnePlace(h, id)
  {
  }

  // The same, told by the events themselves.

  /** The priority a job was pushed with, if it was. */
  function PushedWith(es: seq<Event>, id: string): Option<int> {
    if es == [] then None
    else if es[0].Arrive? && es[0].id == id then Some(es[0].priority)
    else PushedWith(es[1..], id)
  }

  /** How often a job failed while it was being processed. */
  function FailuresOf(s: State, es: seq<Event>, id: string): nat
    decreases |es|
  {
    if es == [] then 0
    else (if es[0].Drop? && es[0].id == id && id in s.processing then 1 else 0) + FailuresOf(Step(s, es[0]), es[1..], id)
  }

  /** Whether a job was completed while it was being processed. */
  predicate CompletedIn(s: State, es: seq<Event>, id: string)
    decreases |es|
  {
    es != [] && ((es[0].Finish? && es[0].id == id && id in s.processing) || CompletedIn(Step(s, es[0]), es[1..], id))
  }

  lemma {:induction false} HistoryTells(h: History, es: seq<Event>, id: string)
    requires HInv(h) && HValid(h, es)
    ensures var t := HRun(h, es);
            && t.now == Run(h.now, es)
            && (id in t.completed <==> id in h.completed || CompletedIn(h.now, es, id))
            && (id in h.first ==>
                  id in t.first && t.first[id] == h.first[id] && id in t.failures
                  && t.failures[id] == h.failures[id] + FailuresOf(h.now, es, id))
            && (id !in h.first ==>
                  && (id in t.first <==> PushedWith(es, id).Some?)
                  && (id in t.first ==> t.first[id] == PushedWith(es, id).value && id in t.failures
                                        && t.failures[id] == FailuresOf(h.now, es, id)))
    decreases |es|
  {
    if es == [] {
    } else {
      HStepInv(h, es[0]);
      HistoryTells(HStep(h, es[0]), es[1..], id);
    }
  }

  const START := State([], map[], 0.0)

  /** How many places a job is in. */
  function Places(es: seq<Event>, id: string): nat {
    var s := Run(START, es);
    (if id in Ids(s.queue) then 1 else 0) + (if id in s.processing then 1 else 0) + (if CompletedIn(START, es, id) then 1 else 0)
  }

  lemma RunInOnePlace(es: seq<Event>, id: string)
    requires HValid(FRESH, es)
    ensures InOnePlace(HRun(FRESH, es), id)
  {
    HRunInv(FRESH, es);
    HInvPlaces(HRun(FRESH, es), id);
  }

  lemma RunTells(es: seq<Event>, id: string)
    requires HValid(FRESH, es)
    ensures var t := HRun(FRESH, es);
            && t.now == Run(START, es)
            && (id in t.completed <==> CompletedIn(START, es, id))
            && (id in t.first <==> PushedWith(es, id).Some?)
            && (id in t.first ==> t.first[id] == PushedWith(es, id).value && id in t.failures
                                  && t.failures[id] == FailuresOf(START, es, id))
  {
    HistoryTells(FRESH, es, id);
  }

  /** From the empty queue, over every run: a job that was pushed is in exactly one of queue, processing table and the
      completed ones, and only once in the queue; any other job is nowhere. After k > 0 failures its priority is min(p0 + k, 10),
      before the first failure what it was pushed with. */
  lemma ConservedAndDemoted(es: seq<Event>, id: string)
    requires HValid(FRESH, es)
    ensures var s := Run(START, es);
            && Places(es, id) == (if PushedWith(es, id).Some? then 1 else 0) && Distinct(s.queue)
            && (PushedWith(es, id).Some? ==>
                  var p0, k := PushedWith(es, id).value, FailuresOf(START, es, id);
                  var p := if k == 0 then p0 else Min(p0 + k, 10);
                  && (forall i :: 0 <= i < |s.queue| && s.queue[i].item == id ==> s.queue[i].priority == p)
                  && (id in s.processing ==> s.processing[id] == p))
  {
    RunInOnePlace(es, id);
    RunTells(es, id);
  }

  // ---- No starvation ----

  /** How often a job queued at priority `p` in front of one at priority `mine` can still be taken before it. */
  function Ahead(p: int, mine: int): nat {
    if p < mine then mine - p else 1
  }

  /** The same for a job being processed: it can only come back one level lower. */
  function Owed(p: int, mine: int): nat {
    if p + 1 < mine then mine - p - 1 else 0
  }

  function SumAhead(q: seq<Job>, mine: int): nat {
    if q == [] then 0 else SumAhead(q[..|q| - 1], mine) + Ahead(q[|q| - 1].priority, mine)
  }

  ghost function Debt(m: map<string, int>, mine: int): nat {
    if m == map[] then 0
    else
      var id :| id in m;
      Owed(m[id], mine) + Debt(m - {id}, mine)
  }

  lemma {:induction false} DebtWithout(m: map<string, int>, id: string, mine: int)
    requires id in m
    ensures Debt(m, mine) == Owed(m[id], mine) + Debt(m - {id}, mine)
    decreases |m|
  {
    var k :| k in m && Debt(m, mine) == Owed(m[k], mine) + Debt(m - {k}, mine);
    if k != id {
      DebtWithout(m - {k}, id, mine);
      DebtWithout(m - {id}, k, mine);
      assert m - {k} - {id} == m - {id} - {k};
    }
  }

  function Position(q: seq<Job>, id: string): (k: nat)
    requires id in Ids(q)
    ensures k < |q| && q[k].item == id
  {
    if q[0].item == id then 0 else
      assert id in Ids(q[1..]) by { var i :| 0 <= i < |q| && q[i].item == id; assert q[1..][i - 1].item == id; }
      1 + Position(q[1..], id)
  }

  lemma PositionIs(q: seq<Job>, k: nat)
    requires Distinct(q) && k < |q|
    ensures q[k].item in Ids(q) && Position(q, q[k].item) == k
  {
  }

  function PriorityOf(s: State, id: string): int
    requires id in Ids(s.queue)
  {
    s.queue[Position(s.queue, id)].priority
  }

  /** The number of jobs still to be taken before `id`, if everything taken fails and comes back. */
  ghost function Rank(s: State, id: string): nat
    requires id in Ids(s.queue)
  {
    SumAhead(s.queue[..Position(s.queue, id)], PriorityOf(s, id)) + Debt(s.processing, PriorityOf(s, id))
  }

  lemma {:induction false} SumOfPeers(q: seq<Job>, mine: int)
    requires forall i :: 0 <= i < |q| ==> q[i].priority == mine
    ensures SumAhead(q, mine) == |q|
  {
    if q == [] {
    } else {
      SumOfPeers(q[..|q| - 1], mine);
    }
  }

  /** With nothing in processing and only jobs of its own priority ahead, the rank of a job is its place in the line. */
  lemma RankAmongPeers(s: State, id: string)
    requires Inv(s) && id in Ids(s.queue) && s.processing == map[]
    requires forall i :: 0 <= i < Position(s.queue, id) ==> s.queue[i].priority == PriorityOf(s, id)
    ensures Rank(s, id) == Position(s.queue, id)
  {
    SumOfPeers(s.queue[..Position(s.queue, id)], PriorityOf(s, id));
  }

  lemma {:induction false} SumAheadInsert(q: seq<Job>, k: nat, e: Job, mine: int)
    requires k <= |q|
    ensures SumAhead(q[..k] + [e] + q[k..], mine) == SumAhead(q, mine) + Ahead(e.priority, mine)
  {
    var r := q[..k] + [e] + q[k..];
    if k == |q| {
      assert q[..k] == q && r[..|r| - 1] == q;
    } else {
      var front := q[..|q| - 1];
      assert r[..|r| - 1] == front[..k] + [e] + front[k..];
      SumAheadInsert(front, k, e, mine);
    }
  }

  lemma {:induction false} SumAheadTail(q: seq<Job>, mine: int)
    requires q != []
    ensures SumAhead(q, mine) == Ahead(q[0].priority, mine) + SumAhead(q[1..], mine)
  {
    assert q[..0] + [q[0]] + q[1..] == q && q[1..][..0] + [q[0]] + q[1..][0..] == q;
    SumAheadInsert(q[1..], 0, q[0], mine);
  }

  /** A job pushed in front of the k-th moves it one place back and counts once per level it is more urgent. */
  lemma PushedInFront(q: seq<Job>, b: nat, e: Job, k: nat)
    requires b <= k < |q|
    ensures var r := q[..b] + [e] + q[b..];
            && r[k + 1] == q[k]
            && SumAhead(r[..k + 1], q[k].priority) == SumAhead(q[..k], q[k].priority) + Ahead(e.priority, q[k].priority)
  {
    var r := q[..b] + [e] + q[b..];
    assert r[..k + 1] == q[..k][..b] + [e] + q[..k][b..];
    SumAheadInsert(q[..k], b, e, q[k].priority);
  }

  lemma PushedBehind(q: seq<Job>, b: nat, e: Job, k: nat)
    requires k < b <= |q|
    ensures var r := q[..b] + [e] + q[b..];
            r[k] == q[k] && r[..k] == q[..k]
  {
  }

  /** A job pushed behind `id` does not count; one pushed in front counts once per level it is more urgent. */
  lemma PushRank(s: State, other: string, priority: int, now: real, id: string)
    requires Inv(s) && s.clock <= now && other !in Ids(s.queue) && other !in s.processing && id in Ids(s.queue)
    ensures var t := Push(s, other, priority, now);
            && id in Ids(t.queue) && PriorityOf(t, id) == PriorityOf(s, id)
            && Rank(t, id) == Rank(s, id) + (if priority < PriorityOf(s, id) then Ahead(priority, PriorityOf(s, id)) else 0)
  {
    var t := Push(s, other, priority, now);
    var q, e := s.queue, Entry(priority, now, other);
    var k, b := Position(q, id), Behind(q, priority);
    PushInv(s, other, priority, now);
    PushInserts(s, other, priority, now);
    BehindSplits(q, priority);
    if priority < q[k].priority {
      PushedInFront(q, b, e, k);
      PositionIs(t.queue, k + 1);
    } else {
      PushedBehind(q, b, e, k);
      PositionIs(t.queue, k);
    }
  }

  lemma TakeRank(s: State, id: string)
    requires Inv(s) && id in Ids(s.queue) && s.queue[0].item != id
    ensures var t := Pop(s);
            id in Ids(t.queue) && PriorityOf(t, id) == PriorityOf(s, id) && Rank(s, id) == Rank(t, id) + 1
  {
    var t, q, k := Pop(s), s.queue, Position(s.queue, id);
    var mine := q[k].priority;
    assert t.queue[k - 1] == q[k];
    PositionIs(t.queue, k - 1);
    SumAheadTail(q[..k], mine);
    assert q[..k][1..] == t.queue[..k - 1];
    var first := q[0];
    DebtWithout(t.processing, first.item, mine);
    assert t.processing - {first.item} == s.processing;
    assert KeyLe(first, q[k]);
  }

  lemma DropRank(s: State, other: string, now: real, id: string)
    requires Inv(s) && s.clock <= now && id in Ids(s.queue) && PriorityOf(s, id) <= 10
    ensures var t := Fail(s, other, now);
            id in Ids(t.queue) && PriorityOf(t, id) == PriorityOf(s, id) && Rank(t, id) == Rank(s, id)
  {
    if other in s.processing {
      DebtWithout(s.processing, other, PriorityOf(s, id));
      PushRank(s.(processing := s.processing - {other}), other, Demoted(s.processing[other]), now, id);
    }
  }

  lemma FinishRank(s: State, other: string, id: string)
    requires id in Ids(s.queue)
    ensures Rank(Complete(s, other), id) <= Rank(s, id)
  {
    if other in s.processing {
      DebtWithout(s.processing, other, PriorityOf(s, id));
    } else {
      assert s.processing - {other} == s.processing;
    }
  }

  lemma {:induction false} RunAppend(s: State, es: seq<Event>, fs: seq<Event>)
    ensures Run(s, es + fs) == Run(Run(s, es), fs)
    ensures Valid(s, es + fs) <==> Valid(s, es) && Valid(Run(s, es), fs)
    decreases |es|
  {
    if es == [] {
      assert es + fs == fs;
    } else {
      assert (es + fs)[1..] == es[1..] + fs;
      RunAppend(Step(s, es[0]), es[1..], fs);
    }
  }

  lemma {:induction false} RunInv(s: State, es: seq<Event>)
    requires Inv(s) && Valid(s, es)
    ensures Inv(Run(s, es))
    decreases |es|
  {
    if es == [] {
    } else {
      StepInv(s, es[0]);
      RunInv(Step(s, es[0]), es[1..]);
    }
  }

  /** The ids taken during a run, in order. */
  function Taken(s: State, es: seq<Event>): seq<string>
    decreases |es|
  {
    if es == [] then []
    else (if es[0].Take? && s.queue != [] then [s.queue[0].item] else []) + Taken(Step(s, es[0]), es[1..])
  }

  function Takes(es: seq<Event>): nat {
    if es == [] then 0 else (if es[0].Take? then 1 else 0) + Takes(es[1..])
  }

  lemma {:induction false} TakesAppend(es: seq<Event>, fs: seq<Event>)
    ensures Takes(es + fs) == Takes(es) + Takes(fs)
  {
    if es == [] {
      assert es + fs == fs;
    } else {
      assert (es + fs)[1..] == es[1..] + fs;
      TakesAppend(es[1..], fs);
    }
  }

  /** Jobs that arrive are no more urgent than `p`. */
  predicate NoneMoreUrgent(es: seq<Event>, p: int) {
    forall i :: 0 <= i < |es| && es[i].Arrive? ==> es[i].priority >= p
  }

  predicate NoneFinishes(es: seq<Event>) {
    forall i :: 0 <= i < |es| ==> !es[i].Finish?
  }

  /** The rank counts down by one per job taken, whatever the jobs taken do; without completions it counts exactly. */
  lemma {:induction false} RankCountsDown(s: State, es: seq<Event>, id: string)
    requires Inv(s) && Valid(s, es) && id in Ids(s.queue) && PriorityOf(s, id) <= 10
    requires NoneMoreUrgent(es, PriorityOf(s, id)) && id !in Taken(s, es)
    ensures var t := Run(s, es);
            && id in Ids(t.queue) && PriorityOf(t, id) == PriorityOf(s, id)
            && Rank(t, id) + Takes(es) <= Rank(s, id)
            && (NoneFinishes(es) ==> Rank(t, id) + Takes(es) == Rank(s, id))
    decreases |es|
  {
    if es == [] {
    } else {
      var e, t := es[0], Step(s, es[0]);
      StepInv(s, e);
      match e {
        case Arrive(other, priority, now) => PushRank(s, other, priority, now, id);
        case Take =>
          assert s.queue[0].item in Taken(s, es);
          TakeRank(s, id);
        case Finish(other) => FinishRank(s, other, id);
        case Drop(other, now) => DropRank(s, other, now, id);
      }
      assert NoneMoreUrgent(es[1..], PriorityOf(t, id));
      RankCountsDown(t, es[1..], id);
    }
  }

  /** A job at priority 10 or better is taken after at most `Rank` others, even if everything taken fails every time. */
  lemma {:induction false} NoStarvation(s: State, es: seq<Event>, id: string)
    requires Inv(s) && Valid(s, es) && id in Ids(s.queue) && PriorityOf(s, id) <= 10
    requires NoneMoreUrgent(es, PriorityOf(s, id))
    requires Takes(es) > Rank(s, id)
    ensures id in Taken(s, es)
  {
    if id !in Taken(s, es) {
      RankCountsDown(s, es, id);
    }
  }

  lemma NoneAhead(q: seq<Job>, mine: int)
    ensures SumAhead(q, mine) == 0 ==> q == []
  {
  }

  /** The bound is exact: when nothing completes and `Rank` others have been taken, `id` is next. */
  lemma {:induction false} RankIsExact(s: State, es: seq<Event>, id: string)
    requires Inv(s) && Valid(s, es) && id in Ids(s.queue) && PriorityOf(s, id) <= 10
    requires NoneMoreUrgent(es, PriorityOf(s, id)) && NoneFinishes(es) && id !in Taken(s, es)
    requires Takes(es) == Rank(s, id)
    ensures Run(s, es).queue != [] && Run(s, es).queue[0].item == id
  {
    RankCountsDown(s, es, id);
    var t := Run(s, es);
    NoneAhead(t.queue[..Position(t.queue, id)], PriorityOf(t, id));
  }

  // Nothing keeps a priority within 1..10, and the cap at 10 lifts a failed job above one that was pushed with more.

  function Crowded(p: int): State {
    State([Entry(10, 0.0, "a"), Entry(p, 0.0, "b")], map[], 0.0)
  }

  function Churn(n: nat): seq<Event> {
    if n == 0 then [] else [Take, Drop("a", 0.0)] + Churn(n - 1)
  }

  lemma ChurnOnce(p: int)
    requires p > 10
    ensures Step(Step(Crowded(p), Take), Drop("a", 0.0)) == Crowded(p)
  {
    var s := Step(Crowded(p), Take);
    var a, b := Entry(10, 0.0, "a"), Entry(p, 0.0, "b");
    assert s.queue == [b] && s.processing == map["a" := 10];
    assert s.processing - {"a"} == map[];
    assert [b, a][..1] == [b] && [b][..0] == [];
    assert StableSort([b]) == [b];
    assert Insert([b], a) == Insert([], a) + [b] == [a, b];
  }

  lemma {:induction false} Starves(p: int, n: nat)
    requires p > 10
    ensures Valid(Crowded(p), Churn(n)) && Takes(Churn(n)) == n && NoneMoreUrgent(Churn(n), p)
    ensures "b" !in Taken(Crowded(p), Churn(n))
  {
    if n == 0 {
    } else {
      ChurnOnce(p);
      Starves(p, n - 1);
      var es, s := Churn(n), Crowded(p);
      assert es[0] == Take && es[1] == Drop("a", 0.0) && es[1..][1..] == Churn(n - 1);
      assert "a" != "b";
    }
  }

  /** Some job waiting at priority `p` can be overtaken for ever, although nothing more urgent arrives. */
  ghost predicate CanStarve(p: int) {
    exists s: State, id: string :: WaitsAt(s, id, p) && forall n: nat :: Overtaken(s, id, n)
  }

  ghost predicate WaitsAt(s: State, id: string, p: int) {
    Inv(s) && id in Ids(s.queue) && PriorityOf(s, id) == p
  }

  ghost predicate Overtaken(s: State, id: string, n: nat)
    requires id in Ids(s.queue)
  {
    exists es: seq<Event> ::
      Valid(s, es) && NoneMoreUrgent(es, PriorityOf(s, id)) && Takes(es) >= n && id !in Taken(s, es)
  }

  /** Starvation is possible exactly for priorities beyond 10. */
  lemma StarvationExactly(p: int)
    ensures CanStarve(p) <==> p > 10
  {
    if p > 10 {
      var s := Crowded(p);
      assert s.queue[1].item == "b" && "a" != "b";
      PositionIs(s.queue, 1);
      assert WaitsAt(s, "b", p);
      forall n: nat ensures Overtaken(s, "b", n) {
        Starves(p, n);
      }
    } else if CanStarve(p) {
      var s: State, id: string :| WaitsAt(s, id, p) && forall n: nat :: Overtaken(s, id, n);
      assert Overtaken(s, id, Rank(s, id) + 1);
      var es: seq<Event> :|
        Valid(s, es) && NoneMoreUrgent(es, PriorityOf(s, id)) && Takes(es) >= Rank(s, id) + 1 && id !in Taken(s, es);
      NoStarvation(s, es, id);
    }
  }
}
