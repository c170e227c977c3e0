/** The build worker (builder/worker.py): compile, scan, sign, and one verdict for the queue. */
module BuildWorker {
  import opened BuildQueue
  import opened BuildSchedule

  /** A step that may raise instead of returning; a step that is awaited may also be cancelled, which `except Exception` does
      not catch. */
  datatype Attempt<T> = Raises | Cancelled | Yields(value: T)

  datatype CompileResult = CompileResult(success: bool, wheelPath: string)

  /** How compiling and scanning would go for one job, whether signing returns, and when the verdict is recorded. */
  datatype Build = Build(compile: Attempt<CompileResult>, clean: Attempt<bool>, signs: bool, now: real)

  /** A build succeeds only if it compiles to a wheel that scans clean and can be signed. */
  predicate Succeeds(b: Build) {
    && IsBuilt(b)
    && b.clean == Yields(true)
    && b.signs
  }

  predicate IsBuilt(b: Build) {
    b.compile.Yields? && b.compile.value.success && b.compile.value.wheelPath != ""
  }

  /** Cancelled while it compiles or while the wheel is scanned; signing is not awaited. */
  predicate IsCancelled(b: Build) {
    b.compile.Cancelled? || (IsBuilt(b) && b.clean.Cancelled?)
  }

  function Report(id: string, b: Build): Event {
    if Succeeds(b) then Finish(id) else Drop(id, b.now)
  }

  function Verdict(id: string, b: Build): seq<Event> {
    if IsCancelled(b) then [] else [Report(id, b)]
  }

  lemma RunOne(s: State, e: Event)
    ensures Run(s, [e]) == Step(s, e)
  {
    assert [e][1..] == [];
  }

  /** Every path through a build reports exactly one verdict, unless the build is cancelled: then it reports none, and the job
      stays in the processing table. */
  method ProcessBuild(queue: BuildQueue, request: BuildRequest, b: Build) returns (cancelled: bool)
    requires queue.Valid()
    modifies queue, queue.processing.Values
    ensures queue.Valid() && queue.Requests() <= old(queue.Requests())
    ensures queue.View() == Run(old(queue.View()), Verdict(request.requestId, b))
    ensures cancelled == IsCancelled(b)
  {
    cancelled := false;
    RunOne(queue.View(), Report(request.requestId, b));
    if b.compile.Cancelled? {
      return true;
    }
    if b.compile.Raises? {
      queue.FailRequest(request.requestId, b.now);
      return;
    }
    var result := b.compile.value;
    if result.success && result.wheelPath != "" {
      if b.clean.Cancelled? {
        return true;
      }
      if b.clean.Raises? {
        queue.FailRequest(request.requestId, b.now);
        return;
      }
      if !b.clean.value {
        queue.FailRequest(request.requestId, b.now);
        return;
      }
      if !b.signs {
        queue.FailRequest(request.requestId, b.now);
        return;
      }
      queue.CompleteRequest(request.requestId);
    } else {
      queue.FailRequest(request.requestId, b.now);
    }
  }

  /** What a build does to its job, in terms of the three steps alone. It is done with if and only if it compiles to a wheel, the
      wheel scans clean and signing returns; cancelled while it compiles or is scanned, nothing happens; in every other case it
      waits again, one level less urgent, and nothing else moves. */
  lemma BuildEnds(s: State, id: string, b: Build)
    requires id in s.processing && id !in Ids(s.queue)
    ensures var t := Run(s, Verdict(id, b));
            var wheel := b.compile.Yields? && b.compile.value.success && b.compile.value.wheelPath != "";
            var good := wheel && b.clean == Yields(true) && b.signs;
            var p := s.processing[id];
            if b.compile.Cancelled? || (wheel && b.clean.Cancelled?) then t == s
            else
              && t.processing == s.processing - {id}
              && (id !in Ids(t.queue) <==> good)
              && (good ==> t.queue == s.queue)
              && (!good ==> multiset(t.queue) ==
                            multiset(s.queue) + multiset{Entry(if p + 1 < 10 then p + 1 else 10, b.now, id)})
  {
    if !IsCancelled(b) {
      RunOne(s, Report(id, b));
    }
    var e := Entry(Demoted(s.processing[id]), b.now, id);
    var r := StableSort(s.queue + [e]);
    SortMembers(s.queue + [e]);
    assert e in multiset(r);
    var i :| 0 <= i < |r| && r[i] == e;
    assert id in Ids(r);
  }

  // ---- The loop ----

  /** A push by somebody else while the worker awaits a build or sleeps. */
  datatype Arrival = Arrival(id: string, priority: int, now: real)

  /** One turn of the loop: how the build would go if there is a job, and what arrives meanwhile. */
  datatype Turn = Turn(build: Build, arrivals: seq<Arrival>)

  function Arrivals(arrivals: seq<Arrival>): seq<Event> {
    if arrivals == [] then []
    else [Arrive(arrivals[0].id, arrivals[0].priority, arrivals[0].now)] + Arrivals(arrivals[1..])
  }

  function VerdictOf(s: State, t: Turn): seq<Event> {
    if s.queue == [] then [] else Verdict(s.queue[0].item, t.build)
  }

  /** Take a job, let others push, report the verdict; on an empty queue there is none. */
  function TurnEvents(s: State, t: Turn): seq<Event> {
    [Take] + Arrivals(t.arrivals) + VerdictOf(s, t)
  }

  /** A cancelled build takes the worker with it. */
  predicate Dies(s: State, t: Turn) {
    s.queue != [] && IsCancelled(t.build)
  }

  function WorkerEvents(s: State, turns: seq<Turn>): seq<Event>
    decreases |turns|
  {
    if turns == [] then []
    else
      var es := TurnEvents(s, turns[0]);
      es + if Dies(s, turns[0]) then [] else WorkerEvents(Run(s, es), turns[1..])
  }

  /** A turn ends in the state its events lead to, and a valid run is one of valid turns. */
  lemma TurnUnfolds(s: State, t: Turn)
    ensures var s1 := Run(Step(s, Take), Arrivals(t.arrivals));
            && Run(s, TurnEvents(s, t)) == Run(s1, VerdictOf(s, t))
            && (Valid(s, TurnEvents(s, t)) <==> Valid(Step(s, Take), Arrivals(t.arrivals)) && Valid(s1, VerdictOf(s, t)))
  {
    var arrivals := Arrivals(t.arrivals);
    var es := TurnEvents(s, t);
    assert es[0] == Take && es[1..] == arrivals + VerdictOf(s, t);
    RunAppend(Step(s, Take), arrivals, VerdictOf(s, t));
  }

  method PushAll(queue: BuildQueue, arrivals: seq<Arrival>)
    requires queue.Valid() && Inv(queue.View()) && Valid(queue.View(), Arrivals(arrivals))
    modifies queue
    ensures queue.Valid() && queue.processing == old(queue.processing)
    ensures forall r :: r in queue.Requests() ==> r in old(queue.Requests()) || fresh(r)
    ensures queue.View() == Run(old(queue.View()), Arrivals(arrivals))
  {
    ghost var start := queue.View();
    for i := 0 to |arrivals|
      invariant queue.Valid() && queue.processing == old(queue.processing)
      invariant forall r :: r in queue.Requests() ==> r in old(queue.Requests()) || fresh(r)
      invariant Inv(queue.View()) && Valid(queue.View(), Arrivals(arrivals[i..]))
      invariant Run(start, Arrivals(arrivals)) == Run(queue.View(), Arrivals(arrivals[i..]))
    {
      var a := arrivals[i];
      ghost var s := queue.View();
      ghost var es := Arrivals(arrivals[i..]);
      assert arrivals[i..][1..] == arrivals[i + 1..];
      assert es[0] == Arrive(a.id, a.priority, a.now) && es[1..] == Arrivals(arrivals[i + 1..]);
      StepInv(s, es[0]);
      var request := new BuildRequest(a.id, a.priority);
      assert queue.View() == s;
      queue.PushRequest(request, a.now);
    }
  }

  method WorkOnce(queue: BuildQueue, turn: Turn) returns (died: bool)
    requires queue.Valid() && Inv(queue.View()) && Valid(queue.View(), TurnEvents(queue.View(), turn))
    modifies queue, queue.Requests()
    ensures queue.Valid()
    ensures forall r :: r in queue.Requests() ==> r in old(queue.Requests()) || fresh(r)
    ensures queue.View() == Run(old(queue.View()), TurnEvents(old(queue.View()), turn))
    ensures died == Dies(old(queue.View()), turn)
  {
    died := false;
    ghost var s := queue.View();
    TurnUnfolds(s, turn);
    StepInv(s, Take);
    forall j | 0 < j < |queue.queue| ensures queue.queue[j].item.requestId != queue.queue[0].item.requestId {
      assert s.queue[j].item != s.queue[0].item;
    }
    var request := queue.PopRequest();
    PushAll(queue, turn.arrivals);
    if request != null {
      died := ProcessBuild(queue, request, turn.build);
    }
  }

  method Work(queue: BuildQueue, turns: seq<Turn>)
    requires queue.Valid() && Inv(queue.View()) && Valid(queue.View(), WorkerEvents(queue.View(), turns))
    modifies queue, queue.Requests()
    ensures queue.Valid()
    ensures queue.View() == Run(old(queue.View()), WorkerEvents(old(queue.View()), turns))
  {
    ghost var start := queue.View();
    for i := 0 to |turns|
      invariant queue.Valid()
      invariant forall r :: r in queue.Requests() ==> r in old(queue.Requests()) || fresh(r)
      invariant Inv(queue.View()) && Valid(queue.View(), WorkerEvents(queue.View(), turns[i..]))
      invariant Run(start, WorkerEvents(start, turns)) == Run(queue.View(), WorkerEvents(queue.View(), turns[i..]))
    {
      ghost var s := queue.View();
      ghost var es := TurnEvents(s, turns[i]);
      assert turns[i..][0] == turns[i] && turns[i..][1..] == turns[i + 1..];
      RunAppend(s, es, if Dies(s, turns[i]) then [] else WorkerEvents(Run(s, es), turns[i + 1..]));
      RunInv(s, es);
      var died := WorkOnce(queue, turns[i]);
      if died {
        assert es + [] == es;
        return;
      }
    }
  }

  predicate NoneCancelled(turns: seq<Turn>) {
    forall i :: 0 <= i < |turns| ==> !IsCancelled(turns[i].build)
  }

  lemma {:induction false} ArrivalsTakeNothing(arrivals: seq<Arrival>)
    ensures Takes(Arrivals(arrivals)) == 0
  {
    if arrivals == [] {
    } else {
      ArrivalsTakeNothing(arrivals[1..]);
    }
  }

  lemma VerdictTakesNothing(s: State, t: Turn)
    ensures Takes(VerdictOf(s, t)) == 0
  {
    assert s.queue != [] && Verdict(s.queue[0].item, t.build) != [] ==> Verdict(s.queue[0].item, t.build)[1..] == [];
  }

  lemma {:induction false} OneTakeATurn(s: State, turns: seq<Turn>)
    requires NoneCancelled(turns)
    ensures Takes(WorkerEvents(s, turns)) == |turns|
    decreases |turns|
  {
    if turns == [] {
    } else {
      var es, arrivals := TurnEvents(s, turns[0]), Arrivals(turns[0].arrivals);
      ArrivalsTakeNothing(turns[0].arrivals);
      VerdictTakesNothing(s, turns[0]);
      TakesAppend(arrivals, VerdictOf(s, turns[0]));
      assert es[1..] == arrivals + VerdictOf(s, turns[0]);
      OneTakeATurn(Run(s, es), turns[1..]);
      TakesAppend(es, WorkerEvents(Run(s, es), turns[1..]));
    }
  }

  lemma {:induction false} ArrivalsOnlyWait(s: State, arrivals: seq<Arrival>)
    ensures Run(s, Arrivals(arrivals)).processing == s.processing
    decreases |arrivals|
  {
    if arrivals == [] {
    } else {
      var a := arrivals[0];
      var es := Arrivals(arrivals);
      assert es[0] == Arrive(a.id, a.priority, a.now) && es[1..] == Arrivals(arrivals[1..]);
      ArrivalsOnlyWait(Step(s, es[0]), arrivals[1..]);
    }
  }

  /** One turn on a queue that is not empty takes its head, and unless the build is cancelled it is not left in processing. */
  lemma TurnEnds(s: State, t: Turn)
    requires Inv(s) && s.queue != []
    ensures var id := s.queue[0].item;
            Run(s, TurnEvents(s, t)).processing ==
              if IsCancelled(t.build) then s.processing[id := s.queue[0].priority] else s.processing
  {
    var id := s.queue[0].item;
    TurnUnfolds(s, t);
    ArrivalsOnlyWait(Step(s, Take), t.arrivals);
    VerdictClears(Run(Step(s, Take), Arrivals(t.arrivals)), id, t.build);
    assert id !in s.processing;
    assert s.processing[id := s.queue[0].priority] - {id} == s.processing;
  }

  lemma VerdictClears(s: State, id: string, b: Build)
    requires id in s.processing
    ensures Run(s, Verdict(id, b)).processing == if IsCancelled(b) then s.processing else s.processing - {id}
  {
    if !IsCancelled(b) {
      RunOne(s, Report(id, b));
    }
  }

  /** A worker that is not cancelled leaves nothing of its own in processing. */
  lemma {:induction false} WorkerLeavesNothing(s: State, turns: seq<Turn>)
    requires Inv(s) && Valid(s, WorkerEvents(s, turns)) && NoneCancelled(turns)
    ensures Run(s, WorkerEvents(s, turns)).processing == s.processing
    decreases |turns|
  {
    if turns == [] {
    } else {
      var t := turns[0];
      var es := TurnEvents(s, t);
      RunAppend(s, es, WorkerEvents(Run(s, es), turns[1..]));
      RunInv(s, es);
      if s.queue != [] {
        TurnEnds(s, t);
      } else {
        TurnUnfolds(s, t);
        ArrivalsOnlyWait(Step(s, Take), t.arrivals);
      }
      WorkerLeavesNothing(Run(s, es), turns[1..]);
    }
  }

  lemma {:induction false} WorkerAppend(s: State, before: seq<Turn>, more: seq<Turn>)
    requires NoneCancelled(before)
    ensures WorkerEvents(s, before + more) ==
            WorkerEvents(s, before) + WorkerEvents(Run(s, WorkerEvents(s, before)), more)
    decreases |before|
  {
    if before == [] {
      assert before + more == more;
      assert WorkerEvents(s, more) == [] + WorkerEvents(s, more);
    } else {
      var t, later := before[0], before[1..];
      var es := TurnEvents(s, t);
      var s1 := Run(s, es);
      var a := WorkerEvents(s1, later);
      var b := WorkerEvents(Run(s1, a), more);
      assert before == [t] + later && before + more == [t] + (later + more);
      WorkerUnfolds(s, t, later);
      WorkerUnfolds(s, t, later + more);
      WorkerAppend(s1, later, more);
      RunAppend(s, es, a);
      Associate(es, a, b);
    }
  }

  lemma WorkerUnfolds(s: State, t: Turn, turns: seq<Turn>)
    requires !IsCancelled(t.build)
    ensures var es := TurnEvents(s, t); WorkerEvents(s, [t] + turns) == es + WorkerEvents(Run(s, es), turns)
  {
    assert ([t] + turns)[0] == t && ([t] + turns)[1..] == turns;
  }

  lemma WorkerDies(s: State, t: Turn, turns: seq<Turn>)
    requires IsCancelled(t.build) && s.queue != []
    ensures WorkerEvents(s, [t] + turns) == [Take] + Arrivals(t.arrivals)
  {
    assert ([t] + turns)[0] == t;
    var es := TurnEvents(s, t);
    assert es == [Take] + Arrivals(t.arrivals);
    assert WorkerEvents(s, [t] + turns) == es + [];
  }

  lemma Associate(a: seq<Event>, b: seq<Event>, c: seq<Event>)
    ensures a + (b + c) == (a + b) + c
  {
  }

  /** The first build that is cancelled ends the worker: it took the job, let others push, and does nothing more. */
  lemma {:induction false} CancelledWorkerStops(s: State, before: seq<Turn>, t: Turn, rest: seq<Turn>)
    requires NoneCancelled(before) && t.build.compile.Cancelled?
    requires Run(s, WorkerEvents(s, before)).queue != []
    ensures WorkerEvents(s, before + ([t] + rest)) == WorkerEvents(s, before) + ([Take] + Arrivals(t.arrivals))
  {
    WorkerAppend(s, before, [t] + rest);
    WorkerDies(Run(s, WorkerEvents(s, before)), t, rest);
  }

  /** One worker that is not cancelled serves every job at priority 10 or better within a number of turns known beforehand,
      however the builds end and whatever arrives meanwhile that is no more urgent. */
  lemma {:induction false} WorkerServes(s: State, turns: seq<Turn>, id: string)
    requires Inv(s) && Valid(s, WorkerEvents(s, turns)) && NoneCancelled(turns)
    requires id in Ids(s.queue) && PriorityOf(s, id) <= 10
    requires NoneMoreUrgent(WorkerEvents(s, turns), PriorityOf(s, id))
    requires |turns| > Rank(s, id)
    ensures id in Taken(s, WorkerEvents(s, turns))
  {
    OneTakeATurn(s, turns);
    NoStarvation(s, WorkerEvents(s, turns), id);
  }
}
