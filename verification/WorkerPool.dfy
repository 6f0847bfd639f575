// runWorkers in cmd/sentinel/probe.go as a transition system: a closed job queue, a fixed set of
// workers, a bounded result channel, a goroutine that closes it, and a reader that may or may not
// run. One action is one visible step of one goroutine; any interleaving is a run.
module WorkerPool {

  datatype Worker<J, R> =
    | Idle                             // about to receive from the job queue
    | Busy(job: J, pending: seq<R>)    // has probed job, still has to send pending
    | Exited                           // saw the queue closed and empty

  datatype Pool<J, R> = Pool(
    queue: seq<J>,
    workers: seq<Worker<J, R>>,
    finished: seq<J>,
    channel: seq<R>,
    closed: bool,
    delivered: seq<R>
  )

  datatype Action = Take(w: nat) | Send(w: nat) | Finish(w: nat) | Quit(w: nat) | Close | Receive

  function Start<J, R>(jobs: seq<J>, concurrency: nat): Pool<J, R> {
    Pool(jobs, seq(concurrency, _ => Idle), [], [], false, [])
  }

  predicate AllExited<J, R>(s: Pool<J, R>) {
    forall w :: 0 <= w < |s.workers| ==> s.workers[w].Exited?
  }

  predicate Enabled<J, R>(s: Pool<J, R>, capacity: nat, a: Action) {
    match a
    case Take(w) => w < |s.workers| && s.workers[w].Idle? && s.queue != []
    case Send(w) => w < |s.workers| && s.workers[w].Busy? && s.workers[w].pending != [] && |s.channel| < capacity
    case Finish(w) => w < |s.workers| && s.workers[w].Busy? && s.workers[w].pending == []
    case Quit(w) => w < |s.workers| && s.workers[w].Idle? && s.queue == []
    case Close => AllExited(s) && !s.closed
    case Receive => s.channel != []
  }

  function Step<J, R>(s: Pool<J, R>, probe: J -> seq<R>, a: Action): Pool<J, R>
    requires exists capacity :: Enabled(s, capacity, a)
  {
    match a
    case Take(w) =>
      s.(queue := s.queue[1..], workers := s.workers[w := Busy(s.queue[0], probe(s.queue[0]))])
    case Send(w) =>
      var b := s.workers[w];
      s.(workers := s.workers[w := Busy(b.job, b.pending[1..])], channel := s.channel + [b.pending[0]])
    case Finish(w) =>
      s.(workers := s.workers[w := Idle], finished := s.finished + [s.workers[w].job])
    case Quit(w) =>
      s.(workers := s.workers[w := Exited])
    case Close =>
      s.(closed := true)
    case Receive =>
      s.(channel := s.channel[1..], delivered := s.delivered + [s.channel[0]])
  }

  // ---------------------------------------------------------------- what is where

  function ResultsOf<J, R>(jobs: seq<J>, probe: J -> seq<R>): seq<R> {
    if jobs == [] then [] else probe(jobs[0]) + ResultsOf(jobs[1..], probe)
  }

  ghost function Occurrences<T>(s: seq<T>, x: T): nat {
    multiset(s)[x]
  }

  // How often x is among the jobs being probed right now.
  ghost function InFlight<J, R>(ws: seq<Worker<J, R>>, x: J): nat {
    if ws == [] then 0
    else (if ws[0].Busy? && ws[0].job == x then 1 else 0) + InFlight(ws[1..], x)
  }

  // How often r is among the results that workers still have to send.
  ghost function Unsent<J, R>(ws: seq<Worker<J, R>>, r: R): nat {
    if ws == [] then 0
    else (if ws[0].Busy? then Occurrences(ws[0].pending, r) else 0) + Unsent(ws[1..], r)
  }

  ghost function JobsAccounted<J, R>(s: Pool<J, R>, x: J): nat {
    Occurrences(s.queue, x) + InFlight(s.workers, x) + Occurrences(s.finished, x)
  }

  ghost function ResultsAccounted<J, R>(s: Pool<J, R>, probe: J -> seq<R>, r: R): nat {
    Occurrences(ResultsOf(s.queue, probe), r) + Unsent(s.workers, r) + Occurrences(s.channel, r) + Occurrences(s.delivered, r)
  }

  function PendingCount<J, R>(ws: seq<Worker<J, R>>): nat {
    if ws == [] then 0
    else (if ws[0].Busy? then |ws[0].pending| else 0) + PendingCount(ws[1..])
  }

  // The number of results that exist or will exist; it never changes.
  function Volume<J, R>(s: Pool<J, R>, probe: J -> seq<R>): nat {
    |ResultsOf(s.queue, probe)| + PendingCount(s.workers) + |s.channel| + |s.delivered|
  }

  ghost predicate Invariant<J(!new), R(!new)>(s: Pool<J, R>, jobs: seq<J>, probe: J -> seq<R>) {
    && (forall x :: JobsAccounted(s, x) == Occurrences(jobs, x))
    && (forall r :: ResultsAccounted(s, probe, r) == Occurrences(ResultsOf(jobs, probe), r))
    && Volume(s, probe) == |ResultsOf(jobs, probe)|
    && (s.closed ==> AllExited(s))
    && (forall w :: 0 <= w < |s.workers| && s.workers[w].Exited? ==> s.queue == [])
  }

  // ---------------------------------------------------------------- preservation

  lemma {:induction false} InFlightUpdate<J, R>(ws: seq<Worker<J, R>>, i: nat, w: Worker<J, R>, x: J)
    requires i < |ws|
    ensures InFlight(ws[i := w], x) + InFlight([ws[i]], x) == InFlight(ws, x) + InFlight([w], x)
  {
    if i == 0 {
      assert ws[i := w][1..] == ws[1..];
    } else {
      assert ws[i := w][1..] == ws[1..][i - 1 := w];
      InFlightUpdate(ws[1..], i - 1, w, x);
    }
  }

  lemma {:induction false} UnsentUpdate<J, R>(ws: seq<Worker<J, R>>, i: nat, w: Worker<J, R>, r: R)
    requires i < |ws|
    ensures Unsent(ws[i := w], r) + Unsent([ws[i]], r) == Unsent(ws, r) + Unsent([w], r)
  {
    if i == 0 {
      assert ws[i := w][1..] == ws[1..];
    } else {
      assert ws[i := w][1..] == ws[1..][i - 1 := w];
      UnsentUpdate(ws[1..], i - 1, w, r);
    }
  }

  lemma {:induction false} PendingUpdate<J, R>(ws: seq<Worker<J, R>>, i: nat, w: Worker<J, R>)
    requires i < |ws|
    ensures PendingCount(ws[i := w]) + PendingCount([ws[i]]) == PendingCount(ws) + PendingCount([w])
  {
    if i == 0 {
      assert ws[i := w][1..] == ws[1..];
    } else {
      assert ws[i := w][1..] == ws[1..][i - 1 := w];
      PendingUpdate(ws[1..], i - 1, w);
    }
  }

  lemma {:induction false} NobodyBusy<J, R>(ws: seq<Worker<J, R>>, x: J)
    requires forall i :: 0 <= i < |ws| ==> !ws[i].Busy?
    ensures InFlight(ws, x) == 0
  {
    if ws != [] {
      NobodyBusy(ws[1..], x);
    }
  }

  lemma {:induction false} NothingUnsent<J, R>(ws: seq<Worker<J, R>>, r: R)
    requires forall i :: 0 <= i < |ws| ==> !ws[i].Busy?
    ensures Unsent(ws, r) == 0
  {
    if ws != [] {
      NothingUnsent(ws[1..], r);
    }
  }

  lemma HeadTail<T>(s: seq<T>, x: T)
    requires s != []
    ensures Occurrences(s, x) == Occurrences(s[1..], x) + (if s[0] == x then 1 else 0)
  {
    assert s == [s[0]] + s[1..];
  }

  // One step moves jobs and results around without losing or inventing any.
  lemma {:induction false} StepKeepsJobs<J, R>(s: Pool<J, R>, probe: J -> seq<R>, capacity: nat, a: Action, x: J)
    requires Enabled(s, capacity, a)
    ensures JobsAccounted(Step(s, probe, a), x) == JobsAccounted(s, x)
  {
    match a
    case Take(w) =>
      InFlightUpdate(s.workers, w, Busy(s.queue[0], probe(s.queue[0])), x);
      HeadTail(s.queue, x);
    case Send(w) => InFlightUpdate(s.workers, w, Busy(s.workers[w].job, s.workers[w].pending[1..]), x);
    case Finish(w) => InFlightUpdate(s.workers, w, Idle, x);
    case Quit(w) => InFlightUpdate(s.workers, w, Exited, x);
    case Close =>
    case Receive =>
  }

  lemma {:induction false} TakeKeepsResults<J, R>(s: Pool<J, R>, probe: J -> seq<R>, capacity: nat, w: nat, r: R)
    requires Enabled(s, capacity, Take(w))
    ensures ResultsAccounted(Step(s, probe, Take(w)), probe, r) == ResultsAccounted(s, probe, r)
  {
    UnsentUpdate(s.workers, w, Busy(s.queue[0], probe(s.queue[0])), r);
  }

  lemma {:induction false} SendKeepsResults<J, R>(s: Pool<J, R>, probe: J -> seq<R>, capacity: nat, w: nat, r: R)
    requires Enabled(s, capacity, Send(w))
    ensures ResultsAccounted(Step(s, probe, Send(w)), probe, r) == ResultsAccounted(s, probe, r)
  {
    UnsentUpdate(s.workers, w, Busy(s.workers[w].job, s.workers[w].pending[1..]), r);
    HeadTail(s.workers[w].pending, r);
  }

  lemma {:induction false} StepKeepsResults<J, R>(s: Pool<J, R>, probe: J -> seq<R>, capacity: nat, a: Action, r: R)
    requires Enabled(s, capacity, a)
    ensures ResultsAccounted(Step(s, probe, a), probe, r) == ResultsAccounted(s, probe, r)
  {
    match a
    case Take(w) => TakeKeepsResults(s, probe, capacity, w, r);
    case Send(w) => SendKeepsResults(s, probe, capacity, w, r);
    case Finish(w) => UnsentUpdate(s.workers, w, Idle, r);
    case Quit(w) => UnsentUpdate(s.workers, w, Exited, r);
    case Close =>
    case Receive => HeadTail(s.channel, r);
  }

  lemma StepKeepsVolume<J, R>(s: Pool<J, R>, probe: J -> seq<R>, capacity: nat, a: Action)
    requires Enabled(s, capacity, a)
    ensures Volume(Step(s, probe, a), probe) == Volume(s, probe)
  {
    match a
    case Take(w) => PendingUpdate(s.workers, w, Busy(s.queue[0], probe(s.queue[0])));
    case Send(w) => PendingUpdate(s.workers, w, Busy(s.workers[w].job, s.workers[w].pending[1..]));
    case Finish(w) => PendingUpdate(s.workers, w, Idle);
    case Quit(w) => PendingUpdate(s.workers, w, Exited);
    case Close =>
    case Receive =>
  }

  lemma StepPreserves<J(!new), R(!new)>(s: Pool<J, R>, jobs: seq<J>, probe: J -> seq<R>, capacity: nat, a: Action)
    requires Invariant(s, jobs, probe) && Enabled(s, capacity, a)
    ensures Invariant(Step(s, probe, a), jobs, probe)
  {
    var t := Step(s, probe, a);
    forall x ensures JobsAccounted(t, x) == Occurrences(jobs, x) {
      StepKeepsJobs(s, probe, capacity, a, x);
    }
    forall r ensures ResultsAccounted(t, probe, r) == Occurrences(ResultsOf(jobs, probe), r) {
      StepKeepsResults(s, probe, capacity, a, r);
    }
    StepKeepsVolume(s, probe, capacity, a);
  }

  lemma StartInvariant<J(!new), R(!new)>(jobs: seq<J>, concurrency: nat, probe: J -> seq<R>)
    ensures Invariant(Start(jobs, concurrency), jobs, probe)
  {
    var s: Pool<J, R> := Start(jobs, concurrency);
    forall x ensures JobsAccounted(s, x) == Occurrences(jobs, x) {
      NobodyBusy(s.workers, x);
    }
    forall r ensures ResultsAccounted(s, probe, r) == Occurrences(ResultsOf(jobs, probe), r) {
      NothingUnsent(s.workers, r);
    }
    NoPending(s.workers);
  }

  lemma {:induction false} NoPending<J, R>(ws: seq<Worker<J, R>>)
    requires forall i :: 0 <= i < |ws| ==> !ws[i].Busy?
    ensures PendingCount(ws) == 0
  {
    if ws != [] {
      NoPending(ws[1..]);
    }
  }

  // ---------------------------------------------------------------- runs

  ghost predicate IsRun<J, R>(jobs: seq<J>, concurrency: nat, probe: J -> seq<R>, actions: seq<Action>, states: seq<Pool<J, R>>) {
    && |states| == |actions| + 1
    && states[0] == Start(jobs, concurrency)
    && forall i :: 0 <= i < |actions| ==>
         Enabled(states[i], 2 * |jobs|, actions[i]) && states[i + 1] == Step(states[i], probe, actions[i])
  }

  // In every reachable state each job is queued, in flight or finished, exactly once.
  lemma {:induction false} RunInvariant<J(!new), R(!new)>(
    jobs: seq<J>, concurrency: nat, probe: J -> seq<R>, actions: seq<Action>, states: seq<Pool<J, R>>, i: nat)
    requires IsRun(jobs, concurrency, probe, actions, states) && i < |states|
    ensures Invariant(states[i], jobs, probe)
    ensures |states[i].workers| == concurrency
  {
    if i == 0 {
      StartInvariant(jobs, concurrency, probe);
    } else {
      RunInvariant(jobs, concurrency, probe, actions, states, i - 1);
      StepPreserves(states[i - 1], jobs, probe, 2 * |jobs|, actions[i - 1]);
    }
  }

  lemma {:induction false} ResultsBound<J, R>(jobs: seq<J>, probe: J -> seq<R>)
    requires forall j :: j in jobs ==> |probe(j)| <= 2
    ensures |ResultsOf(jobs, probe)| <= 2 * |jobs|
  {
    if jobs != [] {
      ResultsBound(jobs[1..], probe);
    }
  }

  lemma {:induction false} PendingHolds<J, R>(ws: seq<Worker<J, R>>, w: nat)
    requires w < |ws| && ws[w].Busy?
    ensures PendingCount(ws) >= |ws[w].pending|
    ensures InFlight(ws, ws[w].job) > 0
  {
    if w > 0 {
      PendingHolds(ws[1..], w - 1);
    }
  }

  // A worker that wants to send always finds room, even if nobody ever reads; and it never sends
  // on a closed channel.
  lemma SendNeverBlocks<J(!new), R(!new)>(
    jobs: seq<J>, concurrency: nat, probe: J -> seq<R>, actions: seq<Action>, states: seq<Pool<J, R>>, i: nat, w: nat)
    requires forall j :: j in jobs ==> |probe(j)| <= 2
    requires IsRun(jobs, concurrency, probe, actions, states) && i < |states|
    requires w < |states[i].workers| && states[i].workers[w].Busy? && states[i].workers[w].pending != []
    ensures Enabled(states[i], 2 * |jobs|, Send(w))
    ensures !states[i].closed
  {
    RunInvariant(jobs, concurrency, probe, actions, states, i);
    ResultsBound(jobs, probe);
    PendingHolds(states[i].workers, w);
  }

  // ---------------------------------------------------------------- termination

  function WorkerCost<J, R>(w: Worker<J, R>): nat {
    match w
    case Idle => 1
    case Busy(_, pending) => 2 + 2 * |pending|
    case Exited => 0
  }

  function WorkersCost<J, R>(ws: seq<Worker<J, R>>): nat {
    if ws == [] then 0 else WorkerCost(ws[0]) + WorkersCost(ws[1..])
  }

  function QueueCost<J, R>(jobs: seq<J>, probe: J -> seq<R>): nat {
    if jobs == [] then 0 else 2 + 2 * |probe(jobs[0])| + QueueCost(jobs[1..], probe)
  }

  function Measure<J, R>(s: Pool<J, R>, probe: J -> seq<R>): nat {
    QueueCost(s.queue, probe) + WorkersCost(s.workers) + |s.channel| + (if s.closed then 0 else 1)
  }

  lemma {:induction false} CostUpdate<J, R>(ws: seq<Worker<J, R>>, i: nat, w: Worker<J, R>)
    requires i < |ws|
    ensures WorkersCost(ws[i := w]) + WorkerCost(ws[i]) == WorkersCost(ws) + WorkerCost(w)
  {
    if i == 0 {
      assert ws[i := w][1..] == ws[1..];
    } else {
      assert ws[i := w][1..] == ws[1..][i - 1 := w];
      CostUpdate(ws[1..], i - 1, w);
    }
  }

  lemma StepDecreases<J, R>(s: Pool<J, R>, probe: J -> seq<R>, capacity: nat, a: Action)
    requires Enabled(s, capacity, a)
    ensures Measure(Step(s, probe, a), probe) < Measure(s, probe)
  {
    match a
    case Take(w) => CostUpdate(s.workers, w, Busy(s.queue[0], probe(s.queue[0])));
    case Send(w) => CostUpdate(s.workers, w, Busy(s.workers[w].job, s.workers[w].pending[1..]));
    case Finish(w) => CostUpdate(s.workers, w, Idle);
    case Quit(w) => CostUpdate(s.workers, w, Exited);
    case Close =>
    case Receive =>
  }

  // No run is longer than the measure of its start state.
  lemma {:induction false} RunsAreBounded<J, R>(
    jobs: seq<J>, concurrency: nat, probe: J -> seq<R>, actions: seq<Action>, states: seq<Pool<J, R>>, i: nat)
    requires IsRun(jobs, concurrency, probe, actions, states) && i < |states|
    ensures i + Measure(states[i], probe) <= Measure(Start(jobs, concurrency), probe)
  {
    if i > 0 {
      RunsAreBounded(jobs, concurrency, probe, actions, states, i - 1);
      StepDecreases(states[i - 1], probe, 2 * |jobs|, actions[i - 1]);
    }
  }

  // A state from which nothing can happen: the channel is closed and drained, every job was probed
  // exactly once and every result was delivered. It needs at least one worker.
  lemma StuckMeansDone<J(!new), R(!new)>(s: Pool<J, R>, jobs: seq<J>, probe: J -> seq<R>)
    requires Invariant(s, jobs, probe) && |s.workers| >= 1
    requires forall j :: j in jobs ==> |probe(j)| <= 2
    requires forall a :: !Enabled(s, 2 * |jobs|, a)
    ensures s.closed && s.channel == []
    ensures multiset(s.finished) == multiset(jobs)
    ensures multiset(s.delivered) == multiset(ResultsOf(jobs, probe))
  {
    assert !Enabled(s, 2 * |jobs|, Receive) && !Enabled(s, 2 * |jobs|, Close);
    forall w: nat | w < |s.workers| ensures s.workers[w].Exited? {
      StuckWorker(s, jobs, probe, w);
    }
    assert s.workers[0].Exited?;
    NothingLeft(s, jobs, probe);
  }

  // A worker that cannot move has exited: a busy one could finish or send, an idle one take or quit.
  lemma StuckWorker<J(!new), R(!new)>(s: Pool<J, R>, jobs: seq<J>, probe: J -> seq<R>, w: nat)
    requires Invariant(s, jobs, probe) && w < |s.workers| && s.channel == []
    requires !Enabled(s, 2 * |jobs|, Take(w)) && !Enabled(s, 2 * |jobs|, Quit(w))
    requires !Enabled(s, 2 * |jobs|, Finish(w)) && !Enabled(s, 2 * |jobs|, Send(w))
    ensures s.workers[w].Exited?
  {
    if s.workers[w].Busy? {
      var job := s.workers[w].job;
      assert JobsAccounted(s, job) == Occurrences(jobs, job);
      PendingHolds(s.workers, w);
    }
  }

  lemma NothingLeft<J(!new), R(!new)>(s: Pool<J, R>, jobs: seq<J>, probe: J -> seq<R>)
    requires Invariant(s, jobs, probe) && AllExited(s) && s.queue == [] && s.channel == []
    ensures multiset(s.finished) == multiset(jobs)
    ensures multiset(s.delivered) == multiset(ResultsOf(jobs, probe))
  {
    forall x ensures multiset(s.finished)[x] == multiset(jobs)[x] {
      NobodyBusy(s.workers, x);
      assert JobsAccounted(s, x) == Occurrences(jobs, x);
    }
    forall r ensures multiset(s.delivered)[r] == multiset(ResultsOf(jobs, probe))[r] {
      NothingUnsent(s.workers, r);
      assert ResultsAccounted(s, probe, r) == Occurrences(ResultsOf(jobs, probe), r);
    }
  }

  // Every maximal run, under every interleaving, delivers the same multiset of results.
  lemma EveryMaximalRunDelivers<J(!new), R(!new)>(
    jobs: seq<J>, concurrency: nat, probe: J -> seq<R>, actions: seq<Action>, states: seq<Pool<J, R>>)
    requires concurrency >= 1
    requires forall j :: j in jobs ==> |probe(j)| <= 2
    requires IsRun(jobs, concurrency, probe, actions, states)
    requires forall a :: !Enabled(states[|actions|], 2 * |jobs|, a)
    ensures states[|actions|].closed && states[|actions|].channel == []
    ensures multiset(states[|actions|].finished) == multiset(jobs)
    ensures multiset(states[|actions|].delivered) == multiset(ResultsOf(jobs, probe))
    ensures |actions| <= Measure(Start(jobs, concurrency), probe)
  {
    RunInvariant(jobs, concurrency, probe, actions, states, |actions|);
    RunsAreBounded(jobs, concurrency, probe, actions, states, |actions|);
    StuckMeansDone(states[|actions|], jobs, probe);
  }

  // With no worker at all the closer fires at once and every job is lost.
  lemma NoWorkersLoseEverything<J, R>(jobs: seq<J>, probe: J -> seq<R>)
    requires jobs != []
    ensures Enabled(Start<J, R>(jobs, 0), 2 * |jobs|, Close)
    ensures forall a :: !Enabled(Step(Start<J, R>(jobs, 0), probe, Close), 2 * |jobs|, a)
    ensures Step(Start<J, R>(jobs, 0), probe, Close).delivered == []
  {
  }

  // ---------------------------------------------------------------- running the pool

  ghost predicate CanStep<J, R>(s: Pool<J, R>, capacity: nat) {
    exists a :: Enabled(s, capacity, a)
  }

  // The channel is not yet closed and drained, or some worker is still running.
  predicate CanMove<J, R>(s: Pool<J, R>) {
    || s.channel != [] || !s.closed
    || exists w :: 0 <= w < |s.workers| && !s.workers[w].Exited?
  }

  lemma MovesOrDone<J(!new), R(!new)>(s: Pool<J, R>, jobs: seq<J>, probe: J -> seq<R>)
    requires Invariant(s, jobs, probe) && |s.workers| >= 1 && !CanMove(s)
    ensures multiset(s.delivered) == multiset(ResultsOf(jobs, probe))
  {
    assert s.workers[0].Exited?;
    NothingLeft(s, jobs, probe);
  }

  // A scheduler picks some enabled action whenever there is one.
  ghost predicate Schedules<J(!new), R(!new)>(schedule: (Pool<J, R>, nat) -> Action) {
    forall s, capacity :: CanStep(s, capacity) ==> Enabled(s, capacity, schedule(s, capacity))
  }

  // runWorkers together with its reader, under an arbitrary scheduler.
  method RunWorkers<J(!new), R(!new)>(jobs: seq<J>, concurrency: nat, probe: J -> seq<R>, schedule: (Pool<J, R>, nat) -> Action)
    returns (results: seq<R>)
    requires concurrency >= 1
    requires Schedules(schedule)
    requires forall j :: j in jobs ==> |probe(j)| <= 2
    ensures multiset(results) == multiset(ResultsOf(jobs, probe))
  {
    var s := Start<J, R>(jobs, concurrency);
    StartInvariant(jobs, concurrency, probe);
    while CanMove(s)
      invariant Invariant(s, jobs, probe) && |s.workers| == concurrency
      decreases Measure(s, probe)
    {
      SomethingEnabled(s, jobs, probe);
      var a := schedule(s, 2 * |jobs|);
      StepPreserves(s, jobs, probe, 2 * |jobs|, a);
      StepDecreases(s, probe, 2 * |jobs|, a);
      s := Step(s, probe, a);
    }
    MovesOrDone(s, jobs, probe);
    results := s.delivered;
  }

  // The pool never deadlocks: until it is closed and drained some goroutine can take a step.
  lemma SomethingEnabled<J(!new), R(!new)>(s: Pool<J, R>, jobs: seq<J>, probe: J -> seq<R>)
    requires Invariant(s, jobs, probe) && CanMove(s)
    requires forall j :: j in jobs ==> |probe(j)| <= 2
    ensures CanStep(s, 2 * |jobs|)
  {
    if s.channel != [] {
      assert Enabled(s, 2 * |jobs|, Receive);
    } else if AllExited(s) {
      assert Enabled(s, 2 * |jobs|, Close);
    } else {
      var w: nat :| w < |s.workers| && !s.workers[w].Exited?;
      if forall a :: !Enabled(s, 2 * |jobs|, a) {
        assert !Enabled(s, 2 * |jobs|, Take(w)) && !Enabled(s, 2 * |jobs|, Quit(w));
        assert !Enabled(s, 2 * |jobs|, Finish(w)) && !Enabled(s, 2 * |jobs|, Send(w));
        StuckWorker(s, jobs, probe, w);
      }
    }
  }
}
