/** Graceful shutdown: whatever the schedule, live workers take every key dirty at shutdown exactly
    once more, in a number of moves known beforehand, and end with an empty, idle queue. */
module QueueDrain {
  import opened Sequences
  import opened Queue
  import opened QueueWorkers

  predicate Moves(w: World, c: Choice) { (c.Get? || c.Done?) && Enabled(w, c) }

  /** No worker is cancelled and the shutdown stays a graceful one. */
  predicate Graceful(choices: seq<Choice>) { forall c <- choices :: !c.Cancel? && c != Shutdown(true) }

  ghost predicate Draining(w: World) { Inv(w) && w.q.closed && !w.q.immediate }

  /** While a key is dirty somebody is left to take it. */
  predicate Staffed(w: World) {
    w.q.dirty != {} ==> exists i :: 0 <= i < |w.workers| && !w.workers[i].Exited?
  }

  function Weight(worker: Worker): nat { if worker.Exited? then 0 else if worker.Working? then 2 else 1 }

  /** The moves that a drain still takes. */
  function Remaining(w: World): nat { 2 * |w.q.dirty| + Sum(w.workers, Weight) }

  lemma WeightsWake(workers: seq<Worker>)
    ensures Sum(Wake(workers), Weight) == Sum(workers, Weight)
  {
    SumAtMost(workers, Weight, Wake(workers), Weight);
    SumAtMost(Wake(workers), Weight, workers, Weight);
  }

  /** After the shutdown, calls change nothing. */
  lemma CallsIgnored(w: World, c: Choice)
    requires Draining(w) && Call(c) && Enabled(w, c) && c != Shutdown(true)
    ensures Step(w, c) == w
  {
    assert Called(w, c) == w.q;
    assert Wake(w.workers) == w.workers;
  }

  /** A key in flight keeps its worker whatever happens to another one. */
  lemma SomeoneStays(w: World, i: nat, worker: Worker) returns (j: nat)
    requires Draining(w) && i < |w.workers| && w.workers[i].AtGet? && w.q.processing != {}
    ensures j < |w.workers| && !Wake(w.workers[i := worker])[j].Exited?
  {
    var key :| key in w.q.processing;
    assert Working(key) in w.workers;
    j :| 0 <= j < |w.workers| && w.workers[j] == Working(key);
    assert Wake(w.workers[i := worker])[j] == w.workers[j];
  }

  lemma GetWeight(w: World, i: nat, worker: Worker)
    requires i < |w.workers| && w.workers[i].AtGet?
    ensures Sum(Wake(w.workers[i := worker]), Weight) + 1 == Sum(w.workers, Weight) + Weight(worker)
  {
    SumUpdate(w.workers, i, worker, Weight);
    WeightsWake(w.workers[i := worker]);
  }

  /** Whoever finds nothing ready while a key is dirty leaves the worker behind that has the key. */
  lemma DrainGet(w: World, i: nat)
    requires Draining(w) && Enabled(w, Get(i))
    ensures var after := StepGet(w, i);
            && Draining(after) && Remaining(after) + 1 == Remaining(w) && (Staffed(w) ==> Staffed(after))
            && after.q.dirty == (if w.q.ready == [] then w.q.dirty else w.q.dirty - {w.q.ready[0]})
  {
    GetKeeps(w, i);
    var (q, answer) := OnGet(w.q);
    GetConsistent(w.q);
    var worker := if answer.Got? then Working(answer.key) else Exited;
    GetWeight(w, i, worker);
    if answer.Got? {
      assert |q.dirty| == |w.q.dirty| - 1;
      assert Wake(w.workers[i := worker])[i] == worker;
    } else if q.dirty != {} {
      var key :| key in q.dirty;
      var j := SomeoneStays(w, i, worker);
    }
  }

  lemma DrainDone(w: World, i: nat)
    requires Draining(w) && Enabled(w, Done(i))
    ensures var after := StepDone(w, i, AtGet);
            Draining(after) && Remaining(after) + 1 == Remaining(w) && Staffed(after) && after.q.dirty == w.q.dirty
  {
    DoneKeeps(w, i, AtGet);
    var workers := w.workers[i := AtGet];
    SumUpdate(w.workers, i, AtGet, Weight);
    WeightsWake(workers);
    assert Wake(workers)[i] == AtGet && workers[i] == AtGet;
  }

  function Has(keys: set<Key>, key: Key): nat { if key in keys then 1 else 0 }

  /** One step of a drain: a move uses up one unit of what remains, anything else nothing; a key
      leaves the dirty set exactly when it is taken. */
  lemma DrainStep(w: World, c: Choice, key: Key)
    requires Draining(w) && !c.Cancel? && c != Shutdown(true)
    ensures var after := Step(w, c);
            && Draining(after) && (Staffed(w) ==> Staffed(after))
            && Remaining(after) + (if Moves(w, c) then 1 else 0) == Remaining(w)
            && Has(after.q.dirty, key) + (if TakesNow(w, c, key) then 1 else 0) == Has(w.q.dirty, key)
  {
    if Enabled(w, c) {
      match c
      case Tick(_) =>
      case Get(i) =>
        DrainGet(w, i);
        assert w.q.ready != [] ==> w.q.ready[0] in w.q.ready;
      case Done(i) => DrainDone(w, i);
      case _ => CallsIgnored(w, c);
    }
  }

  function MovesMade(w: World, choices: seq<Choice>): nat
    decreases |choices|
  {
    if choices == [] then 0 else (if Moves(w, choices[0]) then 1 else 0) + MovesMade(Step(w, choices[0]), choices[1..])
  }

  lemma {:induction false} DrainRun(w: World, choices: seq<Choice>, key: Key)
    requires Draining(w) && Staffed(w) && Graceful(choices)
    ensures var end := Run(w, choices);
            && Draining(end) && Staffed(end)
            && Remaining(end) + MovesMade(w, choices) == Remaining(w)
            && Has(end.q.dirty, key) + Takes(w, choices, key) == Has(w.q.dirty, key)
    decreases |choices|
  {
    if choices != [] {
      assert choices[0] in choices;
      DrainStep(w, choices[0], key);
      DrainRun(Step(w, choices[0]), choices[1..], key);
    }
  }

  ghost predicate Stuck(w: World) {
    forall i: nat | i < |w.workers| :: !Moves(w, Get(i)) && !Moves(w, Done(i))
  }

  predicate AllExited(workers: seq<Worker>) { forall i :: 0 <= i < |workers| ==> workers[i].Exited? }

  predicate Drained(w: World) {
    w.q.Empty() && w.q.ready == [] && w.q.idle && AllExited(w.workers)
  }

  lemma {:induction false} NothingLeft(workers: seq<Worker>)
    requires AllExited(workers)
    ensures Sum(workers, Weight) == 0
  {
    if workers != [] { NothingLeft(workers[..|workers| - 1]); }
  }

  lemma Inhabited(keys: seq<Key>)
    ensures keys != [] ==> exists k :: k in keys
  {
    if keys != [] { assert keys[0] in keys; }
  }

  lemma ExitedIsDrained(w: World)
    requires Draining(w) && Staffed(w) && AllExited(w.workers)
    ensures Drained(w) && Remaining(w) == 0
  {
    NothingLeft(w.workers);
    forall k ensures k !in w.q.processing { assert Working(k) !in w.workers; }
    assert w.q.processing == {} && w.q.dirty == {};
    Inhabited(w.q.ready);
  }

  lemma HeldIsInFlight(w: World, i: nat)
    requires Held(w.workers, w.q.processing) && i < |w.workers| && w.workers[i].Working?
    ensures w.workers[i].key in w.q.processing
  {
    assert Working(w.workers[i].key) == w.workers[i];
  }

  /** Unless everybody has returned, somebody can move. */
  lemma SomeoneMoves(w: World, i: nat)
    requires Draining(w) && i < |w.workers| && !w.workers[i].Exited?
    ensures Moves(w, Get(i)) || Moves(w, Done(i))
  {
    if w.workers[i].Working? { HeldIsInFlight(w, i); }
  }

  /** A drain can only stop when it is complete. */
  lemma StuckIsDrained(w: World)
    requires Draining(w) && Staffed(w)
    ensures Stuck(w) <==> Drained(w)
    ensures Stuck(w) ==> Remaining(w) == 0
  {
    if Stuck(w) {
      forall i | 0 <= i < |w.workers| ensures w.workers[i].Exited? {
        if !w.workers[i].Exited? { SomeoneMoves(w, i); }
      }
      ExitedIsDrained(w);
    }
  }

  /** From every draining state the remaining moves can be made. */
  lemma {:induction false} DrainCompletes(w: World) returns (choices: seq<Choice>)
    requires Draining(w) && Staffed(w)
    ensures Graceful(choices) && |choices| == Remaining(w) && Drained(Run(w, choices))
    decreases Remaining(w)
  {
    StuckIsDrained(w);
    if Stuck(w) {
      choices := [];
    } else {
      var i: nat :| i < |w.workers| && (Moves(w, Get(i)) || Moves(w, Done(i)));
      var c := if Moves(w, Get(i)) then Get(i) else Done(i);
      DrainStep(w, c, "");
      var rest := DrainCompletes(Step(w, c));
      choices := [c] + rest;
      assert choices[1..] == rest;
    }
  }

  lemma ShutdownDrains(w: World)
    requires Inv(w) && !w.q.closed
    requires exists i :: 0 <= i < |w.workers| && !w.workers[i].Exited?
    ensures var start := Step(w, Shutdown(false));
            Draining(start) && Staffed(start) && start.q.dirty == w.q.dirty && Remaining(start) == Remaining(w)
  {
    StepKeeps(w, Shutdown(false));
    WeightsWake(w.workers);
    var i :| 0 <= i < |w.workers| && !w.workers[i].Exited?;
    assert !Wake(w.workers)[i].Exited?;
  }

  /** Graceful drain. After a shutdown with at least one live worker, every schedule makes at most
      the remaining moves; when no worker can move, all have returned, the queue is empty and idle,
      and each key was taken once if it was dirty at the shutdown and never otherwise. */
  lemma GracefulDrain(w: World, choices: seq<Choice>, key: Key)
    requires Inv(w) && !w.q.closed && Graceful(choices)
    requires exists i :: 0 <= i < |w.workers| && !w.workers[i].Exited?
    ensures var start := Step(w, Shutdown(false));
            var end := Run(start, choices);
            && Staffed(end) && MovesMade(start, choices) <= Remaining(w)
            && (MovesMade(start, choices) == Remaining(w) ==> Stuck(end))
            && (Stuck(end) ==> Drained(end) && Takes(start, choices, key) == Has(w.q.dirty, key))
            && (Stuck(end) ==> MovesMade(start, choices) == Remaining(w))
  {
    ShutdownDrains(w);
    var start := Step(w, Shutdown(false));
    DrainRun(start, choices, key);
    var end := Run(start, choices);
    StuckIsDrained(end);
    if Remaining(end) == 0 && !Stuck(end) {
      var i: nat :| i < |end.workers| && (Moves(end, Get(i)) || Moves(end, Done(i)));
      DrainStep(end, if Moves(end, Get(i)) then Get(i) else Done(i), key);
    }
  }
}
