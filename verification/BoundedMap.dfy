/**
 `bounded_map`: one task per value, all started together, each entering a shared semaphore around
 its call of the worker. Any interleaving is possible; a worker call may take any time, return a
 value or raise.
 */
module BoundedMap {
  import opened Basics

  datatype Task<O> = Waiting | Running | Returned(output: O) | Raised

  datatype State<O> = State(permits: nat, tasks: seq<Task<O>>)

  // A task enters the semaphore, or its worker call ends and it leaves.
  datatype Event = Enter(task: nat) | Leave(task: nat)

  // The semaphore's capacity.
  function Capacity(limit: int): nat { if limit < 1 then 1 else limit }

  function Start<O>(limit: int, n: nat): State<O> {
    State(Capacity(limit), seq(n, _ => Waiting))
  }

  // What the worker makes of each value; None when it raises.
  type Worker<!I, O> = I -> Option<O>

  predicate Enabled<O>(s: State<O>, e: Event) {
    match e
    case Enter(i) => i < |s.tasks| && s.tasks[i].Waiting? && s.permits > 0
    case Leave(i) => i < |s.tasks| && s.tasks[i].Running?
  }

  function Step<I, O>(values: seq<I>, worker: Worker<I, O>, s: State<O>, e: Event): State<O>
    requires |values| == |s.tasks| && Enabled(s, e)
  {
    match e
    case Enter(i) => State(s.permits - 1, s.tasks[i := Running])
    case Leave(i) =>
      var out := worker(values[i]);
      State(s.permits + 1, s.tasks[i := if out.Some? then Returned(out.value) else Raised])
  }

  // The state after a run, or None where some event of it was not possible.
  function Run<I, O>(values: seq<I>, worker: Worker<I, O>, limit: int, events: seq<Event>): (s: Option<State<O>>)
    ensures s.Some? ==> |s.value.tasks| == |values|
  {
    if events == [] then Some(Start(limit, |values|)) else
    var before := Run(values, worker, limit, events[..|events| - 1]);
    var e := events[|events| - 1];
    if before.None? || !Enabled(before.value, e) then None else Some(Step(values, worker, before.value, e))
  }

  // How many of some tasks are inside the semaphore.
  function Active<O>(tasks: seq<Task<O>>): nat {
    if tasks == [] then 0 else Active(tasks[..|tasks| - 1]) + if tasks[|tasks| - 1].Running? then 1 else 0
  }

  // Two moves lie before a waiting task, one before a running one.
  function Weight<O>(t: Task<O>): nat { match t case Waiting => 2 case Running => 1 case _ => 0 }

  function Ahead<O>(tasks: seq<Task<O>>): nat {
    if tasks == [] then 0 else Ahead(tasks[..|tasks| - 1]) + Weight(tasks[|tasks| - 1])
  }

  lemma {:induction false} ChangeOne<O>(tasks: seq<Task<O>>, i: nat, t: Task<O>)
    requires i < |tasks|
    ensures Active(tasks[i := t]) == Active(tasks) - (if tasks[i].Running? then 1 else 0) + (if t.Running? then 1 else 0)
    ensures Ahead(tasks[i := t]) == Ahead(tasks) - Weight(tasks[i]) + Weight(t)
    decreases |tasks|
  {
    var n := |tasks| - 1;
    var changed := tasks[i := t];
    if i < n {
      assert changed[..n] == tasks[..n][i := t];
      ChangeOne(tasks[..n], i, t);
    } else {
      assert changed[..n] == tasks[..n];
    }
  }

  lemma {:induction false} StartCounts<O>(limit: int, n: nat)
    ensures Active(Start<O>(limit, n).tasks) == 0 && Ahead(Start<O>(limit, n).tasks) == 2 * n
    decreases n
  {
    if n > 0 {
      StartCounts<O>(limit, n - 1);
      assert Start<O>(limit, n).tasks[..n - 1] == Start<O>(limit, n - 1).tasks;
    }
  }

  predicate Finished<O>(t: Task<O>) { t.Returned? || t.Raised? }

  // Every finished task holds what the worker made of its own value.
  ghost predicate OwnResults<I, O>(values: seq<I>, worker: Worker<I, O>, tasks: seq<Task<O>>)
    requires |tasks| == |values|
  {
    forall i :: 0 <= i < |tasks| && Finished(tasks[i]) ==>
      tasks[i] == if worker(values[i]).Some? then Returned(worker(values[i]).value) else Raised
  }

  lemma {:induction false} RunKeepsInvariant<I, O>(values: seq<I>, worker: Worker<I, O>, limit: int, events: seq<Event>)
    requires Run(values, worker, limit, events).Some?
    ensures var s := Run(values, worker, limit, events).value;
            && s.permits + Active(s.tasks) == Capacity(limit)
            && |events| + Ahead(s.tasks) == 2 * |values|
            && OwnResults(values, worker, s.tasks)
    decreases |events|
  {
    if events == [] {
      StartCounts<O>(limit, |values|);
    } else {
      var before := Run(values, worker, limit, events[..|events| - 1]).value;
      var e := events[|events| - 1];
      RunKeepsInvariant(values, worker, limit, events[..|events| - 1]);
      ChangeOne(before.tasks, e.task, Step(values, worker, before, e).tasks[e.task]);
    }
  }

  /** In every interleaving at most max(1, limit) workers are active at once. */
  lemma NeverMoreThanLimit<I, O>(values: seq<I>, worker: Worker<I, O>, limit: int, events: seq<Event>)
    requires Run(values, worker, limit, events).Some?
    ensures Active(Run(values, worker, limit, events).value.tasks) <= if limit < 1 then 1 else limit
  {
    RunKeepsInvariant(values, worker, limit, events);
  }

  // The first k tasks enter, one after another.
  function Entering(k: nat): (events: seq<Event>)
    ensures |events| == k
  {
    seq(k, (i: nat) => Enter(i))
  }

  /** And the bound is reached: as many workers as the limit allows can be active at once, if there are
      that many values. */
  lemma {:induction false} AsManyAsLimit<I, O>(values: seq<I>, worker: Worker<I, O>, limit: int, k: nat)
    requires k <= |values| && k <= if limit < 1 then 1 else limit
    ensures Run(values, worker, limit, Entering(k)).Some? && Active(Run(values, worker, limit, Entering(k)).value.tasks) == k
    ensures forall i :: 0 <= i < |values| ==> Run(values, worker, limit, Entering(k)).value.tasks[i] == if i < k then Running else Waiting
  {
    if k == 0 {
      StartCounts<O>(limit, |values|);
    } else {
      AsManyAsLimit(values, worker, limit, k - 1);
      assert Entering(k)[..k - 1] == Entering(k - 1);
      var before := Run(values, worker, limit, Entering(k - 1)).value;
      RunKeepsInvariant(values, worker, limit, Entering(k - 1));
      ChangeOne(before.tasks, k - 1, Running);
    }
  }

  lemma {:induction false} SomeoneRuns<O>(tasks: seq<Task<O>>) returns (i: nat)
    requires Active(tasks) > 0
    ensures i < |tasks| && tasks[i].Running?
    decreases |tasks|
  {
    if tasks[|tasks| - 1].Running? { i := |tasks| - 1; } else { i := SomeoneRuns(tasks[..|tasks| - 1]); }
  }

  /** Some task can always move until all are finished, provided the calls under way end. */
  lemma NeverStuck<I, O>(values: seq<I>, worker: Worker<I, O>, limit: int, events: seq<Event>) returns (e: Event)
    requires Run(values, worker, limit, events).Some?
    requires exists i :: 0 <= i < |values| && !Finished(Run(values, worker, limit, events).value.tasks[i])
    ensures Run(values, worker, limit, events + [e]).Some?
  {
    var s := Run(values, worker, limit, events).value;
    RunKeepsInvariant(values, worker, limit, events);
    if Active(s.tasks) > 0 {
      var i := SomeoneRuns(s.tasks);
      e := Leave(i);
    } else {
      var i :| 0 <= i < |values| && !Finished(s.tasks[i]);
      if s.tasks[i].Running? {
        e := Leave(i);
      } else {
        e := Enter(i);
      }
    }
    assert (events + [e])[..|events|] == events;
  }

  lemma {:induction false} NothingAhead<O>(tasks: seq<Task<O>>)
    ensures Ahead(tasks) == 0 <==> forall i :: 0 <= i < |tasks| ==> Finished(tasks[i])
    decreases |tasks|
  {
    if tasks != [] { NothingAhead(tasks[..|tasks| - 1]); }
  }

  // `gather`: the outputs in the order of the values, or None where one raised.
  function Gathered<O>(tasks: seq<Task<O>>): Option<seq<O>> {
    if tasks == [] then Some([]) else
    var front := Gathered(tasks[..|tasks| - 1]);
    if front.Some? && tasks[|tasks| - 1].Returned? then Some(front.value + [tasks[|tasks| - 1].output]) else None
  }

  lemma {:induction false} GatheredInOrder<I, O>(values: seq<I>, worker: Worker<I, O>, tasks: seq<Task<O>>)
    requires |tasks| == |values| && OwnResults(values, worker, tasks) && forall i :: 0 <= i < |tasks| ==> Finished(tasks[i])
    ensures Gathered(tasks).Some? <==> forall i :: 0 <= i < |values| ==> worker(values[i]).Some?
    ensures Gathered(tasks).Some? ==>
              |Gathered(tasks).value| == |values|
              && forall i :: 0 <= i < |values| ==> worker(values[i]) == Some(Gathered(tasks).value[i])
    decreases |tasks|
  {
    if tasks != [] {
      var n := |tasks| - 1;
      GatheredInOrder(values[..n], worker, tasks[..n]);
      assert forall i :: 0 <= i < n ==> values[..n][i] == values[i];
    }
  }

  /** Every interleaving ends after exactly two moves per value, not sooner and not later, and then the
      result at each position is what the worker made of the value at that position. */
  lemma EveryRunEndsInOrder<I, O>(values: seq<I>, worker: Worker<I, O>, limit: int, events: seq<Event>)
    requires Run(values, worker, limit, events).Some?
    ensures |events| <= 2 * |values|
    ensures var tasks := Run(values, worker, limit, events).value.tasks;
            && (|events| == 2 * |values| <==> forall i :: 0 <= i < |tasks| ==> Finished(tasks[i]))
            && (|events| == 2 * |values| ==>
                  && (Gathered(tasks).Some? <==> forall i :: 0 <= i < |values| ==> worker(values[i]).Some?)
                  && (Gathered(tasks).Some? ==>
                        |Gathered(tasks).value| == |values|
                        && forall i :: 0 <= i < |values| ==> worker(values[i]) == Some(Gathered(tasks).value[i])))
  {
    var tasks := Run(values, worker, limit, events).value.tasks;
    RunKeepsInvariant(values, worker, limit, events);
    NothingAhead(tasks);
    if |events| == 2 * |values| { GatheredInOrder(values, worker, tasks); }
  }
}
