/** The watcher's debounce: a pending set and restartable timers under one lock (internal/watch/watcher.go). */
module Watcher {
  import opened Model

  /**
   * The locked fields `pending` and `timer`, and the runtime around them: timers still armed, flushes whose timer
   * fired but which have not taken the lock yet, and batches handed to a callback that has not returned.
   */
  datatype State = State(pending: set<string>, timer: Option<nat>, armed: set<nat>, nextTimer: nat, waiting: nat,
                         running: seq<set<string>>, closed: bool)

  /** Each step is one critical section, or one act of the runtime. */
  datatype Step = Enqueue(path: string) | Fire(id: nat) | Flush | Return(call: nat) | Shutdown

  const INITIAL: State := State({}, None, {}, 0, 0, [], false)

  predicate Enabled(s: State, step: Step) {
    match step
    case Enqueue(_) => !s.closed
    case Fire(id) => id in s.armed
    case Flush => s.waiting > 0
    case Return(call) => call < |s.running|
    case Shutdown => !s.closed
  }

  function Apply(s: State, step: Step): State
    requires Enabled(s, step)
  {
    match step
    case Enqueue(path) =>
      var kept := if s.timer.Some? then s.armed - {s.timer.value} else s.armed;
      s.(pending := s.pending + {path}, timer := Some(s.nextTimer), armed := kept + {s.nextTimer},
         nextTimer := s.nextTimer + 1)
    case Fire(id) => s.(armed := s.armed - {id}, waiting := s.waiting + 1)
    case Flush =>
      if s.pending == {} then s.(waiting := s.waiting - 1)
      else s.(pending := {}, timer := None, waiting := s.waiting - 1, running := s.running + [s.pending])
    case Return(call) => s.(running := s.running[..call] + s.running[call + 1..])
    case Shutdown => s.(closed := true, waiting := s.waiting + 1)
  }

  /** The class behind the state: its two methods are the two critical sections. */
  class DebouncedWatcher {
    var pending: set<string>
    var timer: Option<nat>
    var armed: set<nat>
    var nextTimer: nat
    var waiting: nat
    var running: seq<set<string>>
    var closed: bool

    ghost function View(): State
      reads this
    {
      State(pending, timer, armed, nextTimer, waiting, running, closed)
    }

    constructor ()
      ensures View() == INITIAL
    {
      pending, timer, armed, nextTimer, waiting, running, closed := {}, None, {}, 0, 0, [], false;
    }

    method EnqueuePath(path: string)
      requires Enabled(View(), Enqueue(path))
      modifies this
      ensures View() == Apply(old(View()), Enqueue(path))
      ensures pending == old(pending) + {path} && timer == Some(old(nextTimer)) && old(nextTimer) in armed
      ensures old(timer).Some? && old(timer).value != old(nextTimer) ==> old(timer).value !in armed
    {
      pending := pending + {path};
      if timer.Some? {
        armed := armed - {timer.value};
      }
      timer := Some(nextTimer);
      armed := armed + {nextTimer};
      nextTimer := nextTimer + 1;
    }

    /** The batch is empty when another flush took the paths first; then no callback runs. */
    method FlushPending() returns (files: set<string>)
      requires Enabled(View(), Flush)
      modifies this
      ensures View() == Apply(old(View()), Flush)
      ensures files == old(pending) && pending == {}
      ensures files != {} ==> timer == None && running == old(running) + [files]
      ensures files == {} ==> running == old(running)
    {
      waiting := waiting - 1;
      files := pending;
      if pending == {} {
        return;
      }
      pending := {};
      timer := None;
      running := running + [files];
    }
  }

  ghost predicate IsRun(states: seq<State>, steps: seq<Step>) {
    && |states| == |steps| + 1 && states[0] == INITIAL
    && forall i :: 0 <= i < |steps| ==> Enabled(states[i], steps[i]) && states[i + 1] == Apply(states[i], steps[i])
  }

  /** Pending paths have a timer that will fire, or a flush already on its way to the lock. */
  ghost predicate WakeUpHeld(s: State) {
    && (s.pending != {} ==> (s.timer.Some? && s.timer.value in s.armed) || s.waiting > 0)
    && (forall id :: id in s.armed ==> id < s.nextTimer)
    && (s.timer.Some? ==> s.timer.value < s.nextTimer)
  }

  lemma {:induction false} StepHoldsWakeUp(s: State, step: Step)
    requires WakeUpHeld(s) && Enabled(s, step)
    ensures WakeUpHeld(Apply(s, step))
  {}

  /** A watcher that is not closed takes paths and can be closed; closing sends one last flush on its way. */
  lemma {:induction false} ShutdownFlushes(s: State, path: string)
    requires !s.closed
    ensures Enabled(s, Enqueue(path)) && Enabled(s, Shutdown)
    ensures var t := Apply(s, Shutdown);
            && !Enabled(t, Enqueue(path)) && !Enabled(t, Shutdown) && t.pending == s.pending
            && Enabled(t, Flush) && Apply(t, Flush).pending == {}
            && (s.pending != {} ==> s.pending in Apply(t, Flush).running)
  {}

  /** No wake-up is lost: in every state of every interleaving, pending paths are on their way to a flush. */
  lemma {:induction false} NoWakeUpIsLost(states: seq<State>, steps: seq<Step>, i: nat)
    requires IsRun(states, steps) && i < |states|
    ensures WakeUpHeld(states[i])
  {
    if i > 0 {
      NoWakeUpIsLost(states, steps, i - 1);
      StepHoldsWakeUp(states[i - 1], steps[i - 1]);
    }
  }

  ghost predicate TakenBetween(states: seq<State>, steps: seq<Step>, path: string, i: nat, n: nat)
    requires |states| == |steps| + 1 && n <= |steps|
  {
    exists j :: i < j < n && steps[j].Flush? && path in states[j].pending
  }

  ghost predicate EnqueuedSinceFlush(states: seq<State>, steps: seq<Step>, path: string, n: nat)
    requires |states| == |steps| + 1 && n <= |steps|
  {
    exists i :: 0 <= i < n && steps[i] == Enqueue(path) && forall j :: i < j < n ==> !steps[j].Flush?
  }

  /** Every enqueue is still pending or some later flush took its path. */
  lemma {:induction false} EnqueueIsKeptOrTaken(states: seq<State>, steps: seq<Step>, i: nat, n: nat)
    requires IsRun(states, steps) && i < n <= |steps| && steps[i].Enqueue?
    ensures steps[i].path in states[n].pending || TakenBetween(states, steps, steps[i].path, i, n)
  {
    if i + 1 < n {
      EnqueueIsKeptOrTaken(states, steps, i, n - 1);
      var path := steps[i].path;
      if TakenBetween(states, steps, path, i, n - 1) {
        var j :| i < j < n - 1 && steps[j].Flush? && path in states[j].pending;
        assert i < j < n && steps[j].Flush?;
      } else if steps[n - 1].Flush? {
        assert i < n - 1 < n && steps[n - 1].Flush? && path in states[n - 1].pending;
      }
    }
  }

  /** The undelivered paths are exactly those enqueued since the last flush. */
  lemma {:induction false} PendingIsWhatWasEnqueued(states: seq<State>, steps: seq<Step>, n: nat, path: string)
    requires IsRun(states, steps) && n <= |steps|
    ensures path in states[n].pending <==> EnqueuedSinceFlush(states, steps, path, n)
  {
    if n > 0 {
      PendingIsWhatWasEnqueued(states, steps, n - 1, path);
      var step := steps[n - 1];
      if step == Enqueue(path) {
        assert steps[n - 1] == Enqueue(path);
      } else if EnqueuedSinceFlush(states, steps, path, n - 1) && !step.Flush? {
        var i :| 0 <= i < n - 1 && steps[i] == Enqueue(path) && forall j :: i < j < n - 1 ==> !steps[j].Flush?;
        assert forall j :: i < j < n ==> !steps[j].Flush?;
        assert EnqueuedSinceFlush(states, steps, path, n);
      }
    }
  }

  // ---- Where an enqueued path is ----

  /** The path is pending, or in a batch whose callback has not returned. */
  ghost predicate OnItsWay(s: State, path: string) {
    path in s.pending || exists c :: 0 <= c < |s.running| && path in s.running[c]
  }

  /** A callback that was handed the path returned in step `j`. */
  ghost predicate DeliveredAt(states: seq<State>, steps: seq<Step>, path: string, j: nat)
    requires |states| == |steps| + 1 && j < |steps|
  {
    steps[j].Return? && steps[j].call < |states[j].running| && path in states[j].running[steps[j].call]
  }

  /** A path leaves the pending set and the running batches only by delivery. */
  lemma {:induction false} StaysUntilDelivered(states: seq<State>, steps: seq<Step>, path: string, j: nat)
    requires IsRun(states, steps) && j < |steps| && OnItsWay(states[j], path)
    ensures OnItsWay(states[j + 1], path) || DeliveredAt(states, steps, path, j)
  {
    var s, t := states[j], states[j + 1];
    assert t == Apply(s, steps[j]);
    if path in s.pending {
      if steps[j].Flush? {
        assert t.running[|s.running|] == s.pending;
      }
    } else {
      var c :| 0 <= c < |s.running| && path in s.running[c];
      if steps[j].Return? && steps[j].call < c {
        assert t.running[c - 1] == s.running[c];
      } else if !(steps[j].Return? && steps[j].call == c) {
        assert t.running[c] == s.running[c];
      }
    }
  }

  /** Every enqueued path is pending, in the hands of a callback, or delivered since. */
  lemma {:induction false} EnqueuedIsOnItsWayOrDelivered(states: seq<State>, steps: seq<Step>, i: nat, n: nat)
    requires IsRun(states, steps) && i < n <= |steps| && steps[i].Enqueue?
    ensures OnItsWay(states[n], steps[i].path)
            || exists j :: i < j < n && DeliveredAt(states, steps, steps[i].path, j)
  {
    if i + 1 < n {
      EnqueuedIsOnItsWayOrDelivered(states, steps, i, n - 1);
      if OnItsWay(states[n - 1], steps[i].path) {
        StaysUntilDelivered(states, steps, steps[i].path, n - 1);
      }
    } else {
      assert states[n] == Apply(states[i], steps[i]);
    }
  }

  /** Nothing is handed out that was not enqueued before. */
  lemma {:induction false} OnItsWayWasEnqueued(states: seq<State>, steps: seq<Step>, n: nat, path: string)
    requires IsRun(states, steps) && n <= |steps| && OnItsWay(states[n], path)
    ensures exists i :: 0 <= i < n && steps[i] == Enqueue(path)
  {
    var s, t := states[if n > 0 then n - 1 else 0], states[n];
    assert n > 0;
    assert t == Apply(s, steps[n - 1]);
    if steps[n - 1] != Enqueue(path) {
      if path !in t.pending {
        var c :| 0 <= c < |t.running| && path in t.running[c];
        if steps[n - 1].Return? {
          var call := steps[n - 1].call;
          assert t.running[c] == s.running[if c < call then c else c + 1];
        } else if c < |s.running| {
          assert t.running[c] == s.running[c];
        }
      }
      assert OnItsWay(s, path);
      OnItsWayWasEnqueued(states, steps, n - 1, path);
    }
  }

  // ---- Once no more paths arrive, everything is delivered ----

  function Load(s: State): nat {
    3 * |s.armed| + 2 * s.waiting + |s.running|
  }

  /** Every step other than an enqueue or the shutdown brings the system closer to rest. */
  lemma {:induction false} RestApproaches(s: State, step: Step)
    requires Enabled(s, step) && !step.Enqueue? && !step.Shutdown?
    ensures Load(Apply(s, step)) < Load(s)
  {}

  ghost predicate AtRest(s: State) {
    forall step :: Enabled(s, step) ==> step.Enqueue? || step.Shutdown?
  }

  /** At rest nothing is armed, waiting or running, and every enqueued path has been delivered since. */
  lemma {:induction false} RestHasDeliveredAll(states: seq<State>, steps: seq<Step>, i: nat)
    requires IsRun(states, steps) && i < |steps| && steps[i].Enqueue? && AtRest(states[|steps|])
    ensures var s := states[|steps|]; s.armed == {} && s.waiting == 0 && s.running == [] && s.pending == {}
    ensures exists j :: i < j < |steps| && DeliveredAt(states, steps, steps[i].path, j)
  {
    var s := states[|steps|];
    assert forall id :: Enabled(s, Fire(id)) <==> id in s.armed;
    assert Enabled(s, Flush) <==> s.waiting > 0;
    assert Enabled(s, Return(0)) <==> s.running != [];
    NoWakeUpIsLost(states, steps, |steps|);
    EnqueuedIsOnItsWayOrDelivered(states, steps, i, |steps|);
  }

  /** A quiet stretch of a run, without enqueues and without the shutdown, is at most as long as the load. */
  lemma {:induction false} QuietRunsEnd(states: seq<State>, steps: seq<Step>, from: nat)
    requires IsRun(states, steps) && from <= |steps|
    requires forall i :: from <= i < |steps| ==> !steps[i].Enqueue? && !steps[i].Shutdown?
    ensures |steps| - from <= Load(states[from])
    decreases |steps| - from
  {
    if from < |steps| {
      RestApproaches(states[from], steps[from]);
      QuietRunsEnd(states, steps, from + 1);
    }
  }
}
