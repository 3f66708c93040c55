/**
 * The queue between the threads: a mutex, a condition variable and a plain queue. Any number of threads push,
 * wait and try; a thread may also be woken without having been notified.
 */
module SafeQueue {
  import opened Bytes

  type Thread = nat

  datatype Machine<T> = Machine(
    queue: seq<T>,
    owing: set<Thread>,              // have pushed and released the lock, not notified yet
    sleeping: set<Thread>,           // blocked in the condition variable
    woken: set<Thread>,              // awake again, have not reacquired the lock yet
    // history, in the order of the locked regions
    pushed: seq<T>,
    popped: seq<(Thread, T)>
  )

  function New<T>(): Machine<T> {
    Machine([], {}, {}, {}, [], [])
  }

  datatype Step<T> =
    | Push(thread: Thread, value: T)
    | Notify(thread: Thread, chosen: Option<Thread>)
    | TryPop(thread: Thread)
    | Wait(thread: Thread)           // `waitAndPop` takes the lock and tests the queue
    | Recheck(thread: Thread)        // a woken thread takes the lock and tests the queue again
    | Spurious(thread: Thread)

  predicate Busy<T>(m: Machine<T>, t: Thread) {
    t in m.owing || t in m.sleeping || t in m.woken
  }

  /** `notify_one` wakes one sleeper, whichever, if there is one. */
  predicate Enabled<T>(m: Machine<T>, s: Step<T>) {
    match s
    case Push(t, _) => !Busy(m, t)
    case Notify(t, chosen) =>
      t in m.owing && if chosen.Some? then chosen.value in m.sleeping else m.sleeping == {}
    case TryPop(t) => !Busy(m, t)
    case Wait(t) => !Busy(m, t)
    case Recheck(t) => t in m.woken
    case Spurious(t) => t in m.sleeping
  }

  function Pop<T>(m: Machine<T>, t: Thread): Machine<T>
    requires m.queue != []
  {
    m.(queue := m.queue[1..], popped := m.popped + [(t, m.queue[0])])
  }

  function Apply<T>(m: Machine<T>, s: Step<T>): Machine<T>
    requires Enabled(m, s)
  {
    match s
    case Push(t, x) => m.(queue := m.queue + [x], pushed := m.pushed + [x], owing := m.owing + {t})
    case Notify(t, chosen) =>
      if chosen.Some? then
        m.(owing := m.owing - {t}, sleeping := m.sleeping - {chosen.value}, woken := m.woken + {chosen.value})
      else m.(owing := m.owing - {t})
    case TryPop(t) => if m.queue == [] then m else Pop(m, t)
    case Wait(t) => if m.queue == [] then m.(sleeping := m.sleeping + {t}) else Pop(m, t)
    case Recheck(t) =>
      var r := m.(woken := m.woken - {t});
      if m.queue == [] then r.(sleeping := m.sleeping + {t}) else Pop(r, t)
    case Spurious(t) => m.(sleeping := m.sleeping - {t}, woken := m.woken + {t})
  }

  function Values<T>(popped: seq<(Thread, T)>): seq<T> {
    seq(|popped|, i requires 0 <= i < |popped| => popped[i].1)
  }

  /**
   * No wakeup is lost: while anybody sleeps, each queued value is matched by a notification still owed or by a
   * thread that is awake and will look at the queue.
   */
  ghost predicate Valid<T>(m: Machine<T>) {
    && m.owing !! m.sleeping && m.owing !! m.woken && m.sleeping !! m.woken
    && Values(m.popped) + m.queue == m.pushed
    && (m.sleeping != {} ==> |m.queue| <= |m.owing| + |m.woken|)
  }

  // ----- every step -----

  lemma PopValues<T>(m: Machine<T>, t: Thread)
    requires m.queue != []
    ensures var r := Pop(m, t); Values(r.popped) + r.queue == Values(m.popped) + m.queue
  {
    var r := Pop(m, t);
    assert Values(r.popped) == Values(m.popped) + [m.queue[0]];
    assert m.queue == [m.queue[0]] + m.queue[1..];
  }

  lemma FifoStep<T>(m: Machine<T>, s: Step<T>)
    requires Values(m.popped) + m.queue == m.pushed && Enabled(m, s)
    ensures var r := Apply(m, s); Values(r.popped) + r.queue == r.pushed
  {
    hide Values;
    match s
    case Push(t, x) => assert Values(m.popped) + (m.queue + [x]) == Values(m.popped) + m.queue + [x];
    case Notify(_, _) =>
    case TryPop(t) => if m.queue != [] { PopValues(m, t); }
    case Wait(t) => if m.queue != [] { PopValues(m, t); }
    case Recheck(t) => if m.queue != [] { PopValues(m.(woken := m.woken - {t}), t); }
    case Spurious(_) =>
  }

  lemma StepValid<T>(m: Machine<T>, s: Step<T>)
    requires Valid(m) && Enabled(m, s)
    ensures Valid(Apply(m, s))
  {
    hide Values;
    FifoStep(m, s);
  }

  // ----- every run -----

  ghost predicate Leads<T>(m: Machine<T>, steps: seq<Step<T>>, r: Machine<T>)
    decreases |steps|
  {
    if steps == [] then r == m else Enabled(m, steps[0]) && Leads(Apply(m, steps[0]), steps[1..], r)
  }

  lemma {:induction false} LeadsValid<T>(m: Machine<T>, steps: seq<Step<T>>, r: Machine<T>)
    requires Valid(m) && Leads(m, steps, r)
    ensures Valid(r)
    decreases |steps|
  {
    hide Valid, Apply;
    if steps != [] {
      StepValid(m, steps[0]);
      LeadsValid(Apply(m, steps[0]), steps[1..], r);
    }
  }

  /** Values come out in the order they went in, each once, whoever takes them. */
  lemma FirstInFirstOut<T>(steps: seq<Step<T>>, m: Machine<T>)
    requires Leads(New(), steps, m)
    ensures Values(m.popped) + m.queue == m.pushed
  {
    LeadsValid(New(), steps, m);
  }

  /** A sleeper with a value queued is never forgotten: some thread is about to notify or to look. */
  lemma NoLostWakeup<T>(steps: seq<Step<T>>, m: Machine<T>)
    requires Leads(New(), steps, m) && m.sleeping != {}
    ensures |m.queue| <= |m.owing| + |m.woken|
    ensures m.queue != [] ==> exists s :: Own(s) && Enabled(m, s)
  {
    LeadsValid(New(), steps, m);
    if m.queue != [] {
      if m.owing != {} {
        var t :| t in m.owing;
        var u :| u in m.sleeping;
        assert Own<T>(Notify(t, Some(u))) && Enabled(m, Notify(t, Some(u)));
      } else {
        var t :| t in m.woken;
        assert Own<T>(Recheck(t)) && Enabled(m, Recheck(t));
      }
    }
  }

  // ----- threads that only finish what they have begun -----

  /** The steps that threads already inside an operation take on their own. */
  predicate Own<T>(s: Step<T>) { s.Notify? || s.Recheck? }

  function Left<T>(m: Machine<T>): nat { 2 * |m.owing| + |m.woken| }

  lemma OwnDecreases<T>(m: Machine<T>, s: Step<T>)
    requires Valid(m) && Own(s) && Enabled(m, s)
    ensures Left(Apply(m, s)) < Left(m)
  {
    hide Values;
  }

  /** The own steps come to an end, and then nobody sleeps beside a queued value. */
  lemma {:induction false} OwnStepsDeliver<T>(m: Machine<T>, steps: seq<Step<T>>, r: Machine<T>)
    requires Valid(m) && Leads(m, steps, r) && forall i :: 0 <= i < |steps| ==> Own(steps[i])
    ensures |steps| <= Left(m)
    ensures (forall s :: Own(s) ==> !Enabled(r, s)) ==> r.sleeping == {} || r.queue == []
    decreases |steps|
  {
    hide Valid, Apply, Left;
    if steps != [] {
      OwnDecreases(m, steps[0]);
      StepValid(m, steps[0]);
      OwnStepsDeliver(Apply(m, steps[0]), steps[1..], r);
    } else if forall s :: Own(s) ==> !Enabled(r, s) {
      AtRest(r);
    }
  }

  lemma AtRest<T>(m: Machine<T>)
    requires Valid(m) && forall s :: Own(s) ==> !Enabled(m, s)
    ensures m.sleeping == {} || m.queue == []
  {
    if m.sleeping != {} {
      var u :| u in m.sleeping;
      forall t ensures t !in m.owing && t !in m.woken {
        assert Own<T>(Notify(t, Some(u))) && Own<T>(Recheck(t));
      }
      assert m.owing == {} && m.woken == {};
    }
  }

  // ----- the class -----

  class SafeQueue<T> {
    var queue: seq<T>
    ghost var machine: Machine<T>

    ghost predicate Sound()
      reads this
    {
      Valid(machine) && machine.queue == queue
    }

    constructor ()
      ensures Sound() && machine == New()
    {
      queue := [];
      machine := New();
    }

    /** Both overloads; `chosen` is the sleeper the condition variable picks. */
    method Push(ghost t: Thread, value: T, ghost chosen: Option<Thread>)
      requires Sound() && !Busy(machine, t)
      requires if chosen.Some? then chosen.value in machine.sleeping else machine.sleeping == {}
      modifies this
      ensures Sound() && queue == old(queue) + [value]
      ensures machine == Apply(Apply(old(machine), Step.Push(t, value)), Notify(t, chosen))
    {
      StepValid(machine, Step.Push(t, value));
      queue := queue + [value];
      machine := Apply(machine, Step.Push(t, value));
      StepValid(machine, Notify(t, chosen));
      machine := Apply(machine, Notify(t, chosen));
    }

    method TryPop(ghost t: Thread) returns (r: Option<T>)
      requires Sound() && !Busy(machine, t)
      modifies this
      ensures Sound() && machine == Apply(old(machine), Step.TryPop(t))
      ensures r == if old(queue) == [] then None else Some(old(queue)[0])
      ensures queue == if old(queue) == [] then [] else old(queue)[1..]
    {
      StepValid(machine, Step.TryPop(t));
      machine := Apply(machine, Step.TryPop(t));
      if queue == [] {
        return None;
      }
      r := Some(queue[0]);
      queue := queue[1..];
    }

    /** `waitAndPop` from holding the lock, at first or again, until it returns a value or blocks (None). */
    method TakeOrSleep(ghost t: Thread) returns (r: Option<T>)
      requires Sound() && t !in machine.owing && t !in machine.sleeping
      modifies this
      ensures Sound()
      ensures machine == Apply(old(machine), if t in old(machine).woken then Recheck(t) else Wait(t))
      ensures r == if old(queue) == [] then None else Some(old(queue)[0])
      ensures queue == if old(queue) == [] then [] else old(queue)[1..]
      ensures r.None? <==> t in machine.sleeping
    {
      ghost var step: Step<T> := if t in machine.woken then Recheck(t) else Wait(t);
      StepValid(machine, step);
      machine := Apply(machine, step);
      if queue == [] {
        return None;
      }
      r := Some(queue[0]);
      queue := queue[1..];
    }
  }
}
