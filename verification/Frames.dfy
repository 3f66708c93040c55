/**
 * Frames in flight: the render loop on the CPU, which reuses a fixed number of slots in turn, and the GPU, which
 * finishes submissions whenever it likes.
 */
module Frames {
  import opened Common

  /** How far the render loop is in a frame. */
  datatype Cpu =
    | Outside      // before `waitForFences`
    | Waited
    | Recorded     // the user interface is recorded in the slot's secondary buffer
    | Acquired     // an image of the swap chain is acquired
    | Unsignaled   // the slot's fence is reset
    | Ready        // the slot's primary buffer is recorded
    | Submitted
    | Stopped      // an exception has left the loop

  datatype Acquisition = Image | AcquireOutOfDate | AcquireFailed
  datatype Presentation = Presented | Suboptimal | PresentOutOfDate | PresentFailed

  datatype Frames = Frames(
    slots: nat,
    current: nat,
    fences: seq<bool>,        // per slot: signaled
    semaphores: seq<bool>,    // per slot: signaled by an acquisition no submission has consumed yet
    unfinished: seq<nat>,     // the slots of the submissions the GPU has not finished
    cpu: Cpu,
    resized: bool,
    // history
    hazard: bool,             // something in use by the GPU was touched
    frames: nat               // completed rounds of the loop
  )

  /** Fences are created signaled, or the first wait would never return. */
  function New(slots: nat): Frames {
    Frames(slots, 0, seq(slots, i => true), seq(slots, i => false), [], Outside, false, false, 0)
  }

  datatype Step =
    | Wait
    | RecordUI
    | Acquire(a: Acquisition)
    | ResetFence
    | Record
    | Submit
    | Present(p: Presentation)
    | Complete(k: nat)        // the GPU finishes a submission, in any order

  predicate Shaped(f: Frames) {
    && 0 <= f.current < f.slots && |f.fences| == |f.semaphores| == f.slots
    && forall k :: 0 <= k < |f.unfinished| ==> f.unfinished[k] < f.slots
  }

  predicate Enabled(f: Frames, s: Step)
    requires Shaped(f)
  {
    match s
    case Wait => f.cpu.Outside? && f.fences[f.current]
    case RecordUI => f.cpu.Waited?
    case Acquire(_) => f.cpu.Recorded?
    case ResetFence => f.cpu.Acquired?
    case Record => f.cpu.Unsignaled?
    case Submit => f.cpu.Ready?
    case Present(_) => f.cpu.Submitted?
    case Complete(k) => k < |f.unfinished|
  }

  function Apply(f: Frames, s: Step): (r: Frames)
    requires Shaped(f) && Enabled(f, s)
    ensures Shaped(r)
  {
    var used := f.current in f.unfinished;
    match s
    case Wait => f.(cpu := Waited)
    case RecordUI => f.(cpu := Recorded, hazard := f.hazard || used)
    case Acquire(Image) =>
      f.(cpu := Acquired, resized := false, semaphores := f.semaphores[f.current := true],
         hazard := f.hazard || f.semaphores[f.current])
    case Acquire(AcquireOutOfDate) => f.(cpu := Outside, resized := true)
    case Acquire(AcquireFailed) => f.(cpu := Stopped, resized := false)
    case ResetFence =>
      f.(cpu := Unsignaled, fences := f.fences[f.current := false], hazard := f.hazard || used)
    case Record => f.(cpu := Ready, hazard := f.hazard || used)
    case Submit =>
      f.(cpu := Submitted, unfinished := f.unfinished + [f.current],
         hazard := f.hazard || used || f.fences[f.current] || !f.semaphores[f.current])
    case Present(PresentFailed) => f.(cpu := Stopped)
    case Present(p) =>
      f.(cpu := Outside, current := (f.current + 1) % f.slots, resized := f.resized || p != Presented,
         frames := f.frames + 1)
    case Complete(k) =>
      f.(fences := f.fences[f.unfinished[k] := true], semaphores := f.semaphores[f.unfinished[k] := false],
         unfinished := f.unfinished[..k] + f.unfinished[k + 1..])
  }

  // ----- what every step keeps -----

  /** The fence of the current slot has been reset and not handed to a submission yet. */
  predicate Armed(f: Frames) { f.cpu.Unsignaled? || f.cpu.Ready? }

  ghost predicate Valid(f: Frames) {
    && Shaped(f) && !f.hazard
    && f.current == f.frames % f.slots
    && Distinct(f.unfinished)
    && (forall i :: 0 <= i < f.slots ==>
          (f.fences[i] <==> i !in f.unfinished && !(i == f.current && Armed(f))))
    && (forall i :: 0 <= i < f.slots ==>
          (f.semaphores[i] <==> i in f.unfinished || (i == f.current && (f.cpu.Acquired? || Armed(f)))))
    && (f.cpu.Waited? || f.cpu.Recorded? || f.cpu.Acquired? || Armed(f) ==> f.current !in f.unfinished)
    && (f.cpu.Stopped? || f.cpu.Outside? || f.cpu.Submitted? ==> !Armed(f))
  }

  lemma NewValid(slots: nat)
    requires slots >= 1
    ensures Valid(New(slots))
  {
  }

  /** The slot of a frame. */
  function Slot(n: nat, slots: nat): nat
    requires slots >= 1
  {
    n % slots
  }

  lemma SlotOf(d: nat, q: nat, r: nat)
    requires r < d
    ensures Slot(d * q + r, d) == r
  {
    var e := (d * q + r) / d - q;
    assert d * e == r - (d * q + r) % d;
    assert e <= 0 by { assert e >= 1 ==> d * e >= d; }
    assert e >= 0 by { assert e <= -1 ==> d * e <= 0 - d; }
  }

  lemma SlotShape(n: nat, d: nat) returns (q: nat, r: nat)
    requires d >= 1
    ensures n == d * q + r && r < d && r == Slot(n, d)
  {
    q, r := n / d, n % d;
  }

  lemma Distribute(d: nat, q: nat)
    ensures d * (q + 1) == d * q + d
  {
  }

  /** Taking turns is counting modulo the number of slots. */
  lemma NextSlot(n: nat, d: nat)
    requires d >= 1
    ensures Slot(Slot(n, d) + 1, d) == Slot(n + 1, d)
  {
    hide Slot;
    var q, r := SlotShape(n, d);
    Distribute(d, q);
    if r + 1 < d {
      SlotOf(d, q, r + 1);
      SlotOf(d, 0, r + 1);
    } else {
      SlotOf(d, q + 1, 0);
      SlotOf(d, 1, 0);
    }
  }

  lemma RemoveAt(xs: seq<nat>, k: nat)
    requires Distinct(xs) && k < |xs|
    ensures var r := xs[..k] + xs[k + 1..];
      Distinct(r) && forall x :: x in r <==> x in xs && x != xs[k]
  {
    var r := xs[..k] + xs[k + 1..];
    assert forall i :: 0 <= i < |r| ==> r[i] == xs[if i < k then i else i + 1];
    forall x
      ensures x in r <==> x in xs && x != xs[k]
    {
      if x in xs && x != xs[k] {
        var i :| 0 <= i < |xs| && xs[i] == x;
        assert r[if i < k then i else i - 1] == x;
      }
    }
  }

  lemma CompleteValid(f: Frames, k: nat)
    requires Valid(f) && k < |f.unfinished|
    ensures Valid(Apply(f, Complete(k)))
  {
    hide Distinct;
    RemoveAt(f.unfinished, k);
  }

  lemma PresentValid(f: Frames, p: Presentation)
    requires Valid(f) && f.cpu.Submitted?
    ensures Valid(Apply(f, Present(p)))
  {
    hide Distinct;
    NextSlot(f.frames, f.slots);
  }

  lemma SubmitValid(f: Frames)
    requires Valid(f) && f.cpu.Ready?
    ensures Valid(Apply(f, Submit))
  {
  }

  lemma RecordValid(f: Frames, s: Step)
    requires Valid(f) && Enabled(f, s) && (s.Wait? || s.RecordUI? || s.Record?)
    ensures Valid(Apply(f, s))
  {
    hide Distinct;
  }

  lemma AcquireValid(f: Frames, s: Step)
    requires Valid(f) && Enabled(f, s) && (s.Acquire? || s.ResetFence?)
    ensures Valid(Apply(f, s))
  {
    hide Distinct;
  }

  lemma StepValid(f: Frames, s: Step)
    requires Valid(f) && Enabled(f, s)
    ensures Valid(Apply(f, s))
  {
    hide Valid, Apply;
    match s
    case Complete(k) => CompleteValid(f, k);
    case Present(p) => PresentValid(f, p);
    case Submit => SubmitValid(f);
    case Acquire(_) => AcquireValid(f, s);
    case ResetFence => AcquireValid(f, s);
    case _ => RecordValid(f, s);
  }

  // ----- runs -----

  ghost predicate Leads(f: Frames, steps: seq<Step>, r: Frames)
    requires Shaped(f)
    decreases |steps|
  {
    if steps == [] then r == f else Enabled(f, steps[0]) && Leads(Apply(f, steps[0]), steps[1..], r)
  }

  lemma {:induction false} LeadsValid(f: Frames, steps: seq<Step>, r: Frames)
    requires Valid(f) && Leads(f, steps, r)
    ensures Valid(r)
    decreases |steps|
  {
    hide Apply, Enabled, Valid;
    ValidShaped(f);
    if steps != [] {
      StepValid(f, steps[0]);
      LeadsValid(Apply(f, steps[0]), steps[1..], r);
    }
  }

  lemma ValidShaped(f: Frames)
    requires Valid(f)
    ensures Shaped(f)
  {
  }

  lemma {:induction false} Pigeonhole(xs: seq<nat>, n: nat)
    requires forall i :: 0 <= i < |xs| ==> xs[i] < n
    requires Distinct(xs)
    ensures |xs| <= n
    decreases n
  {
    if xs != [] {
      assert xs[0] < n;
      if n - 1 in xs {
        var k :| 0 <= k < |xs| && xs[k] == n - 1;
        var rest := xs[..k] + xs[k + 1..];
        forall i | 0 <= i < |rest|
          ensures rest[i] == xs[if i < k then i else i + 1] && rest[i] < n - 1
        {
          assert rest[i] != xs[k];
        }
        Pigeonhole(rest, n - 1);
      } else {
        forall i | 0 <= i < |xs|
          ensures xs[i] < n - 1
        {
          assert xs[i] in xs;
        }
        Pigeonhole(xs, n - 1);
      }
    }
  }

  /**
   * In every run, with acquisitions that fail and completions in any order: nothing the GPU uses is reset,
   * recorded or submitted again, at most one submission per slot is unfinished, and frame k uses slot k mod N.
   */
  lemma FramesAreSafe(slots: nat, steps: seq<Step>, f: Frames)
    requires slots >= 1 && Leads(New(slots), steps, f)
    ensures !f.hazard && |f.unfinished| <= f.slots && f.slots > 0 && f.current == f.frames % f.slots
  {
    NewValid(slots);
    LeadsValid(New(slots), steps, f);
    Pigeonhole(f.unfinished, f.slots);
  }

  /** The submission that owns the fence of the current slot. */
  predicate Owner(f: Frames, k: int) {
    0 <= k < |f.unfinished| && f.unfinished[k] == f.current
  }

  lemma OwnerExists(f: Frames)
    requires Valid(f) && f.cpu.Outside? && !f.fences[f.current]
    ensures exists k :: Owner(f, k)
    ensures forall k :: Owner(f, k) ==> Enabled(Apply(f, Complete(k)), Wait) && forall j :: Owner(f, j) ==> j == k
  {
    var k :| 0 <= k < |f.unfinished| && f.unfinished[k] == f.current;
    assert Owner(f, k);
  }

  /**
   * The wait never blocks for ever: either the fence is signaled, or exactly one unfinished submission owns it and
   * the completion of that one lets the wait return.
   */
  lemma WaitReturns(slots: nat, steps: seq<Step>, f: Frames)
    requires slots >= 1 && Leads(New(slots), steps, f) && f.cpu.Outside?
    ensures Shaped(f)
    ensures Enabled(f, Wait) <==> !exists k :: Owner(f, k)
    ensures forall k :: Owner(f, k) ==> Enabled(Apply(f, Complete(k)), Wait) && forall j :: Owner(f, j) ==> j == k
  {
    NewValid(slots);
    LeadsValid(New(slots), steps, f);
    if !f.fences[f.current] {
      OwnerExists(f);
    }
  }

  // ----- the renderer -----

  /** What a step does to the fields the CPU looks at. */
  lemma CpuView(f: Frames, s: Step)
    requires Shaped(f) && Enabled(f, s)
    ensures var r := Apply(f, s);
      && r.slots == f.slots
      && r.cpu == (match s
                   case Wait => Waited
                   case RecordUI => Recorded
                   case Acquire(Image) => Acquired
                   case Acquire(AcquireOutOfDate) => Outside
                   case Acquire(AcquireFailed) => Stopped
                   case ResetFence => Unsignaled
                   case Record => Ready
                   case Submit => Submitted
                   case Present(p) => if p == PresentFailed then Stopped else Outside
                   case Complete(_) => f.cpu)
      && r.current == (if s.Present? && s.p != PresentFailed then (f.current + 1) % f.slots else f.current)
      && r.resized == (if s.Acquire? then s.a == AcquireOutOfDate
                       else f.resized || (s.Present? && (s.p == Suboptimal || s.p == PresentOutOfDate)))
  {
  }

  /** The steps of the CPU among the steps. */
  function CpuSteps(steps: seq<Step>): seq<Step> {
    if steps == [] then [] else (if steps[0].Complete? then [] else [steps[0]]) + CpuSteps(steps[1..])
  }

  /** The CPU does exactly these steps while the GPU finishes submissions whenever it likes. */
  ghost predicate Does(f: Frames, did: seq<Step>, g: Frames)
    requires Shaped(f)
  {
    exists steps :: Leads(f, steps, g) && CpuSteps(steps) == did
  }

  lemma DoesNothing(f: Frames)
    requires Shaped(f)
    ensures Does(f, [], f)
  {
    assert Leads(f, [], f) && CpuSteps([]) == [];
  }

  lemma DoesOne(f: Frames, s: Step)
    requires Shaped(f) && Enabled(f, s)
    ensures Does(f, if s.Complete? then [] else [s], Apply(f, s))
  {
    hide Apply, Enabled;
    var steps := [s];
    assert steps[1..] == [] && Leads(Apply(f, s), [], Apply(f, s));
    assert Leads(f, steps, Apply(f, s)) && CpuSteps(steps) == if s.Complete? then [] else [s];
  }

  lemma {:induction false} LeadsConcat(f: Frames, a: seq<Step>, g: Frames, b: seq<Step>, h: Frames)
    requires Shaped(f) && Leads(f, a, g) && Shaped(g) && Leads(g, b, h)
    ensures Leads(f, a + b, h)
    decreases |a|
  {
    hide Apply, Enabled, Shaped;
    if a == [] {
      assert a + b == b;
    } else {
      assert (a + b)[1..] == a[1..] + b;
      LeadsConcat(Apply(f, a[0]), a[1..], g, b, h);
    }
  }

  lemma {:induction false} CpuStepsConcat(a: seq<Step>, b: seq<Step>)
    ensures CpuSteps(a + b) == CpuSteps(a) + CpuSteps(b)
    decreases |a|
  {
    if a == [] {
      assert a + b == b;
    } else {
      assert (a + b)[1..] == a[1..] + b;
      CpuStepsConcat(a[1..], b);
    }
  }

  lemma DoesConcat(f: Frames, a: seq<Step>, g: Frames, b: seq<Step>, h: Frames)
    requires Shaped(f) && Does(f, a, g) && Shaped(g) && Does(g, b, h)
    ensures Does(f, a + b, h)
  {
    hide Leads, CpuSteps, Shaped;
    var x :| Leads(f, x, g) && CpuSteps(x) == a;
    var y :| Leads(g, y, h) && CpuSteps(y) == b;
    LeadsConcat(f, x, g, y, h);
    CpuStepsConcat(x, y);
  }

  /** What the CPU looks at, but for the fences, does not depend on the GPU. */
  predicate SameCpu(f: Frames, g: Frames) {
    g.slots == f.slots && g.cpu == f.cpu && g.current == f.current && g.resized == f.resized
  }

  lemma {:induction false} LeadsIdle(f: Frames, steps: seq<Step>, g: Frames)
    requires Shaped(f) && Leads(f, steps, g) && CpuSteps(steps) == []
    ensures SameCpu(f, g)
    decreases |steps|
  {
    hide Apply, Enabled;
    if steps != [] {
      CpuView(f, steps[0]);
      LeadsIdle(Apply(f, steps[0]), steps[1..], g);
    }
  }

  lemma DoesValid(f: Frames, did: seq<Step>, g: Frames)
    requires Valid(f) && Shaped(f) && Does(f, did, g)
    ensures Valid(g) && Shaped(g) && (did == [] ==> SameCpu(f, g))
  {
    hide Leads, CpuSteps, Valid, SameCpu;
    var steps :| Leads(f, steps, g) && CpuSteps(steps) == did;
    LeadsValid(f, steps, g);
    ValidShaped(g);
    if did == [] {
      LeadsIdle(f, steps, g);
    }
  }

  /** The GPU can finish what the wait is waiting for. */
  lemma SignalComes(f: Frames)
    requires Valid(f) && Shaped(f) && f.cpu.Outside?
    ensures exists g :: Does(f, [], g) && Shaped(g) && Enabled(g, Wait)
  {
    if f.fences[f.current] {
      DoesNothing(f);
    } else {
      OwnerExists(f);
      var k :| Owner(f, k);
      DoesOne(f, Complete(k));
    }
  }

  lemma SomeSlot(f: Frames)
    requires Shaped(f)
    ensures f.slots > 0
  {
  }

  /** The steps of `renderFrame`. */
  function FrameSteps(a: Acquisition, p: Presentation): seq<Step> {
    if a == Image then [Acquire(a), ResetFence, Record, Submit, Present(p)] else [Acquire(a)]
  }

  class Renderer {
    const maxFramesInFlight: nat
    var currentFrame: nat
    var framebufferResized: bool
    ghost var state: Frames

    ghost predicate Sound()
      reads this
    {
      && Valid(state) && Shaped(state) && state.slots == maxFramesInFlight
      && state.current == currentFrame && state.resized == framebufferResized
    }

    constructor (maxFramesInFlight: nat)
      requires maxFramesInFlight >= 1
      ensures Sound() && state == New(maxFramesInFlight)
    {
      this.maxFramesInFlight := maxFramesInFlight;
      currentFrame, framebufferResized := 0, false;
      state := New(maxFramesInFlight);
      new;
      NewValid(maxFramesInFlight);
    }

    /** A step of the CPU, and whatever the GPU finishes before the next one. */
    ghost method Take(s: Step)
      requires Valid(state) && Shaped(state) && Enabled(state, s) && !s.Complete?
      modifies this`state
      ensures Valid(state) && Shaped(state) && Does(old(state), [s], state)
      ensures SameCpu(Apply(old(state), s), state)
    {
      hide Valid, Shaped, Apply, Enabled, Does, SameCpu;
      var before := state;
      var next := Apply(before, s);
      StepValid(before, s);
      DoesOne(before, s);
      DoesNothing(next);
      var after :| Does(next, [], after);
      state := after;
      DoesValid(next, [], state);
      DoesConcat(before, [s], next, [], state);
      assert [s] + [] == [s];
    }

    /** Returns once the fence is signaled; until then the GPU finishes any submissions. */
    method WaitForFences()
      requires Sound() && state.cpu.Outside?
      modifies this`state
      ensures Sound() && Does(old(state), [Wait], state) && state.cpu.Waited?
    {
      hide Valid, Shaped, Apply, Does;
      ghost var before := state;
      SignalComes(state);
      ghost var signaled :| Does(before, [], signaled) && Shaped(signaled) && Enabled(signaled, Wait);
      state := signaled;
      DoesValid(before, [], state);
      CpuView(state, Wait);
      Take(Wait);
      DoesConcat(before, [], signaled, [Wait], state);
      assert [] + [Wait] == [Wait];
    }

    method RecordUIData()
      requires Sound() && state.cpu.Waited?
      modifies this`state
      ensures Sound() && Does(old(state), [RecordUI], state) && state.cpu.Recorded?
    {
      hide Valid, Shaped, Apply, Does;
      CpuView(state, RecordUI);
      Take(RecordUI);
    }

    /** True when an exception leaves it. */
    method RenderFrame(a: Acquisition, p: Presentation) returns (threw: bool)
      requires Sound() && state.cpu.Recorded?
      modifies this`currentFrame, this`framebufferResized, this`state
      ensures Sound() && Does(old(state), FrameSteps(a, p), state)
      ensures threw <==> state.cpu.Stopped?
      ensures !threw ==> state.cpu.Outside?
      ensures currentFrame ==
        if a == Image && p != PresentFailed then (old(currentFrame) + 1) % maxFramesInFlight else old(currentFrame)
      ensures !threw ==> (framebufferResized <==> a == AcquireOutOfDate || p != Presented)
    {
      hide Valid, Apply, Shaped, Does;
      SomeSlot(state);
      framebufferResized := false;
      ghost var f0 := state;
      CpuView(state, Acquire(a));
      Take(Acquire(a));
      match a {
        case AcquireOutOfDate =>
          framebufferResized := true;
          return false;
        case AcquireFailed =>
          return true;
        case Image =>
      }
      ghost var f1 := state;
      CpuView(state, ResetFence);
      Take(ResetFence);
      DoesConcat(f0, [Acquire(a)], f1, [ResetFence], state);
      ghost var f2 := state;
      CpuView(state, Record);
      Take(Record);
      DoesConcat(f0, [Acquire(a)] + [ResetFence], f2, [Record], state);
      ghost var f3 := state;
      CpuView(state, Submit);
      Take(Submit);
      DoesConcat(f0, [Acquire(a)] + [ResetFence] + [Record], f3, [Submit], state);
      ghost var f4 := state;
      CpuView(state, Present(p));
      Take(Present(p));
      DoesConcat(f0, [Acquire(a)] + [ResetFence] + [Record] + [Submit], f4, [Present(p)], state);
      assert [Acquire(a)] + [ResetFence] + [Record] + [Submit] + [Present(p)] == FrameSteps(a, p);
      match p {
        case PresentOutOfDate =>
          framebufferResized := true;
        case Suboptimal =>
          framebufferResized := true;
        case Presented =>
        case PresentFailed =>
          return true;
      }
      currentFrame := (currentFrame + 1) % maxFramesInFlight;
      return false;
    }
  }
}
