/**
 Handing closures to a loop thread: queueInLoop and the loops of TrantorLoop and FdLoop, for
 any number of producers and every interleaving, from before the loop starts.

 The critical sections of queueInLoop and runLoopFuncs make one access each, so each is one
 step; the wake-up is a separate step after the push.  Off the loop thread `need_wakeup_` plays
 no part: queueInLoop is only called there, and then always wakes.
 */
module LoopHandoff {
  import opened Common
  import opened Threads

  type Func = nat

  /** queueInLoop. */
  datatype QPc = QIdle | QPush(f: Func) | QWake

  /**
   The loop thread.  `reported` says whether the poll reported the eventfd; it may report only
   some of what is ready.  LSwap is reached once the events are handled and the eventfd read.
   */
  datatype LPc = LNew | LPoll | LHandle(reported: bool) | LSwap | LRun

  /** `pushed` and `executed` are history. */
  datatype State = State(producers: map<Tid, QPc>, loop: LPc, eventfd: nat, list: seq<Func>, batch: seq<Func>,
                         pushed: seq<Func>, executed: seq<Func>)

  datatype Step =
    | Call(p: Tid, f: Func)
    | Produce(p: Tid)
    | Nudge            // a wake-up for another reason, such as a changed interest bit
    | Start
    | PollReturns(reported: bool, other: bool)  // other: some other descriptor, or the timeout
    | Handle
    | Swap
    | RunNext
    | Again

  predicate Enabled(s: State, step: Step) {
    match step
    case Call(p, _) => p in s.producers && s.producers[p].QIdle?
    case Produce(p) => p in s.producers && !s.producers[p].QIdle?
    case Nudge => true
    case Start => s.loop.LNew?
    case PollReturns(reported, other) => s.loop.LPoll? && (reported ==> s.eventfd > 0) && (reported || other)
    case Handle => s.loop.LHandle?
    case Swap => s.loop.LSwap?
    case RunNext => s.loop.LRun? && s.batch != []
    case Again => s.loop.LRun? && s.batch == []
  }

  function Apply(s: State, step: Step): State
    requires Enabled(s, step)
  {
    match step
    case Call(p, f) => s.(producers := s.producers[p := QPush(f)])
    case Produce(p) =>
      if s.producers[p].QPush? then
        var f := s.producers[p].f;
        s.(producers := s.producers[p := QWake], list := s.list + [f], pushed := s.pushed + [f])
      else s.(producers := s.producers[p := QIdle], eventfd := s.eventfd + 1)
    case Nudge => s.(eventfd := s.eventfd + 1)
    case Start => s.(loop := LPoll)
    case PollReturns(reported, _) => s.(loop := LHandle(reported))
    case Handle => s.(loop := LSwap, eventfd := if s.loop.reported then 0 else s.eventfd)
    case Swap => s.(loop := LRun, list := [], batch := s.list)
    case RunNext => s.(batch := s.batch[1..], executed := s.executed + [s.batch[0]])
    case Again => s.(loop := LPoll)
  }

  /** Somebody has pushed and not woken the loop yet. */
  ghost predicate WakeComing(s: State) {
    exists p :: p in s.producers && s.producers[p].QWake?
  }

  ghost predicate Inv(s: State) {
    && s.executed + s.batch + s.list == s.pushed
    && (s.batch != [] ==> s.loop.LRun?)
    && (s.list != [] ==> s.eventfd > 0 || s.loop.LSwap? || WakeComing(s))
  }

  ghost predicate Init(s: State) {
    && (forall p :: p in s.producers ==> s.producers[p].QIdle?)
    && s.loop.LNew? && s.list == s.batch == s.pushed == s.executed == []
  }

  lemma ProduceInv(s: State, p: Tid)
    requires Inv(s) && Enabled(s, Produce(p))
    ensures Inv(Apply(s, Produce(p)))
  {
    var s' := Apply(s, Produce(p));
    assert s.producers[p].QPush? ==> s'.producers[p].QWake?;
  }

  lemma CallInv(s: State, p: Tid, f: Func)
    requires Inv(s) && Enabled(s, Call(p, f))
    ensures Inv(Apply(s, Call(p, f)))
  {
    if q :| q in s.producers && s.producers[q].QWake? {
      assert Apply(s, Call(p, f)).producers[q].QWake?;
    }
  }

  lemma StepInv(s: State, step: Step)
    requires Inv(s) && Enabled(s, step)
    ensures Inv(Apply(s, step))
  {
    match step
    case Call(p, f) => CallInv(s, p, f);
    case Produce(p) => ProduceInv(s, p);
    case RunNext => assert s.batch == [s.batch[0]] + s.batch[1..];
    case _ =>
  }

  ghost predicate Reaches(s: State, steps: seq<Step>, s': State)
    decreases |steps|
  {
    if steps == [] then s' == s
    else Enabled(s, steps[0]) && Reaches(Apply(s, steps[0]), steps[1..], s')
  }

  lemma {:induction false} RunInv(s: State, steps: seq<Step>, s': State)
    requires Inv(s) && Reaches(s, steps, s')
    ensures Inv(s')
    decreases |steps|
  {
    if steps != [] {
      StepInv(s, steps[0]);
      RunInv(Apply(s, steps[0]), steps[1..], s');
    }
  }

  // --- Main results ----------------------------------------------------------------------------

  /** The closures called for and not pushed yet, by the steps alone: a producer's step after its call pushes. */
  function HeldAfter(held: map<Tid, Func>, step: Step): map<Tid, Func> {
    match step
    case Call(p, f) => held[p := f]
    case Produce(p) => held - {p}
    case _ => held
  }

  function Given(held: map<Tid, Func>, step: Step): seq<Func> {
    if step.Produce? && step.p in held then [held[step.p]] else []
  }

  /** What the steps of a run hand over; `held` is what the producers hold at first. */
  function Handed(held: map<Tid, Func>, steps: seq<Step>): seq<Func>
    decreases |steps|
  {
    if steps == [] then [] else Given(held, steps[0]) + Handed(HeldAfter(held, steps[0]), steps[1..])
  }

  /** What the producers still hold after a run. */
  function StillHeld(held: map<Tid, Func>, steps: seq<Step>): map<Tid, Func>
    decreases |steps|
  {
    if steps == [] then held else StillHeld(HeldAfter(held, steps[0]), steps[1..])
  }

  ghost predicate Holds(s: State, held: map<Tid, Func>) {
    forall p :: (p in held <==> p in s.producers && s.producers[p].QPush?) && (p in held ==> s.producers[p] == QPush(held[p]))
  }

  lemma HandedStep(s: State, step: Step, held: map<Tid, Func>)
    requires Enabled(s, step) && Holds(s, held)
    ensures Holds(Apply(s, step), HeldAfter(held, step)) && Apply(s, step).pushed == s.pushed + Given(held, step)
  {
  }

  lemma {:induction false} HandedPushed(s: State, steps: seq<Step>, s': State, held: map<Tid, Func>)
    requires Reaches(s, steps, s') && Holds(s, held)
    ensures s'.pushed == s.pushed + Handed(held, steps) && Holds(s', StillHeld(held, steps))
    decreases |steps|
  {
    if steps != [] {
      var rest, held' := steps[1..], HeldAfter(held, steps[0]);
      HandedStep(s, steps[0], held);
      HandedPushed(Apply(s, steps[0]), rest, s', held');
      Regroup(s.pushed, Given(held, steps[0]), Handed(held', rest));
    }
  }

  /**
   Every closure handed over runs once, in the order of the pushes, or waits to; none is dropped,
   and no queueInLoop returns before it has pushed.
   */
  lemma InOrderOnce(s0: State, steps: seq<Step>, s: State)
    requires Init(s0) && Reaches(s0, steps, s)
    ensures s.executed + s.batch + s.list == s.pushed == Handed(map[], steps)
    ensures forall p :: p in s.producers && s.producers[p].QIdle? ==> p !in StillHeld(map[], steps)
    ensures s.loop.LNew? || s.loop.LPoll? ==> s.batch == []
  {
    RunInv(s0, steps, s);
    HandedPushed(s0, steps, s, map[]);
  }

  /** The eventfd after a step: every wake-up adds one, and the loop reads it when the last poll reported it. */
  function EventfdAfter(n: nat, held: map<Tid, Func>, reported: bool, step: Step): nat {
    match step
    case Nudge => n + 1
    case Produce(p) => if p in held then n else n + 1
    case Handle => if reported then 0 else n
    case _ => n
  }

  function ReportedAfter(reported: bool, step: Step): bool {
    if step.PollReturns? then step.reported else reported
  }

  function Eventfd(n: nat, held: map<Tid, Func>, reported: bool, steps: seq<Step>): nat
    decreases |steps|
  {
    if steps == [] then n
    else Eventfd(EventfdAfter(n, held, reported, steps[0]), HeldAfter(held, steps[0]), ReportedAfter(reported, steps[0]), steps[1..])
  }

  /** Every swap comes after a poll since the swap before it; `polled` says whether there has been one. */
  predicate PollsBetween(polled: bool, steps: seq<Step>)
    decreases |steps|
  {
    steps == [] ||
    match steps[0]
    case PollReturns(_, _) => PollsBetween(true, steps[1..])
    case Swap => polled && PollsBetween(false, steps[1..])
    case _ => PollsBetween(polled, steps[1..])
  }

  /**
   In every run, by its steps alone: no wake-up is lost before the loop has read the eventfd and
   none is read twice, and the loop polls before every swap.
   */
  lemma {:induction false} WakesCounted(s: State, steps: seq<Step>, s': State, held: map<Tid, Func>, reported: bool)
    requires Reaches(s, steps, s') && Holds(s, held) && (s.loop.LHandle? ==> s.loop.reported == reported)
    ensures s'.eventfd == Eventfd(s.eventfd, held, reported, steps)
    ensures PollsBetween(s.loop.LHandle? || s.loop.LSwap?, steps)
    decreases |steps|
  {
    if steps != [] {
      HandedStep(s, steps[0], held);
      WakesCounted(Apply(s, steps[0]), steps[1..], s', HeldAfter(held, steps[0]), ReportedAfter(reported, steps[0]));
    }
  }

  /** The loop waits in poll and the eventfd gives it no reason to return. */
  predicate Blocked(s: State) {
    s.loop.LPoll? && s.eventfd == 0
  }

  /** The loop is never blocked over queued work without a producer about to wake it. */
  lemma NeverBlockedOverWork(s0: State, steps: seq<Step>, s: State) returns (p: Tid)
    requires Init(s0) && Reaches(s0, steps, s) && Blocked(s) && s.list != []
    ensures Enabled(s, Produce(p)) && !Blocked(Apply(s, Produce(p)))
  {
    RunInv(s0, steps, s);
    p :| p in s.producers && s.producers[p].QWake?;
  }

  /** The loop's own next step, when the eventfd is what wakes it. */
  function LoopStep(s: State): Step {
    match s.loop
    case LNew => Start
    case LPoll => PollReturns(true, false)
    case LHandle(_) => Handle
    case LSwap => Swap
    case LRun => if s.batch != [] then RunNext else Again
  }

  function Remaining(s: State): nat {
    match s.loop
    case LNew => 4
    case LPoll => 3
    case LHandle(_) => 2
    case LSwap => 1
    case LRun => |s.batch| + 5
  }

  /**
   Until the loop takes the list, its own steps are enabled unless it is blocked, and each
   brings the next swap closer; the swap takes everything pushed by then.
   */
  lemma SwapApproaches(s0: State, steps: seq<Step>, s: State)
    requires Init(s0) && Reaches(s0, steps, s) && !Blocked(s)
    ensures Enabled(s, LoopStep(s))
    ensures var s' := Apply(s, LoopStep(s));
            if s.loop.LSwap? then s'.executed + s'.batch == s.pushed && s'.list == []
            else Remaining(s') < Remaining(s)
  {
    RunInv(s0, steps, s);
  }

  predicate IsLoopStep(step: Step) {
    step.Start? || step.PollReturns? || step.Handle? || step.Swap? || step.RunNext? || step.Again?
  }

  /** Whatever wakes the loop, its steps bring the swap closer; nobody else's step takes it away or blocks the loop. */
  lemma StepApproaches(s: State, step: Step)
    requires Inv(s) && Enabled(s, step) && !step.Swap?
    ensures var s' := Apply(s, step);
            if IsLoopStep(step) then Remaining(s') < Remaining(s)
            else Remaining(s') == Remaining(s) && s'.loop == s.loop && (!Blocked(s) ==> !Blocked(s'))
  {
  }

  function LoopSteps(steps: seq<Step>): nat {
    if steps == [] then 0 else (if IsLoopStep(steps[0]) then 1 else 0) + LoopSteps(steps[1..])
  }

  /** So in every run, until the list is taken, the loop makes at most as many steps as remain. */
  lemma {:induction false} SwapWithin(s: State, steps: seq<Step>, s': State)
    requires Inv(s) && Reaches(s, steps, s') && Swap !in steps
    ensures LoopSteps(steps) + Remaining(s') <= Remaining(s)
    decreases |steps|
  {
    if steps != [] {
      StepInv(s, steps[0]);
      StepApproaches(s, steps[0]);
      SwapWithin(Apply(s, steps[0]), steps[1..], s');
    }
  }
}
