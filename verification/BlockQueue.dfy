/**
 TrantorBlockQueue: put and take on a bounded queue, for any number of threads and every
 interleaving.  A step is one mutex or condition-variable operation, one test, or one access
 to the queue.
 */
module BlockQueue {
  import opened Common
  import opened Threads

  type T = nat

  datatype Pc =
    | Idle
    | PAcq(x: T) | PTest(x: T) | PSleep(x: T) | PWoken(x: T) | PPush(x: T) | PNotify | PRel
    | TAcq | TTest | TSleep | TWoken | TPop | TNotify | TRel

  /** `put` and `taken` are history: who pushed and who popped which element, in order. */
  datatype State = State(pc: map<Tid, Pc>, mtx: Mutex, queue: seq<T>, max: nat, put: seq<(Tid, T)>, taken: seq<(Tid, T)>)

  datatype Step = CallPut(t: Tid, x: T) | CallTake(t: Tid) | Go(t: Tid) | Spurious(t: Tid)

  predicate Has(p: Pc) {
    p.PTest? || p.PPush? || p.PNotify? || p.PRel? || p.TTest? || p.TPop? || p.TNotify? || p.TRel?
  }

  predicate Needs(p: Pc) { p.PAcq? || p.PWoken? || p.TAcq? || p.TWoken? }

  predicate Asleep(p: Pc) { p.PSleep? || p.TSleep? }

  predicate Putting(p: Pc) { p.PAcq? || p.PTest? || p.PSleep? || p.PWoken? || p.PPush? || p.PNotify? || p.PRel? }

  predicate Taking(p: Pc) { p.TAcq? || p.TTest? || p.TSleep? || p.TWoken? || p.TPop? || p.TNotify? || p.TRel? }

  /**
   The next operation of a thread.  After the wait both functions test their condition once
   more (`if (queue_.size() < max_queue_size_)`, `if (!queue_.empty())`): the test is part of
   PPush and TPop, and so is take's second test, of the size after the pop.
   */
  function Next(p: Pc, size: nat, max: nat): (Pc, Use) {
    match p
    case PAcq(x) => (PTest(x), Take)
    case PTest(x) => if size < max then (PPush(x), Keep) else (PSleep(x), Drop)
    case PWoken(x) => (PTest(x), Take)
    case PPush(_) => (if size < max then PNotify else PRel, Keep)
    case PNotify => (PRel, Keep)
    case PRel => (Idle, Drop)
    case TAcq => (TTest, Take)
    case TTest => if size > 0 then (TPop, Keep) else (TSleep, Drop)
    case TWoken => (TTest, Take)
    case TPop => (if size > 0 && size - 1 < max then TNotify else TRel, Keep)
    case TNotify => (TRel, Keep)
    case TRel => (Idle, Drop)
    case _ => (p, Keep)
  }

  /** notify_all by a thread at p: on empty_tc_ after a push, on high_water_level_tc_ after a pop. */
  function Awakened(p: Pc, sleeper: Pc): Pc {
    if p.PNotify? && sleeper.TSleep? then TWoken
    else if p.TNotify? && sleeper.PSleep? then PWoken(sleeper.x)
    else sleeper
  }

  predicate Enabled(s: State, step: Step) {
    step.t in s.pc &&
    var p := s.pc[step.t];
    match step
    case CallPut(_, _) => p.Idle?
    case CallTake(_) => p.Idle?
    case Go(_) => !p.Idle? && !Asleep(p) && (Needs(p) ==> s.mtx.Free?)
    case Spurious(_) => Asleep(p)
  }

  /** At most one element, as the share of a thread. */
  function Shares(t: Tid, xs: seq<T>): seq<(Tid, T)> {
    if xs == [] then [] else [(t, xs[0])]
  }

  function Apply(s: State, step: Step): State
    requires Enabled(s, step)
  {
    match step
    case CallPut(t, x) => s.(pc := s.pc[t := PAcq(x)])
    case CallTake(t) => s.(pc := s.pc[t := TAcq])
    case Go(t) =>
      var p := s.pc[t];
      var (p', use) := Next(p, |s.queue|, s.max);
      var pushed := if p.PPush? && |s.queue| < s.max then [p.x] else [];
      var popped := if p.TPop? then Upto(s.queue, 1) else [];
      State((map u | u in s.pc :: Awakened(p, s.pc[u]))[t := p'], Used(s.mtx, use, t),
            (s.queue + pushed)[|popped|..], s.max, s.put + Shares(t, pushed), s.taken + Shares(t, popped))
    case Spurious(t) => s.(pc := s.pc[t := if s.pc[t].PSleep? then PWoken(s.pc[t].x) else TWoken])
  }

  ghost predicate Inv(s: State) {
    && (forall t :: t in s.pc ==> (Has(s.pc[t]) <==> s.mtx == Held(t)))
    && (s.mtx.Held? ==> s.mtx.holder in s.pc)
    && |s.queue| <= s.max
    && Items(s.taken) + s.queue == Items(s.put)
    && (forall t {:trigger s.pc[t]} :: t in s.pc ==>
          && (s.pc[t].PPush? ==> |s.queue| < s.max)
          && (s.pc[t].TPop? ==> s.queue != [])
          && (s.pc[t].TSleep? && s.queue != [] ==> s.mtx.Held? && s.pc[s.mtx.holder].PNotify?)
          && (s.pc[t].PSleep? && |s.queue| < s.max ==> s.mtx.Held? && s.pc[s.mtx.holder].TNotify?))
  }

  ghost predicate Init(s: State) {
    (forall t :: t in s.pc ==> s.pc[t].Idle?) && s.mtx.Free? && s.queue == [] && s.put == s.taken == []
  }

  lemma NextFits(p: Pc, size: nat, max: nat)
    ensures var (p', use) := Next(p, size, max);
            && (Has(p') <==> use.Take? || (use.Keep? && Has(p)))
            && (use.Take? ==> Needs(p)) && (use.Drop? ==> Has(p))
            && (p'.PPush? ==> size < max) && (p'.TPop? ==> size > 0)
            && (p'.TSleep? && !p.TSleep? ==> size == 0) && (p'.PSleep? && !p.PSleep? ==> size >= max)
  {
  }

  lemma GoMutex(s: State, t: Tid, u: Tid, s': State)
    requires Inv(s) && Enabled(s, Go(t)) && s' == Apply(s, Go(t)) && u in s.pc
    ensures u in s'.pc && (Has(s'.pc[u]) <==> s'.mtx == Held(u))
  {
    NextFits(s.pc[t], |s.queue|, s.max);
  }

  /** What a thread's operation adds to the two histories. */
  lemma GoShares(s: State, t: Tid, s': State)
    requires Enabled(s, Go(t)) && s' == Apply(s, Go(t))
    requires (s.pc[t].PPush? ==> |s.queue| < s.max) && (s.pc[t].TPop? ==> s.queue != [])
    ensures s'.put == if s.pc[t].PPush? then s.put + [(t, s.pc[t].x)] else s.put
    ensures s'.taken == if s.pc[t].TPop? then s.taken + [(t, s.queue[0])] else s.taken
    ensures s'.queue == if s.pc[t].PPush? then s.queue + [s.pc[t].x] else if s.pc[t].TPop? then s.queue[1..] else s.queue
    ensures s'.pc.Keys == s.pc.Keys && s'.pc[t] == Next(s.pc[t], |s.queue|, s.max).0
    ensures forall u :: u in s.pc && u != t ==> s'.pc[u] == Awakened(s.pc[t], s.pc[u])
  {
  }

  lemma GoQueue(s: State, t: Tid, s': State)
    requires Inv(s) && Enabled(s, Go(t)) && s' == Apply(s, Go(t))
    ensures |s'.queue| <= s'.max && Items(s'.taken) + s'.queue == Items(s'.put)
    ensures s'.queue != s.queue ==> Has(s.pc[t])
    ensures |s'.queue| > |s.queue| ==> s'.pc[t].PNotify? && s'.mtx == Held(t)
    ensures |s'.queue| < |s.queue| ==> s'.pc[t].TNotify? && s'.mtx == Held(t)
  {
    GoShares(s, t, s');
    if s.pc[t].PPush? {
      OneMore(s.put, t, s.pc[t].x, t);
      Regroup(Items(s.taken), s.queue, [s.pc[t].x]);
    }
    if s.pc[t].TPop? {
      OneMore(s.taken, t, s.queue[0], t);
      assert s.queue == [s.queue[0]] + s.queue[1..];
      Regroup(Items(s.taken), [s.queue[0]], s.queue[1..]);
    }
  }

  lemma GoThread(s: State, t: Tid, u: Tid, s': State)
    requires Inv(s) && Enabled(s, Go(t)) && s' == Apply(s, Go(t)) && u in s.pc
    ensures u in s'.pc
    ensures s'.pc[u].PPush? ==> |s'.queue| < s'.max
    ensures s'.pc[u].TPop? ==> s'.queue != []
    ensures s'.pc[u].TSleep? && s'.queue != [] ==> s'.mtx.Held? && s'.mtx.holder in s'.pc && s'.pc[s'.mtx.holder].PNotify?
    ensures s'.pc[u].PSleep? && |s'.queue| < s'.max ==> s'.mtx.Held? && s'.mtx.holder in s'.pc && s'.pc[s'.mtx.holder].TNotify?
  {
    NextFits(s.pc[t], |s.queue|, s.max);
    GoQueue(s, t, s');
  }

  lemma GoInv(s: State, t: Tid)
    requires Inv(s) && Enabled(s, Go(t))
    ensures Inv(Apply(s, Go(t)))
  {
    var s' := Apply(s, Go(t));
    GoQueue(s, t, s');
    forall u | u in s'.pc ensures Has(s'.pc[u]) <==> s'.mtx == Held(u) { GoMutex(s, t, u, s'); }
    forall u | u in s'.pc
      ensures s'.pc[u].PPush? ==> |s'.queue| < s'.max
      ensures s'.pc[u].TPop? ==> s'.queue != []
      ensures s'.pc[u].TSleep? && s'.queue != [] ==> s'.mtx.Held? && s'.mtx.holder in s'.pc && s'.pc[s'.mtx.holder].PNotify?
      ensures s'.pc[u].PSleep? && |s'.queue| < s'.max ==> s'.mtx.Held? && s'.mtx.holder in s'.pc && s'.pc[s'.mtx.holder].TNotify?
    {
      GoThread(s, t, u, s');
    }
  }

  lemma StepInv(s: State, step: Step)
    requires Inv(s) && Enabled(s, step)
    ensures Inv(Apply(s, step))
  {
    if step.Go? { GoInv(s, step.t); }
  }

  ghost predicate Reaches(s: State, steps: seq<Step>, s': State)
    decreases |steps|
  {
    if steps == [] then s' == s
    else Enabled(s, steps[0]) && Reaches(Apply(s, steps[0]), steps[1..], s')
  }

  lemma {:induction false} RunInv(s: State, steps: seq<Step>, s': State)
    requires Inv(s) && Reaches(s, steps, s')
    ensures Inv(s') && s'.max == s.max
    decreases |steps|
  {
    if steps != [] {
      StepInv(s, steps[0]);
      RunInv(Apply(s, steps[0]), steps[1..], s');
    }
  }

  // --- Main results --------------------------------------------------------------------------

  function PutBy(step: Step, t: Tid): seq<T> {
    if step.CallPut? && step.t == t then [step.x] else []
  }

  /** The elements a thread's calls of put hand over, by the steps alone. */
  function Handed(steps: seq<Step>, t: Tid): seq<T> {
    if steps == [] then [] else PutBy(steps[0], t) + Handed(steps[1..], t)
  }

  /** How often a thread calls take. */
  function Takes(steps: seq<Step>, t: Tid): nat {
    if steps == [] then 0 else (if steps[0] == CallTake(t) then 1 else 0) + Takes(steps[1..], t)
  }

  /** What a thread has called put with and not pushed yet. */
  function InHand(p: Pc): seq<T> {
    if p.PAcq? || p.PTest? || p.PSleep? || p.PWoken? || p.PPush? then [p.x] else []
  }

  predicate ToPop(p: Pc) { p.TAcq? || p.TTest? || p.TSleep? || p.TWoken? || p.TPop? }

  lemma NextShares(p: Pc, size: nat, max: nat, q: Pc)
    requires (p.PPush? ==> size < max) && (p.TPop? ==> size > 0)
    ensures var p' := Next(p, size, max).0;
            && InHand(p) == (if p.PPush? then [p.x] else []) + InHand(p')
            && (ToPop(p') <==> ToPop(p) && !p.TPop?)
    ensures InHand(Awakened(p, q)) == InHand(q) && (ToPop(Awakened(p, q)) <==> ToPop(q))
  {
  }

  lemma PutShare(s: State, u: Tid, t: Tid, s': State)
    requires Inv(s) && Enabled(s, Go(u)) && s' == Apply(s, Go(u)) && t in s.pc
    ensures t in s'.pc && By(s'.put, t) + InHand(s'.pc[t]) == By(s.put, t) + InHand(s.pc[t])
  {
    var p := s.pc[u];
    GoShares(s, u, s');
    NextShares(p, |s.queue|, s.max, s.pc[t]);
    if p.PPush? {
      OneMore(s.put, u, p.x, t);
      Regroup(By(s.put, t), [p.x], []);
    }
  }

  lemma TakeShare(s: State, u: Tid, t: Tid, s': State)
    requires Inv(s) && Enabled(s, Go(u)) && s' == Apply(s, Go(u)) && t in s.pc
    ensures t in s'.pc
    ensures |By(s'.taken, t)| + (if ToPop(s'.pc[t]) then 1 else 0) == |By(s.taken, t)| + if ToPop(s.pc[t]) then 1 else 0
  {
    var p := s.pc[u];
    GoShares(s, u, s');
    NextShares(p, |s.queue|, s.max, s.pc[t]);
    if p.TPop? { OneMore(s.taken, u, s.queue[0], t); }
  }

  lemma PutStep(s: State, step: Step, t: Tid, s': State)
    requires Inv(s) && Enabled(s, step) && s' == Apply(s, step) && t in s.pc
    ensures t in s'.pc && By(s'.put, t) + InHand(s'.pc[t]) == By(s.put, t) + InHand(s.pc[t]) + PutBy(step, t)
  {
    if step.Go? { PutShare(s, step.t, t, s'); }
  }

  lemma {:induction false} PutShares(s: State, steps: seq<Step>, s': State, t: Tid)
    requires Inv(s) && Reaches(s, steps, s') && t in s.pc
    ensures t in s'.pc && By(s'.put, t) + InHand(s'.pc[t]) == By(s.put, t) + InHand(s.pc[t]) + Handed(steps, t)
    decreases |steps|
  {
    if steps != [] {
      var s1 := Apply(s, steps[0]);
      StepInv(s, steps[0]);
      PutStep(s, steps[0], t, s1);
      PutShares(s1, steps[1..], s', t);
      Regroup(By(s.put, t) + InHand(s.pc[t]), PutBy(steps[0], t), Handed(steps[1..], t));
    }
  }

  lemma {:induction false} TakeShares(s: State, steps: seq<Step>, s': State, t: Tid)
    requires Inv(s) && Reaches(s, steps, s') && t in s.pc
    ensures t in s'.pc
    ensures |By(s'.taken, t)| + (if ToPop(s'.pc[t]) then 1 else 0)
            == |By(s.taken, t)| + (if ToPop(s.pc[t]) then 1 else 0) + Takes(steps, t)
    decreases |steps|
  {
    if steps != [] {
      StepInv(s, steps[0]);
      if steps[0].Go? { TakeShare(s, steps[0].t, t, Apply(s, steps[0])); }
      TakeShares(Apply(s, steps[0]), steps[1..], s', t);
    }
  }

  /**
   A first-in first-out queue within its bound; the tests repeated after the waits never fail.
   What a thread has pushed is what its calls of put handed over, in order, but for the element
   of a call still waiting to push, and it has popped once for each take, but for one under way.
   */
  lemma BoundedFifo(s0: State, steps: seq<Step>, s: State, t: Tid)
    requires Init(s0) && Reaches(s0, steps, s) && t in s0.pc
    ensures t in s.pc && |s.queue| <= s.max == s0.max
    ensures Items(s.taken) + s.queue == Items(s.put)
    ensures By(s.put, t) + InHand(s.pc[t]) == Handed(steps, t)
    ensures |By(s.taken, t)| + (if ToPop(s.pc[t]) then 1 else 0) == Takes(steps, t)
    ensures s.pc[t].PPush? ==> |s.queue| < s.max
    ensures s.pc[t].TPop? ==> s.queue != [] && |s.queue| - 1 < s.max
  {
    RunInv(s0, steps, s);
    PutShares(s0, steps, s, t);
    TakeShares(s0, steps, s, t);
  }

  /** A bound on the operations of a thread until it is back from its call, or asleep. */
  function Rank(p: Pc): nat {
    match p
    case Idle | PSleep(_) | TSleep => 0
    case PRel | TRel => 1
    case PNotify | TNotify => 2
    case PPush(_) | TPop => 3
    case PTest(_) | TTest => 4
    case PAcq(_) | PWoken(_) | TAcq | TWoken => 5
  }

  /** Neither function goes round in circles: each operation of a thread brings it closer to its return, or to sleep. */
  lemma OperationCloser(s: State, t: Tid)
    requires Enabled(s, Go(t))
    ensures t in Apply(s, Go(t)).pc && Rank(Apply(s, Go(t)).pc[t]) < Rank(s.pc[t])
  {
  }

  /**
   Nobody is forgotten: while the mutex is free, a thread asleep in take means an empty queue
   and one asleep in put a full one; while it is held, the only other reason is that its holder
   is about to notify them all.
   */
  lemma SleepersHaveReason(s0: State, steps: seq<Step>, s: State, t: Tid)
    requires Init(s0) && Reaches(s0, steps, s) && t in s.pc
    ensures s.pc[t].TSleep? ==> s.queue == [] || (s.mtx.Held? && s.mtx.holder in s.pc && s.pc[s.mtx.holder].PNotify?)
    ensures s.pc[t].PSleep? ==> |s.queue| == s.max || (s.mtx.Held? && s.mtx.holder in s.pc && s.pc[s.mtx.holder].TNotify?)
  {
    RunInv(s0, steps, s);
  }

  /** With room for at least one element, a put and a take under way never block each other. */
  lemma NoDeadlock(s0: State, steps: seq<Step>, s: State, t: Tid, u: Tid) returns (v: Tid)
    requires Init(s0) && Reaches(s0, steps, s) && s.max >= 1
    requires t in s.pc && u in s.pc && Putting(s.pc[t]) && Taking(s.pc[u])
    ensures Enabled(s, Go(v))
  {
    RunInv(s0, steps, s);
    v := if s.mtx.Held? then s.mtx.holder else if s.pc[t].PSleep? then u else t;
  }
}
