/**
 What waitUntilFinished promises about tasks being finished, and when.
 */
module PoolWaiting {
  import opened Threads
  import opened ThreadPool

  // --- Runs under a condition ------------------------------------------------------------------

  /** The waiter is not woken spuriously. */
  predicate Unwoken(s: State, step: Step) { !step.CSpurious? }

  /** The waiter does not find the queue empty at its first test. */
  predicate FoundWork(s: State, step: Step) { !(step.CGo? && s.waiter.CFirst? && s.queue == []) }

  predicate Patient(s: State, step: Step) { Unwoken(s, step) && FoundWork(s, step) }

  ghost predicate RunUnder(ok: (State, Step) -> bool, s: State, steps: seq<Step>, s': State)
    decreases |steps|
  {
    if steps == [] then s' == s
    else Enabled(s, steps[0]) && ok(s, steps[0]) && RunUnder(ok, Apply(s, steps[0]), steps[1..], s')
  }

  lemma {:induction false} UnderReaches(ok: (State, Step) -> bool, s: State, steps: seq<Step>, s': State)
    requires RunUnder(ok, s, steps, s')
    ensures Reaches(s, steps, s')
    decreases |steps|
  {
    if steps != [] { UnderReaches(ok, Apply(s, steps[0]), steps[1..], s'); }
  }

  // --- One worker --------------------------------------------------------------------------------

  /** With one worker: from the notification on, it has finished all that was pushed before the call. */
  ghost predicate WaitOk(c: CPc, queue: seq<Task>, ran: nat) {
    && (c.CSet? ==> queue != [])
    && (c.CTest? ==> queue != [] || c.mark <= ran)
    && (c.CWoken? || c.CClear? || c.CRel? ==> c.mark <= ran)
  }

  /** One worker, which notifies only on an empty queue. */
  ghost predicate Lone(s: State, w: Tid) {
    s.workers.Keys == {w} && w in s.ran && (s.workers[w].WNotify? ==> s.queue == [])
  }

  lemma LoneWorker(s: State, w: Tid, s': State)
    requires Inv(s) && Lone(s, w) && Enabled(s, WGo(w)) && s' == Apply(s, WGo(w))
    ensures Lone(s', w)
  {
  }

  ghost predicate OneWorker(s: State, w: Tid) {
    Lone(s, w) && WaitOk(s.waiter, s.queue, |s.ran[w]|)
  }

  lemma {:induction false} TakenByOne(taken: seq<(Tid, Task)>, w: Tid)
    requires forall i :: 0 <= i < |taken| ==> taken[i].0 == w
    ensures By(taken, w) == Items(taken)
  {
    if taken != [] {
      var front := taken[..|taken| - 1];
      TakenByOne(front, w);
      assert Items(taken) == Items(front) + [taken[|taken| - 1].1];
    }
  }

  /** All the worker took, it has run or has in hand, in push order. */
  lemma OneShare(s: State, w: Tid)
    requires Inv(s) && s.workers.Keys == {w}
    ensures w in s.ran && s.ran[w] + InHand(s.workers[w]) + s.queue == s.pushed
  {
    forall i | 0 <= i < |s.taken| ensures s.taken[i].0 == w { assert s.taken[i].0 in s.workers; }
    TakenByOne(s.taken, w);
  }

  lemma WorkerStep(s: State, w: Tid, s': State)
    requires Inv(s) && OneWorker(s, w) && Enabled(s, WGo(w)) && s' == Apply(s, WGo(w))
    ensures OneWorker(s', w)
  {
    OneShare(s, w);
    LoneWorker(s, w, s');
    WorkerWait(s, w, s');
  }

  /** Its notification comes with an empty queue and empty hands, when it has run all that was pushed. */
  lemma WorkerWait(s: State, w: Tid, s': State)
    requires MutexOk(s) && WaiterOk(s) && OneWorker(s, w) && Enabled(s, WGo(w)) && s' == Apply(s, WGo(w))
    requires |s.ran[w]| + |InHand(s.workers[w])| + |s.queue| == |s.pushed|
    ensures w in s'.ran && WaitOk(s'.waiter, s'.queue, |s'.ran[w]|)
  {
    assert CHas(s.waiter) ==> !WHas(s.workers[w]);
  }

  lemma PusherStep(s: State, p: Tid, w: Tid, s': State)
    requires Inv(s) && OneWorker(s, w) && Enabled(s, PGo(p)) && s' == Apply(s, PGo(p))
    ensures OneWorker(s', w)
  {
    LonePusher(s, p, w, s');
  }

  lemma WaiterStep(s: State, w: Tid, s': State)
    requires Inv(s) && OneWorker(s, w) && Enabled(s, CGo) && Patient(s, CGo) && s' == Apply(s, CGo)
    ensures OneWorker(s', w)
  {
  }

  lemma PatientStep(s: State, step: Step, w: Tid, s': State)
    requires Inv(s) && OneWorker(s, w) && Enabled(s, step) && Patient(s, step) && s' == Apply(s, step)
    ensures OneWorker(s', w)
  {
    match step
    case WGo(x) => WorkerStep(s, w, s');
    case PGo(p) => PusherStep(s, p, w, s');
    case CGo => WaiterStep(s, w, s');
    case _ =>
  }

  lemma {:induction false} PatientKeeps(s: State, steps: seq<Step>, s': State, w: Tid)
    requires Inv(s) && OneWorker(s, w) && RunUnder(Patient, s, steps, s')
    ensures Inv(s') && OneWorker(s', w)
    decreases |steps|
  {
    if steps != [] {
      StepInv(s, steps[0]);
      PatientStep(s, steps[0], w, Apply(s, steps[0]));
      PatientKeeps(Apply(s, steps[0]), steps[1..], s', w);
    }
  }

  lemma LonePusher(s: State, p: Tid, w: Tid, s': State)
    requires Inv(s) && Lone(s, w) && Enabled(s, PGo(p)) && s' == Apply(s, PGo(p))
    ensures Lone(s', w)
  {
    assert PHas(s.pushers[p]) ==> !WHas(s.workers[w]);
  }

  lemma LoneStep(s: State, step: Step, w: Tid, s': State)
    requires Inv(s) && Lone(s, w) && Enabled(s, step) && s' == Apply(s, step)
    ensures Lone(s', w)
  {
    match step
    case WGo(x) => LoneWorker(s, w, s');
    case PGo(p) => LonePusher(s, p, w, s');
    case _ =>
  }

  lemma {:induction false} LoneKept(s: State, steps: seq<Step>, s': State, w: Tid)
    requires Inv(s) && Lone(s, w) && Reaches(s, steps, s')
    ensures Inv(s') && Lone(s', w)
    decreases |steps|
  {
    if steps != [] {
      StepInv(s, steps[0]);
      LoneStep(s, steps[0], w, Apply(s, steps[0]));
      LoneKept(Apply(s, steps[0]), steps[1..], s', w);
    }
  }

  /**
   With a single worker, as in TrantorSingleThread, and whatever earlier calls met: a
   waitUntilFinished that finds the queue not empty at its first test and is not woken spuriously
   returns only when every task pushed before the call has been run, in push order.
   */
  lemma SingleWorkerFinishes(s0: State, before: seq<Step>, s1: State, during: seq<Step>, s: State, w: Tid)
    requires Init(s0) && s0.workers.Keys == {w} && Reaches(s0, before, s1) && Enabled(s1, CCall)
    requires RunUnder(Patient, Apply(s1, CCall), during, s) && CCall !in during && s.waiter.CRel?
    ensures w in s.ran && s1.pushed <= s.ran[w]
  {
    InitInv(s0);
    LoneKept(s0, before, s1, w);
    CallFinishes(s1, during, s, w);
  }

  lemma CallFinishes(s1: State, during: seq<Step>, s: State, w: Tid)
    requires Inv(s1) && Lone(s1, w) && Enabled(s1, CCall)
    requires RunUnder(Patient, Apply(s1, CCall), during, s) && CCall !in during && s.waiter.CRel?
    ensures w in s.ran && s1.pushed <= s.ran[w]
  {
    var s2 := Apply(s1, CCall);
    StepInv(s1, CCall);
    PatientKeeps(s2, during, s, w);
    UnderReaches(Patient, s2, during, s);
    MarkKept(s2, during, s);
    RanFirst(s, w);
  }

  lemma RanFirst(s: State, w: Tid)
    requires Inv(s) && OneWorker(s, w) && s.waiter.CRel?
    ensures s.waiter.mark <= |s.ran[w]| && s.ran[w] <= s.pushed
  {
    OneShare(s, w);
  }

  // --- Returns that come too early ---------------------------------------------------------------

  ghost predicate ClosedUnder(ok: (State, Step) -> bool, reach: State -> bool) {
    forall s, step :: reach(s) && Enabled(s, step) && ok(s, step) ==> reach(Apply(s, step))
  }

  ghost predicate ReachableUnder(ok: (State, Step) -> bool, s0: State, s: State) {
    exists steps :: RunUnder(ok, s0, steps, s)
  }

  lemma {:induction false} UnderExtend(ok: (State, Step) -> bool, s: State, steps: seq<Step>, s': State, step: Step)
    requires RunUnder(ok, s, steps, s') && Enabled(s', step) && ok(s', step)
    ensures RunUnder(ok, s, steps + [step], Apply(s', step))
    decreases |steps|
  {
    if steps == [] {
      assert RunUnder(ok, Apply(s, step), [], Apply(s, step));
    } else {
      assert (steps + [step])[1..] == steps[1..] + [step];
      UnderExtend(ok, Apply(s, steps[0]), steps[1..], s', step);
    }
  }

  lemma ReachableUnderClosed(ok: (State, Step) -> bool, s0: State)
    ensures ClosedUnder(ok, s => ReachableUnder(ok, s0, s)) && ReachableUnder(ok, s0, s0)
  {
    assert RunUnder(ok, s0, [], s0);
    forall s, step | ReachableUnder(ok, s0, s) && Enabled(s, step) && ok(s, step) ensures ReachableUnder(ok, s0, Apply(s, step)) {
      var steps :| RunUnder(ok, s0, steps, s);
      UnderExtend(ok, s0, steps, s, step);
    }
  }

  /** A step the condition allows. */
  lemma Next(ok: (State, Step) -> bool, reach: State -> bool, s: State, step: Step) returns (s': State)
    requires ClosedUnder(ok, reach) && reach(s) && Enabled(s, step) && ok(s, step)
    ensures s' == Apply(s, step) && reach(s')
  {
    s' := Apply(s, step);
  }

  /** Closed under a condition that patient steps meet. */
  ghost predicate Follows(ok: (State, Step) -> bool, reach: State -> bool) {
    ClosedUnder(ok, reach) && forall s, step :: Patient(s, step) ==> ok(s, step)
  }

  /** The worker's program counter and the mutex. */
  function At(s: State, w: Tid, p: WPc, mtx: Owner): State {
    s.(workers := s.workers[w := p], mtx := mtx)
  }

  lemma WNext(ok: (State, Step) -> bool, reach: State -> bool, s: State, w: Tid, p: WPc, mtx: Owner) returns (s': State)
    requires Follows(ok, reach) && reach(At(s, w, p, mtx)) && w in s.ran
    requires !p.WSleep? && !p.WNotify? && !p.WTake? && !p.WRun? && (WNeeds(p) ==> mtx.Nobody?)
    ensures var (p', use) := NextW(p, s.queue, s.waitEmpty); s' == At(s, w, p', Owned(mtx, use, Worker(w)))
    ensures reach(s')
  {
    s' := Next(ok, reach, At(s, w, p, mtx), WGo(w));
    var (p', use) := NextW(p, s.queue, s.waitEmpty);
    assert s.workers[w := p][w := p'] == s.workers[w := p'];
  }

  /** The caller alone moves. */
  lemma CNext(ok: (State, Step) -> bool, reach: State -> bool, s: State) returns (s': State)
    requires Follows(ok, reach) && reach(s) && Enabled(s, CGo) && FoundWork(s, CGo)
    ensures s' == Apply(s, CGo) && reach(s')
  {
    s' := Next(ok, reach, s, CGo);
  }

  ghost predicate AllAwake(s: State) {
    forall w :: w in s.workers ==> !s.workers[w].WSleep?
  }

  /** One pushTask from its call to its return, with no worker to wake. */
  lemma Pushes(ok: (State, Step) -> bool, reach: State -> bool, s: State, task: Task) returns (s': State)
    requires Follows(ok, reach) && reach(s) && s.pushers == map[0 := PIdle] && s.mtx.Nobody? && AllAwake(s)
    ensures s' == s.(queue := s.queue + [task], pushed := s.pushed + [task]) && reach(s')
  {
    var s1 := Next(ok, reach, s, PCall(0, task));
    var s2 := Next(ok, reach, s1, PGo(0));
    assert s2 == s.(pushers := map[0 := PPush(task)], mtx := Pusher(0));
    var s3 := Next(ok, reach, s2, PGo(0));
    s' := Notifies(ok, reach, s3);
  }

  lemma Notifies(ok: (State, Step) -> bool, reach: State -> bool, s: State) returns (s': State)
    requires Follows(ok, reach) && reach(s) && s.pushers == map[0 := PRel] && AllAwake(s)
    ensures s' == s.(pushers := map[0 := PIdle], mtx := Nobody) && reach(s')
  {
    var s1 := Next(ok, reach, s, PGo(0));
    s' := Next(ok, reach, s1, PWakeNobody(0));
  }

  /** A worker takes the front task and starts to run it. */
  lemma Takes(ok: (State, Step) -> bool, reach: State -> bool, s: State, w: Tid) returns (s': State)
    requires Follows(ok, reach) && reach(s) && s.mtx.Nobody? && s.queue != []
    requires w in s.ran && w in s.workers && s.workers[w].WAcq?
    ensures s' == s.(workers := s.workers[w := WRun(s.queue[0])], queue := s.queue[1..], taken := s.taken + [(w, s.queue[0])])
    ensures reach(s')
  {
    assert s == At(s, w, WAcq, Nobody);
    var s1 := WNext(ok, reach, s, w, WAcq, Nobody);
    var s2 := WNext(ok, reach, s, w, WCheck, Worker(w));
    var s3 := WNext(ok, reach, s, w, WTest, Worker(w));
    s' := RunsFront(ok, reach, s, w, s3);
  }

  lemma RunsFront(ok: (State, Step) -> bool, reach: State -> bool, s: State, w: Tid, s3: State) returns (s': State)
    requires Follows(ok, reach) && s3 == At(s, w, WTake, Worker(w)) && reach(s3) && s.queue != [] && w in s.ran
    ensures s' == s.(workers := s.workers[w := WRun(s.queue[0])], queue := s.queue[1..], taken := s.taken + [(w, s.queue[0])],
                     mtx := Nobody)
    ensures reach(s')
  {
    var s4 := Next(ok, reach, s3, WGo(w));
    assert s4 == At(s4, w, WRel(s.queue[0]), Worker(w));
    s' := WNext(ok, reach, s4, w, WRel(s.queue[0]), Worker(w));
    assert s'.workers == s.workers[w := WRun(s.queue[0])];
  }

  /** The caller finds work queued and goes to sleep. */
  lemma CallerSleeps(ok: (State, Step) -> bool, reach: State -> bool, s: State) returns (s': State)
    requires Follows(ok, reach) && reach(s) && s.waiter.CIdle? && s.mtx.Nobody? && s.queue != []
    ensures s' == s.(waiter := CSleep(|s.pushed|), waitEmpty := true) && reach(s')
  {
    var s1 := Next(ok, reach, s, CCall);
    var s2 := CNext(ok, reach, s1);
    var s3 := CNext(ok, reach, s2);
    var s4 := CNext(ok, reach, s3);
    s' := CNext(ok, reach, s4);
  }

  /** Awake again, the caller finds the queue empty and returns. */
  lemma CallerReturns(ok: (State, Step) -> bool, reach: State -> bool, s: State) returns (s': State)
    requires Follows(ok, reach) && reach(s) && s.waiter.CWoken? && s.mtx.Nobody? && s.queue == []
    ensures s' == s.(waiter := CRel(s.waiter.mark), mtx := Waiter, waitEmpty := false) && reach(s')
  {
    var s1 := CNext(ok, reach, s);
    var s2 := CNext(ok, reach, s1);
    s' := CNext(ok, reach, s2);
  }

  /** A worker finishes its task, finds the queue empty, notifies the caller and goes to sleep. */
  lemma WorkerNotifies(ok: (State, Step) -> bool, reach: State -> bool, s: State, w: Tid) returns (s': State)
    requires Follows(ok, reach) && reach(s) && s.mtx.Nobody? && s.queue == [] && s.waitEmpty && s.waiter.CSleep?
    requires w in s.ran && w in s.workers && s.workers[w].WRun?
    ensures s' == s.(workers := s.workers[w := WSleep], ran := s.ran[w := s.ran[w] + [s.workers[w].task]],
                     waiter := CWoken(s.waiter.mark))
    ensures reach(s')
  {
    var s1 := Next(ok, reach, s, WGo(w));
    assert s1 == At(s1, w, WAcq, Nobody);
    var s2 := WNext(ok, reach, s1, w, WAcq, Nobody);
    var s3 := WNext(ok, reach, s1, w, WCheck, Worker(w));
    s' := NotifiesCaller(ok, reach, s1, w, s3);
    assert s1.workers[w := WSleep] == s.workers[w := WSleep];
  }

  lemma NotifiesCaller(ok: (State, Step) -> bool, reach: State -> bool, s: State, w: Tid, s1: State) returns (s': State)
    requires Follows(ok, reach) && s1 == At(s, w, WNotify, Worker(w)) && reach(s1) && w in s.ran
    requires s.queue == [] && s.waiter.CSleep?
    ensures s' == s.(workers := s.workers[w := WSleep], mtx := Nobody, waiter := CWoken(s.waiter.mark)) && reach(s')
  {
    var s2 := Next(ok, reach, s1, WGo(w));
    assert s2 == At(s2, w, WTest, Worker(w));
    s' := WNext(ok, reach, s2, w, WTest, Worker(w));
    assert s'.workers == s.workers[w := WSleep];
  }

  /** Before anything: `workers` workers, one pusher, and the caller. */
  function Fresh(workers: map<Tid, WPc>, ran: map<Tid, seq<Task>>): State {
    State(workers, map[0 := PIdle], CIdle, Nobody, [], false, [], [], ran)
  }

  /** A task pushed and being run by worker 0. */
  lemma Busy(ok: (State, Step) -> bool, reach: State -> bool, s0: State, task: Task) returns (s: State)
    requires Follows(ok, reach) && reach(s0) && Init(s0) && s0.pushers == map[0 := PIdle] && 0 in s0.workers
    ensures s == s0.(workers := s0.workers[0 := WRun(task)], pushed := [task], taken := [(0, task)]) && reach(s)
  {
    var s1 := Pushes(ok, reach, s0, task);
    s := Takes(ok, reach, s1, 0);
  }

  /**
   Despite its name waitUntilFinished does not wait for tasks to finish: without a spurious
   wake-up, and with one worker, it can be returning while a task pushed before the call is
   still running, having found the queue empty at first.
   */
  lemma ReturnsTooEarly(task: Task) returns (s0: State, s: State)
    ensures Init(s0) && |s0.workers| == 1 && ReachableUnder(Unwoken, s0, s)
    ensures s.waiter == CRel(1) && s.pushed == [task]
    ensures 0 in s.workers && s.workers[0] == WRun(task)
  {
    s0 := Fresh(map[0 := WAcq], map[0 := []]);
    assert s0.workers.Keys == {0};
    ReachableUnderClosed(Unwoken, s0);
    s := EarlyRun(Unwoken, x => ReachableUnder(Unwoken, s0, x), s0, task);
  }

  lemma EarlyRun(ok: (State, Step) -> bool, reach: State -> bool, s0: State, task: Task) returns (s: State)
    requires Follows(ok, reach) && ok == Unwoken && reach(s0) && s0 == Fresh(map[0 := WAcq], map[0 := []])
    ensures reach(s) && s.waiter == CRel(1) && s.pushed == [task] && s.workers == map[0 := WRun(task)]
  {
    var s1 := Busy(ok, reach, s0, task);
    var s2 := Next(ok, reach, s1, CCall);
    var s3 := CNext(ok, reach, s2);
    s := Next(ok, reach, s3, CGo);
  }

  /** Nor does it when it found work at first but is woken spuriously: one worker, one task. */
  lemma SpuriousReturnsTooEarly(task: Task) returns (s0: State, s: State)
    ensures Init(s0) && |s0.workers| == 1 && ReachableUnder(FoundWork, s0, s)
    ensures s.waiter == CRel(1) && s.pushed == [task]
    ensures 0 in s.workers && s.workers[0] == WRun(task)
  {
    s0 := Fresh(map[0 := WAcq], map[0 := []]);
    assert s0.workers.Keys == {0};
    ReachableUnderClosed(FoundWork, s0);
    s := SpuriousRun(FoundWork, x => ReachableUnder(FoundWork, s0, x), s0, task);
  }

  lemma SpuriousRun(ok: (State, Step) -> bool, reach: State -> bool, s0: State, task: Task) returns (s: State)
    requires Follows(ok, reach) && ok == FoundWork && reach(s0) && s0 == Fresh(map[0 := WAcq], map[0 := []])
    ensures reach(s) && s.waiter == CRel(1) && s.pushed == [task] && s.workers == map[0 := WRun(task)]
  {
    var s1 := Pushes(ok, reach, s0, task);
    var s2 := CallerSleeps(ok, reach, s1);
    var s3 := Takes(ok, reach, s2, 0);
    var s4 := Next(ok, reach, s3, CSpurious);
    s := CallerReturns(ok, reach, s4);
  }

  /**
   Two workers are enough to break it, however patient the caller: one finds the queue empty
   and notifies while the other still runs a task pushed before the call.
   */
  lemma TwoWorkersReturnTooEarly(a: Task, b: Task) returns (s0: State, s: State)
    ensures Init(s0) && |s0.workers| == 2 && ReachableUnder(Patient, s0, s)
    ensures s.waiter == CRel(2) && s.pushed == [a, b]
    ensures 0 in s.workers && s.workers[0] == WRun(a)
  {
    s0 := Fresh(map[0 := WAcq, 1 := WAcq], map[0 := [], 1 := []]);
    assert s0.workers.Keys == {0, 1};
    ReachableUnderClosed(Patient, s0);
    s := TwoRun(Patient, x => ReachableUnder(Patient, s0, x), s0, a, b);
  }

  lemma TwoRun(ok: (State, Step) -> bool, reach: State -> bool, s0: State, a: Task, b: Task) returns (s: State)
    requires Follows(ok, reach) && reach(s0) && s0 == Fresh(map[0 := WAcq, 1 := WAcq], map[0 := [], 1 := []])
    ensures reach(s) && s.waiter == CRel(2) && s.pushed == [a, b] && s.workers == map[0 := WRun(a), 1 := WSleep]
  {
    var s1 := Busy(ok, reach, s0, a);
    var s2 := Pushes(ok, reach, s1, b);
    var s3 := CallerSleeps(ok, reach, s2);
    var s4 := Takes(ok, reach, s3, 1);
    var s5 := WorkerNotifies(ok, reach, s4, 1);
    s := CallerReturns(ok, reach, s5);
  }
}
