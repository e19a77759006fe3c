/**
 TrantorFixedThreadPool while it is alive: any number of workers running threadFunc, any
 number of pushTask calls, and one caller of waitUntilFinished, in every interleaving.

 A step is one mutex or condition-variable operation, one test, or one access to the queue.
 A wait whose predicate is false goes to sleep and releases the mutex in one step.
 */
module ThreadPool {
  import opened Common
  import opened Threads

  type Task = nat

  datatype Owner = Nobody | Worker(w: Tid) | Pusher(p: Tid) | Waiter

  /** threadFunc. */
  datatype WPc = WAcq | WCheck | WNotify | WTest | WSleep | WWoken | WTake | WRel(task: Task) | WRun(task: Task)

  /** pushTask; PNotify is the notification after the lock has been released. */
  datatype PPc = PIdle | PAcq(task: Task) | PPush(task: Task) | PRel | PNotify

  /** waitUntilFinished; `mark` is the number of tasks pushed before the call. */
  datatype CPc =
    | CIdle
    | CAcq(mark: nat) | CFirst(mark: nat) | CSet(mark: nat) | CTest(mark: nat)
    | CSleep(mark: nat) | CWoken(mark: nat) | CClear(mark: nat) | CRel(mark: nat)

  /**
   `pushed`, `taken` and `ran` are history: the tasks in push order, who took which task in
   which order, and the tasks each worker has finished.
   */
  datatype State = State(workers: map<Tid, WPc>, pushers: map<Tid, PPc>, waiter: CPc,
                         mtx: Owner, queue: seq<Task>, waitEmpty: bool,
                         pushed: seq<Task>, taken: seq<(Tid, Task)>, ran: map<Tid, seq<Task>>)

  datatype Step =
    | WGo(w: Tid)
    | WSpurious(w: Tid)
    | PCall(p: Tid, task: Task)
    | PGo(p: Tid)
    | PWake(p: Tid, w: Tid)
    | PWakeNobody(p: Tid)
    | CCall
    | CGo
    | CSpurious

  predicate WHas(p: WPc) { p.WCheck? || p.WNotify? || p.WTest? || p.WTake? || p.WRel? }

  predicate PHas(p: PPc) { p.PPush? || p.PRel? }

  predicate CHas(p: CPc) { p.CFirst? || p.CSet? || p.CTest? || p.CClear? || p.CRel? }

  predicate WNeeds(p: WPc) { p.WAcq? || p.WWoken? }

  predicate CNeeds(p: CPc) { p.CAcq? || p.CWoken? }

  predicate Asleep(p: WPc) { p.WSleep? }

  /** Awake and without a task: it will look at the queue before it can sleep. */
  predicate Seeking(p: WPc) { p.WAcq? || p.WCheck? || p.WNotify? || p.WTest? || p.WWoken? || p.WTake? }

  /** Has pushed, has not notified yet. */
  predicate Pending(p: PPc) { p.PRel? || p.PNotify? }

  /** Will make the empty check that notifies the waiter. */
  predicate Owes(p: WPc) { p.WRel? || p.WRun? || p.WAcq? || p.WCheck? || p.WNotify? }

  predicate Waiting(p: CPc) { p.CTest? || p.CSleep? || p.CWoken? || p.CClear? }

  // --- The three programs ----------------------------------------------------------------

  function NextW(p: WPc, queue: seq<Task>, waitEmpty: bool): (WPc, Use)
    requires p.WTake? ==> queue != []
  {
    match p
    case WAcq => (WCheck, Take)
    case WCheck => (if waitEmpty && queue == [] then WNotify else WTest, Keep)
    case WNotify => (WTest, Keep)
    case WTest => if queue != [] then (WTake, Keep) else (WSleep, Drop)
    case WSleep => (WSleep, Keep)
    case WWoken => (WTest, Take)
    case WTake => (WRel(queue[0]), Keep)
    case WRel(task) => (WRun(task), Drop)
    case WRun(_) => (WAcq, Keep)
  }

  function NextP(p: PPc): (PPc, Use) {
    match p
    case PAcq(task) => (PPush(task), Take)
    case PPush(_) => (PRel, Keep)
    case PRel => (PNotify, Drop)
    case _ => (p, Keep)
  }

  function NextC(p: CPc, queue: seq<Task>): (CPc, Use) {
    match p
    case CIdle => (CIdle, Keep)
    case CAcq(m) => (CFirst(m), Take)
    case CFirst(m) => (if queue == [] then CRel(m) else CSet(m), Keep)
    case CSet(m) => (CTest(m), Keep)
    case CTest(m) => if queue == [] then (CClear(m), Keep) else (CSleep(m), Drop)
    case CSleep(_) => (p, Keep)
    case CWoken(m) => (CTest(m), Take)
    case CClear(m) => (CRel(m), Keep)
    case CRel(_) => (CIdle, Drop)
  }

  function Owned(mtx: Owner, use: Use, who: Owner): Owner {
    match use
    case Keep => mtx
    case Take => who
    case Drop => Nobody
  }

  /** notify_one on empty_cv_, which has at most the one waiter. */
  function WakeWaiter(c: CPc): CPc {
    if c.CSleep? then CWoken(c.mark) else c
  }

  ghost predicate Enabled(s: State, step: Step) {
    match step
    case WGo(w) =>
      && w in s.workers && w in s.ran && !s.workers[w].WSleep?
      && (s.workers[w].WTake? ==> s.queue != [])
      && (WNeeds(s.workers[w]) ==> s.mtx.Nobody?)
    case WSpurious(w) => w in s.workers && s.workers[w].WSleep?
    case PCall(p, _) => p in s.pushers && s.pushers[p].PIdle?
    case PGo(p) =>
      && p in s.pushers && !s.pushers[p].PIdle? && !s.pushers[p].PNotify?
      && (s.pushers[p].PAcq? ==> s.mtx.Nobody?)
    case PWake(p, w) => p in s.pushers && s.pushers[p].PNotify? && w in s.workers && s.workers[w].WSleep?
    case PWakeNobody(p) =>
      p in s.pushers && s.pushers[p].PNotify? && forall w :: w in s.workers ==> !s.workers[w].WSleep?
    case CCall => s.waiter.CIdle?
    case CGo => !s.waiter.CIdle? && !s.waiter.CSleep? && (CNeeds(s.waiter) ==> s.mtx.Nobody?)
    case CSpurious => s.waiter.CSleep?
  }

  function Apply(s: State, step: Step): State
    requires Enabled(s, step)
  {
    match step
    case WGo(w) =>
      var p := s.workers[w];
      var (p', use) := NextW(p, s.queue, s.waitEmpty);
      s.(workers := s.workers[w := p'], mtx := Owned(s.mtx, use, Worker(w)),
         waiter := if p.WNotify? then WakeWaiter(s.waiter) else s.waiter,
         queue := if p.WTake? then s.queue[1..] else s.queue,
         taken := if p.WTake? then s.taken + [(w, s.queue[0])] else s.taken,
         ran := if p.WRun? then s.ran[w := s.ran[w] + [p.task]] else s.ran)
    case WSpurious(w) => s.(workers := s.workers[w := WWoken])
    case PCall(p, task) => s.(pushers := s.pushers[p := PAcq(task)])
    case PGo(p) =>
      var (p', use) := NextP(s.pushers[p]);
      var added := if s.pushers[p].PPush? then [s.pushers[p].task] else [];
      s.(pushers := s.pushers[p := p'], mtx := Owned(s.mtx, use, Pusher(p)),
         queue := s.queue + added, pushed := s.pushed + added)
    case PWake(p, w) => s.(pushers := s.pushers[p := PIdle], workers := s.workers[w := WWoken])
    case PWakeNobody(p) => s.(pushers := s.pushers[p := PIdle])
    case CCall => s.(waiter := CAcq(|s.pushed|))
    case CGo =>
      var (c', use) := NextC(s.waiter, s.queue);
      s.(waiter := c', mtx := Owned(s.mtx, use, Waiter),
         waitEmpty := if s.waiter.CSet? then true else if s.waiter.CClear? then false else s.waitEmpty)
    case CSpurious => s.(waiter := CWoken(s.waiter.mark))
  }

  // --- The invariant ---------------------------------------------------------------------

  ghost predicate MutexOk(s: State) {
    && (forall w :: w in s.workers ==> (WHas(s.workers[w]) <==> s.mtx == Worker(w)))
    && (forall p :: p in s.pushers ==> (PHas(s.pushers[p]) <==> s.mtx == Pusher(p)))
    && (CHas(s.waiter) <==> s.mtx == Waiter)
    && (s.mtx.Worker? ==> s.mtx.w in s.workers)
    && (s.mtx.Pusher? ==> s.mtx.p in s.pushers)
  }

  function InHand(p: WPc): seq<Task> {
    if p.WRel? || p.WRun? then [p.task] else []
  }

  /** Every task is queued or taken, in push order. */
  ghost predicate Order(s: State) {
    && Items(s.taken) + s.queue == s.pushed
    && (forall i :: 0 <= i < |s.taken| ==> s.taken[i].0 in s.workers)
    && (forall w :: w in s.workers && s.workers[w].WTake? ==> s.queue != [])
  }

  /** What a worker took it has run or has in hand. */
  ghost predicate Shares(s: State) {
    && s.ran.Keys == s.workers.Keys
    && (forall w :: w in s.workers ==> By(s.taken, w) == s.ran[w] + InHand(s.workers[w]))
  }

  ghost predicate Conservation(s: State) {
    Count(s.workers, Asleep) > 0 ==> |s.queue| <= Count(s.pushers, Pending) + Count(s.workers, Seeking)
  }

  ghost predicate WaiterOk(s: State) {
    && (s.waitEmpty <==> Waiting(s.waiter))
    && (s.waiter.CSleep? && s.queue == [] ==> Count(s.workers, Owes) > 0)
    && (s.waiter.CClear? || s.waiter.CRel? ==> s.waiter.mark <= |s.taken|)
    && (!s.waiter.CIdle? ==> s.waiter.mark <= |s.pushed|)
    && (s.waiter.CClear? ==> s.queue == [])
  }

  ghost predicate Inv(s: State) {
    MutexOk(s) && Order(s) && Shares(s) && Conservation(s) && WaiterOk(s)
  }

  ghost predicate Init(s: State) {
    && (forall w :: w in s.workers ==> s.workers[w].WAcq?)
    && (forall p :: p in s.pushers ==> s.pushers[p].PIdle?)
    && s.waiter.CIdle? && s.mtx.Nobody? && s.queue == s.pushed == [] && s.taken == [] && !s.waitEmpty
    && s.ran.Keys == s.workers.Keys && forall w :: w in s.ran ==> s.ran[w] == []
  }

  lemma InitInv(s: State)
    requires Init(s)
    ensures Inv(s)
  {
    NoneCounted(s.workers, Asleep);
  }

  // --- Preservation ------------------------------------------------------------------------

  lemma NextWFits(p: WPc, queue: seq<Task>, waitEmpty: bool)
    requires p.WTake? ==> queue != []
    ensures var (p', use) := NextW(p, queue, waitEmpty);
            && (WHas(p') <==> use.Take? || (use.Keep? && WHas(p)))
            && (use.Take? ==> WNeeds(p)) && (use.Drop? ==> WHas(p))
            && (Asleep(p') && !Asleep(p) ==> queue == [])
            && (p'.WTake? ==> queue != [])
            && InHand(p') == (if p.WTake? then [queue[0]] else if p.WRun? then [] else InHand(p))
  {
  }

  lemma WMutex(s: State, w: Tid)
    requires MutexOk(s) && Enabled(s, WGo(w))
    ensures MutexOk(Apply(s, WGo(w)))
  {
    NextWFits(s.workers[w], s.queue, s.waitEmpty);
  }

  lemma WOrder(s: State, w: Tid)
    requires MutexOk(s) && Order(s) && Enabled(s, WGo(w))
    ensures Order(Apply(s, WGo(w)))
  {
    var s' := Apply(s, WGo(w));
    if s.workers[w].WTake? {
      assert Items(s'.taken) == Items(s.taken) + [s.queue[0]];
      assert s.queue == [s.queue[0]] + s'.queue;
    }
  }

  /** One worker's share over one operation of a worker w at p. */
  lemma ShareKept(taken: seq<(Tid, Task)>, ran: seq<Task>, q: WPc, w: Tid, u: Tid, p: WPc, queue: seq<Task>, waitEmpty: bool)
    requires By(taken, u) == ran + InHand(q) && (u == w ==> q == p) && (p.WTake? ==> queue != [])
    ensures By(if p.WTake? then taken + [(w, queue[0])] else taken, u)
            == (if u == w && p.WRun? then ran + [p.task] else ran)
               + InHand(if u == w then NextW(p, queue, waitEmpty).0 else q)
  {
    if p.WTake? { OneMore(taken, w, queue[0], u); }
    if u == w { NextWFits(p, queue, waitEmpty); }
  }

  lemma WShares(s: State, w: Tid)
    requires Shares(s) && Enabled(s, WGo(w))
    ensures Shares(Apply(s, WGo(w)))
  {
    forall u | u in s.workers
      ensures var s' := Apply(s, WGo(w)); By(s'.taken, u) == s'.ran[u] + InHand(s'.workers[u])
    {
      ShareKept(s.taken, s.ran[u], s.workers[u], w, u, s.workers[w], s.queue, s.waitEmpty);
    }
  }

  lemma WConservation(s: State, w: Tid)
    requires Inv(s) && Enabled(s, WGo(w))
    ensures Conservation(Apply(s, WGo(w)))
  {
    var p' := NextW(s.workers[w], s.queue, s.waitEmpty).0;
    Moved(s.workers, w, p', Asleep);
    Moved(s.workers, w, p', Seeking);
  }

  lemma WWaiter(s: State, w: Tid)
    requires Inv(s) && Enabled(s, WGo(w))
    ensures WaiterOk(Apply(s, WGo(w)))
  {
    var p' := NextW(s.workers[w], s.queue, s.waitEmpty).0;
    Moved(s.workers, w, p', Owes);
    assert CHas(s.waiter) ==> !WHas(s.workers[w]);
  }

  lemma WakeWorker(s: State, w: Tid)
    requires Inv(s) && w in s.workers && s.workers[w].WSleep?
    ensures Inv(s.(workers := s.workers[w := WWoken]))
    ensures Count(s.workers[w := WWoken], Seeking) == Count(s.workers, Seeking) + 1
  {
    WakeCounts(s.workers, w);
    WakeShares(s, w);
  }

  lemma WakeShares(s: State, w: Tid)
    requires MutexOk(s) && Shares(s) && w in s.workers && s.workers[w].WSleep?
    ensures MutexOk(s.(workers := s.workers[w := WWoken])) && Shares(s.(workers := s.workers[w := WWoken]))
  {
  }

  lemma WakeCounts(workers: map<Tid, WPc>, w: Tid)
    requires w in workers && workers[w].WSleep?
    ensures Count(workers[w := WWoken], Asleep) + 1 == Count(workers, Asleep)
    ensures Count(workers[w := WWoken], Seeking) == Count(workers, Seeking) + 1
    ensures Count(workers[w := WWoken], Owes) == Count(workers, Owes)
  {
    Moved(workers, w, WWoken, Asleep);
    Moved(workers, w, WWoken, Seeking);
    Moved(workers, w, WWoken, Owes);
  }

  lemma PInv(s: State, p: Tid)
    requires Inv(s) && Enabled(s, PGo(p))
    ensures Inv(Apply(s, PGo(p)))
  {
    Moved(s.pushers, p, NextP(s.pushers[p]).0, Pending);
    var s' := Apply(s, PGo(p));
    assert Items(s.taken) + s'.queue == s'.pushed;
  }

  lemma PNotified(s: State, p: Tid)
    requires Inv(s) && p in s.pushers && s.pushers[p].PNotify?
    requires Count(s.workers, Asleep) > 0 ==>
               |s.queue| + 1 <= Count(s.pushers, Pending) + Count(s.workers, Seeking)
    ensures Inv(s.(pushers := s.pushers[p := PIdle]))
  {
    Moved(s.pushers, p, PIdle, Pending);
  }

  lemma PWakeInv(s: State, p: Tid, w: Tid)
    requires Inv(s) && Enabled(s, PWake(p, w))
    ensures Inv(Apply(s, PWake(p, w)))
  {
    WakeWorker(s, w);
    CountPositive(s.workers, w, Asleep);
    PNotified(s.(workers := s.workers[w := WWoken]), p);
  }

  lemma PCallInv(s: State, p: Tid, task: Task)
    requires Inv(s) && Enabled(s, PCall(p, task))
    ensures Inv(Apply(s, PCall(p, task)))
  {
    Moved(s.pushers, p, PAcq(task), Pending);
  }

  /** The caller moves without the mutex: it calls, or wakes spuriously. */
  lemma WaiterMoves(s: State, c: CPc)
    requires Inv(s) && ((c.CAcq? && s.waiter.CIdle?) || (c.CWoken? && s.waiter.CSleep?)) && c.mark <= |s.pushed|
    ensures Inv(s.(waiter := c))
  {
  }

  /** The mutex over one step of the caller, and what it knows of the queue. */
  lemma CMutex(s: State)
    requires MutexOk(s) && Enabled(s, CGo)
    ensures MutexOk(Apply(s, CGo))
  {
  }

  lemma CWaiter(s: State)
    requires Order(s) && MutexOk(s) && WaiterOk(s) && Enabled(s, CGo)
    requires s.queue == [] ==> |s.taken| == |s.pushed|
    ensures WaiterOk(Apply(s, CGo))
  {
  }

  lemma CInv(s: State)
    requires Inv(s) && Enabled(s, CGo)
    ensures Inv(Apply(s, CGo))
  {
    assert |Items(s.taken)| + |s.queue| == |s.pushed|;
    CMutex(s);
    CWaiter(s);
  }

  lemma WInv(s: State, w: Tid)
    requires Inv(s) && Enabled(s, WGo(w))
    ensures Inv(Apply(s, WGo(w)))
  {
    WMutex(s, w);
    WOrder(s, w);
    WShares(s, w);
    WConservation(s, w);
    WWaiter(s, w);
  }

  lemma StepInv(s: State, step: Step)
    requires Inv(s) && Enabled(s, step)
    ensures Inv(Apply(s, step))
  {
    match step
    case WGo(w) => WInv(s, w);
    case WSpurious(w) => WakeWorker(s, w);
    case PCall(p, task) => PCallInv(s, p, task);
    case PGo(p) => PInv(s, p);
    case PWake(p, w) => PWakeInv(s, p, w);
    case PWakeNobody(p) =>
      NoneCounted(s.workers, Asleep);
      PNotified(s, p);
    case CCall => WaiterMoves(s, CAcq(|s.pushed|));
    case CGo => CInv(s);
    case CSpurious => WaiterMoves(s, CWoken(s.waiter.mark));
  }

  ghost predicate Reaches(s: State, steps: seq<Step>, s': State)
    decreases |steps|
  {
    if steps == [] then s' == s
    else Enabled(s, steps[0]) && Reaches(Apply(s, steps[0]), steps[1..], s')
  }

  lemma {:induction false} RunInv(s: State, steps: seq<Step>, s': State)
    requires Inv(s) && Reaches(s, steps, s')
    ensures Inv(s')
    decreases |steps|
  {
    if steps != [] {
      StepInv(s, steps[0]);
      RunInv(Apply(s, steps[0]), steps[1..], s');
    }
  }

  // --- Main results --------------------------------------------------------------------------

  /**
   While a worker sleeps unsignalled, every queued task is matched by a notification still to
   come or by a worker that is awake and looking for work: no wake-up is lost, although
   pushTask notifies after it has released the mutex and waits may wake spuriously.
   */
  lemma WorkConserved(s0: State, steps: seq<Step>, s: State)
    requires Init(s0) && Reaches(s0, steps, s) && Count(s.workers, Asleep) > 0
    ensures |s.queue| <= Count(s.pushers, Pending) + Count(s.workers, Seeking)
    ensures s.queue != [] ==> (exists p :: p in s.pushers && Pending(s.pushers[p]))
                              || (exists w :: w in s.workers && Seeking(s.workers[w]))
  {
    InitInv(s0);
    RunInv(s0, steps, s);
    if Count(s.pushers, Pending) > 0 {
      var p := Witness(s.pushers, Pending);
    } else if Count(s.workers, Seeking) > 0 {
      var w := Witness(s.workers, Seeking);
    }
  }

  predicate IsWork(step: Step) {
    step.WGo? || step.PGo? || step.PWake? || step.PWakeNobody? || step.CGo?
  }

  /** While tasks are queued something can always move: a task, a worker, a notification. */
  lemma NoStrandedTask(s0: State, steps: seq<Step>, s: State) returns (step: Step)
    requires Init(s0) && Reaches(s0, steps, s) && s.queue != [] && s.workers != map[]
    ensures Enabled(s, step) && IsWork(step)
  {
    InitInv(s0);
    RunInv(s0, steps, s);
    match s.mtx
    case Worker(w) => step := WGo(w);
    case Pusher(p) => step := PGo(p);
    case Waiter => step := CGo;
    case Nobody =>
      var w :| w in s.workers;
      if !s.workers[w].WSleep? {
        step := WGo(w);
      } else {
        step := SomeoneComes(s, w);
      }
  }

  lemma SomeoneComes(s: State, w: Tid) returns (step: Step)
    requires Inv(s) && s.queue != [] && s.mtx.Nobody? && w in s.workers && s.workers[w].WSleep?
    ensures Enabled(s, step) && IsWork(step)
  {
    CountPositive(s.workers, w, Asleep);
    if Count(s.workers, Seeking) > 0 {
      var v := Witness(s.workers, Seeking);
      step := WGo(v);
    } else {
      var p := Witness(s.pushers, Pending);
      step := PWake(p, w);
    }
  }

  // --- How far the front task is from being taken ------------------------------------------------

  /** Ranks that fall with every operation; a notification pays for the thread it wakes. */
  function WRank(p: WPc): nat {
    match p
    case WSleep => 0
    case WTake => 1
    case WTest => 2
    case WWoken => 3
    case WNotify => 6
    case WCheck => 7
    case WAcq => 8
    case WRun(_) => 9
    case WRel(_) => 10
  }

  function PRank(p: PPc): nat {
    match p
    case PIdle => 0
    case PNotify => 4
    case PRel => 5
    case PPush(_) => 6
    case PAcq(_) => 7
  }

  function CRank(p: CPc): nat {
    match p
    case CIdle => 0
    case CSleep(_) => 0
    case CRel(_) => 1
    case CTest(_) => 2
    case CClear(_) => 2
    case CWoken(_) => 3
    case CSet(_) => 3
    case CFirst(_) => 4
    case CAcq(_) => 5
  }

  ghost function Distance(s: State): nat {
    Total(s.workers, WRank, 10) + Total(s.pushers, PRank, 7) + CRank(s.waiter)
  }

  lemma WCloser(s: State, w: Tid)
    requires Enabled(s, WGo(w)) && s.queue != [] && !s.workers[w].WTake?
    ensures Distance(Apply(s, WGo(w))) < Distance(s)
  {
    TotalMoved(s.workers, w, NextW(s.workers[w], s.queue, s.waitEmpty).0, WRank, 10);
  }

  lemma PCloser(s: State, p: Tid)
    requires Enabled(s, PGo(p))
    ensures Distance(Apply(s, PGo(p))) < Distance(s)
  {
    TotalMoved(s.pushers, p, NextP(s.pushers[p]).0, PRank, 7);
  }

  lemma NotifyCloser(s: State, p: Tid, w: Tid)
    requires Enabled(s, PWake(p, w))
    ensures Distance(Apply(s, PWake(p, w))) < Distance(s)
  {
    TotalMoved(s.pushers, p, PIdle, PRank, 7);
    TotalMoved(s.workers, w, WWoken, WRank, 10);
  }

  /** A working step takes the front task or lowers the distance; a call or a spurious wake-up adds at most 7. */
  lemma StepCloser(s: State, step: Step)
    requires Enabled(s, step) && s.queue != [] && Apply(s, step).taken == s.taken
    ensures if IsWork(step) then Distance(Apply(s, step)) < Distance(s) else Distance(Apply(s, step)) <= Distance(s) + 7
    ensures Apply(s, step).queue != []
  {
    match step
    case WGo(w) => WCloser(s, w);
    case WSpurious(w) => TotalMoved(s.workers, w, WWoken, WRank, 10);
    case PCall(p, task) => TotalMoved(s.pushers, p, PAcq(task), PRank, 7);
    case PGo(p) => PCloser(s, p);
    case PWake(p, w) => NotifyCloser(s, p, w);
    case PWakeNobody(p) => TotalMoved(s.pushers, p, PIdle, PRank, 7);
    case _ =>
  }

  function Works(steps: seq<Step>): nat {
    if steps == [] then 0 else (if IsWork(steps[0]) then 1 else 0) + Works(steps[1..])
  }

  lemma {:induction false} TakenGrows(s: State, steps: seq<Step>, s': State)
    requires Reaches(s, steps, s')
    ensures s.taken <= s'.taken
    decreases |steps|
  {
    if steps != [] {
      TakenGrows(Apply(s, steps[0]), steps[1..], s');
    }
  }

  /**
   With a task queued a run can go on only so long before a task is taken: its working steps are
   bounded by the distance at its start and seven for each new call or spurious wake-up in it.
   */
  lemma {:induction false} TakenWithin(s: State, steps: seq<Step>, s': State)
    requires s.queue != [] && Reaches(s, steps, s') && s'.taken == s.taken
    ensures Works(steps) + Distance(s') <= Distance(s) + 7 * (|steps| - Works(steps))
    decreases |steps|
  {
    if steps != [] {
      var s1 := Apply(s, steps[0]);
      TakenGrows(s1, steps[1..], s');
      StepCloser(s, steps[0]);
      TakenWithin(s1, steps[1..], s');
    }
  }

  // --- What the callers handed over --------------------------------------------------------------

  /** The calls of pushTask under way, each with the number of PGo steps since: PGo takes the mutex, then pushes. */
  function CallsAfter(calls: map<Tid, (Task, nat)>, step: Step): map<Tid, (Task, nat)> {
    match step
    case PCall(p, task) => calls[p := (task, 0)]
    case PGo(p) => if p in calls then calls[p := (calls[p].0, calls[p].1 + 1)] else calls
    case _ => calls
  }

  function Given(calls: map<Tid, (Task, nat)>, step: Step): seq<Task> {
    if step.PGo? && step.p in calls && calls[step.p].1 == 1 then [calls[step.p].0] else []
  }

  /** The tasks of a run's pushTask calls that got past their push, by the steps alone. */
  function Handed(calls: map<Tid, (Task, nat)>, steps: seq<Step>): seq<Task>
    decreases |steps|
  {
    if steps == [] then [] else Given(calls, steps[0]) + Handed(CallsAfter(calls, steps[0]), steps[1..])
  }

  /** The last call of each pusher over a run, with the number of its PGo steps. */
  function LastCalls(calls: map<Tid, (Task, nat)>, steps: seq<Step>): map<Tid, (Task, nat)>
    decreases |steps|
  {
    if steps == [] then calls else LastCalls(CallsAfter(calls, steps[0]), steps[1..])
  }

  predicate Awaits(p: PPc, called: bool, call: (Task, nat)) {
    match p
    case PAcq(task) => called && call == (task, 0)
    case PPush(task) => called && call == (task, 1)
    case _ => called ==> call.1 >= 2
  }

  ghost predicate Called(s: State, calls: map<Tid, (Task, nat)>) {
    forall p :: p in s.pushers ==> Awaits(s.pushers[p], p in calls, if p in calls then calls[p] else (0, 0))
  }

  lemma HandedGo(s: State, p: Tid, calls: map<Tid, (Task, nat)>)
    requires Enabled(s, PGo(p)) && Called(s, calls)
    ensures Called(Apply(s, PGo(p)), CallsAfter(calls, PGo(p)))
    ensures Apply(s, PGo(p)).pushed == s.pushed + Given(calls, PGo(p))
  {
    assert Awaits(s.pushers[p], p in calls, if p in calls then calls[p] else (0, 0));
  }

  lemma HandedStep(s: State, step: Step, calls: map<Tid, (Task, nat)>)
    requires Enabled(s, step) && Called(s, calls)
    ensures Called(Apply(s, step), CallsAfter(calls, step))
    ensures Apply(s, step).pushed == s.pushed + Given(calls, step)
  {
    if step.PGo? { HandedGo(s, step.p, calls); }
  }

  lemma {:induction false} HandedPushed(s: State, steps: seq<Step>, s': State, calls: map<Tid, (Task, nat)>)
    requires Reaches(s, steps, s') && Called(s, calls)
    ensures s'.pushed == s.pushed + Handed(calls, steps) && Called(s', LastCalls(calls, steps))
    decreases |steps|
  {
    if steps != [] {
      var rest, calls' := steps[1..], CallsAfter(calls, steps[0]);
      HandedStep(s, steps[0], calls);
      HandedPushed(Apply(s, steps[0]), rest, s', calls');
      Regroup(s.pushed, Given(calls, steps[0]), Handed(calls', rest));
    }
  }

  /**
   Every task handed over is taken from the queue once, in the order of the pushes, or still
   queued, and no pushTask returns before it has pushed; and the tasks a worker took are those it
   has run, in that order, then the one in its hands.
   */
  lemma DispatchOnce(s0: State, steps: seq<Step>, s: State, w: Tid)
    requires Init(s0) && Reaches(s0, steps, s) && w in s.workers
    ensures Items(s.taken) + s.queue == s.pushed == Handed(map[], steps)
    ensures forall p :: p in s.pushers && s.pushers[p].PIdle? && p in LastCalls(map[], steps) ==> LastCalls(map[], steps)[p].1 >= 2
    ensures forall i :: 0 <= i < |s.taken| ==> s.taken[i].0 in s.workers
    ensures w in s.ran && By(s.taken, w) == s.ran[w] + InHand(s.workers[w])
  {
    InitInv(s0);
    RunInv(s0, steps, s);
    HandedPushed(s0, steps, s, map[]);
    forall p | p in s.pushers && s.pushers[p].PIdle? && p in LastCalls(map[], steps) ensures LastCalls(map[], steps)[p].1 >= 2 {
      assert Awaits(s.pushers[p], true, LastCalls(map[], steps)[p]);
    }
  }

  /**
   The caller of waitUntilFinished is not forgotten: if it sleeps unsignalled on an empty
   queue, some worker is executing or about to make the check that notifies it.
   */
  lemma WaiterNotForgotten(s0: State, steps: seq<Step>, s: State) returns (w: Tid)
    requires Init(s0) && Reaches(s0, steps, s) && s.waiter.CSleep? && s.queue == []
    ensures w in s.workers && Owes(s.workers[w])
    ensures s.waitEmpty
  {
    InitInv(s0);
    RunInv(s0, steps, s);
    w := Witness(s.workers, Owes);
  }

  /** Over a run without a new call the caller remembers how many tasks had been pushed before its call. */
  lemma {:induction false} MarkKept(s: State, steps: seq<Step>, s': State)
    requires Reaches(s, steps, s') && CCall !in steps
    ensures s'.waiter.CIdle? || (!s.waiter.CIdle? && s'.waiter.mark == s.waiter.mark)
    ensures s.pushed <= s'.pushed
    decreases |steps|
  {
    if steps != [] { MarkKept(Apply(s, steps[0]), steps[1..], s'); }
  }

  /** When waitUntilFinished returns, every task pushed before the call has been dequeued. */
  lemma WaitMeansDequeued(s0: State, before: seq<Step>, s1: State, during: seq<Step>, s: State)
    requires Init(s0) && Reaches(s0, before, s1) && Enabled(s1, CCall)
    requires Reaches(Apply(s1, CCall), during, s) && CCall !in during && s.waiter.CRel?
    ensures s1.pushed <= Items(s.taken)
  {
    InitInv(s0);
    RunInv(s0, before, s1);
    StepInv(s1, CCall);
    RunInv(Apply(s1, CCall), during, s);
    MarkKept(Apply(s1, CCall), during, s);
  }
}
