/**
 TrantorShareMutex: readers and writers over two mutexes, two counters and two condition
 variables, for any number of threads and every interleaving.

 A step is one mutex or condition-variable operation, or one access to a counter.  A wait
 whose predicate is false goes to sleep and releases its mutex in one step; the mutex is held
 from the test on, so nothing can come between.
 */
module ShareMutex {
  import opened Threads

  datatype Pc =
    | Idle
    // readLock
    | RAcqW | RTest | RSleep | RWoken | RAcqR | RInc | RRelR | RRelW
    | Reading
    // writeLock
    | WAcqW | WTest | WSleep | WWoken | WAcqR | WTestR | WSleepR | WWokenR | WInc | WRelR | WRelW
    | Writing
    // readUnLock
    | UAcqR | UDec | UNotify | URel
    // writeUnLock
    | VAcqW | VDec | VNotify | VRel

  datatype State = State(pc: map<Tid, Pc>, writeMtx: Mutex, readMtx: Mutex, readCount: nat, writeCount: nat)

  /** The calls of the four functions, the next operation of a thread inside one, and notifications, which carry a choice. */
  datatype Step =
    | CallRead(t: Tid)
    | CallWrite(t: Tid)
    | CallReadUnlock(t: Tid)
    | CallWriteUnlock(t: Tid)
    | Go(t: Tid)
    | Notify(t: Tid, target: Tid)
    | NotifyNobody(t: Tid)
    | Spurious(t: Tid)

  /** Outside the four functions. */
  predicate AtRest(p: Pc) { p.Idle? || p.Reading? || p.Writing? }

  predicate Asleep(p: Pc) { p.RSleep? || p.WSleep? || p.WSleepR? }

  /** Threads holding write_mtx_. */
  predicate HasW(p: Pc) {
    p.RTest? || p.RAcqR? || p.RInc? || p.RRelR? || p.RRelW?
    || p.WTest? || p.WAcqR? || p.WTestR? || p.WSleepR? || p.WWokenR? || p.WInc? || p.WRelR? || p.WRelW?
    || p.VDec? || p.VNotify? || p.VRel?
  }

  /** Threads holding read_mtx_. */
  predicate HasR(p: Pc) {
    p.RInc? || p.RRelR? || p.WTestR? || p.WInc? || p.WRelR? || p.UDec? || p.UNotify? || p.URel?
  }

  /** Threads that hold the lock for reading, by the count. */
  predicate Reader(p: Pc) { p.RRelR? || p.RRelW? || p.Reading? || p.UAcqR? || p.UDec? }

  predicate Writer(p: Pc) { p.WRelR? || p.WRelW? || p.Writing? || p.VAcqW? || p.VDec? }

  /** The writer waiting for the readers to leave, from its first test on. */
  predicate Draining(p: Pc) { p.WAcqR? || p.WTestR? || p.WSleepR? || p.WWokenR? }

  predicate NeedsW(p: Pc) { p.RAcqW? || p.RWoken? || p.WAcqW? || p.WWoken? || p.VAcqW? }

  predicate NeedsR(p: Pc) { p.RAcqR? || p.WAcqR? || p.WWokenR? || p.UAcqR? }

  /** The sleepers a notification by p can reach. */
  predicate Listens(p: Pc, sleeper: Pc) {
    (p.UNotify? && sleeper.WSleepR?) || (p.VNotify? && (sleeper.RSleep? || sleeper.WSleep?))
  }

  function Woken(p: Pc): Pc {
    match p
    case RSleep => RWoken
    case WSleep => WWoken
    case WSleepR => WWokenR
    case _ => p
  }

  ghost predicate Enabled(s: State, step: Step) {
    step.t in s.pc &&
    var p := s.pc[step.t];
    match step
    case CallRead(_) => p.Idle?
    case CallWrite(_) => p.Idle?
    case CallReadUnlock(_) => p.Reading?
    case CallWriteUnlock(_) => p.Writing?
    case Go(_) =>
      && !AtRest(p) && !Asleep(p) && !p.UNotify? && !p.VNotify?
      && (NeedsW(p) ==> s.writeMtx.Free?)
      && (NeedsR(p) ==> s.readMtx.Free?)
    case Notify(_, target) => (p.UNotify? || p.VNotify?) && target in s.pc && Listens(p, s.pc[target])
    case NotifyNobody(_) => (p.UNotify? || p.VNotify?) && forall u :: u in s.pc ==> !Listens(p, s.pc[u])
    case Spurious(_) => Asleep(p)
  }

  /** One operation: where the thread goes, what it does to the two mutexes, the new counters. */
  datatype Effect = Effect(pc: Pc, write: Use, read: Use, readCount: nat, writeCount: nat)

  /** The next operation of a thread, by the text of the four functions. */
  function Next(p: Pc, rc: nat, wc: nat): Effect {
    match p
    case RAcqW => Effect(RTest, Take, Keep, rc, wc)
    case RTest => if wc == 0 then Effect(RAcqR, Keep, Keep, rc, wc) else Effect(RSleep, Drop, Keep, rc, wc)
    case RWoken => Effect(RTest, Take, Keep, rc, wc)
    case RAcqR => Effect(RInc, Keep, Take, rc, wc)
    case RInc => Effect(RRelR, Keep, Keep, rc + 1, wc)
    case RRelR => Effect(RRelW, Keep, Drop, rc, wc)
    case RRelW => Effect(Reading, Drop, Keep, rc, wc)
    case WAcqW => Effect(WTest, Take, Keep, rc, wc)
    case WTest => if wc == 0 then Effect(WAcqR, Keep, Keep, rc, wc) else Effect(WSleep, Drop, Keep, rc, wc)
    case WWoken => Effect(WTest, Take, Keep, rc, wc)
    case WAcqR => Effect(WTestR, Keep, Take, rc, wc)
    case WTestR => if rc == 0 then Effect(WInc, Keep, Keep, rc, wc) else Effect(WSleepR, Keep, Drop, rc, wc)
    case WWokenR => Effect(WTestR, Keep, Take, rc, wc)
    case WInc => Effect(WRelR, Keep, Keep, rc, wc + 1)
    case WRelR => Effect(WRelW, Keep, Drop, rc, wc)
    case WRelW => Effect(Writing, Drop, Keep, rc, wc)
    case UAcqR => Effect(UDec, Keep, Take, rc, wc)
    case UDec =>
      if rc > 0 then Effect(if rc == 1 then UNotify else URel, Keep, Keep, rc - 1, wc)
      else Effect(URel, Keep, Keep, rc, wc)
    case URel => Effect(Idle, Keep, Drop, rc, wc)
    case VAcqW => Effect(VDec, Take, Keep, rc, wc)
    case VDec =>
      if wc > 0 then Effect(if wc == 1 then VNotify else VRel, Keep, Keep, rc, wc - 1)
      else Effect(VRel, Keep, Keep, rc, wc)
    case VRel => Effect(Idle, Drop, Keep, rc, wc)
    case _ => Effect(p, Keep, Keep, rc, wc)
  }

  function Do(s: State, t: Tid, e: Effect): State {
    State(s.pc[t := e.pc], Used(s.writeMtx, e.write, t), Used(s.readMtx, e.read, t), e.readCount, e.writeCount)
  }

  function At(s: State, t: Tid, p: Pc): State {
    s.(pc := s.pc[t := p])
  }

  function AfterNotify(p: Pc): Pc {
    if p.UNotify? then URel else VRel
  }

  function Apply(s: State, step: Step): State
    requires step.t in s.pc
  {
    match step
    case CallRead(t) => At(s, t, RAcqW)
    case CallWrite(t) => At(s, t, WAcqW)
    case CallReadUnlock(t) => At(s, t, UAcqR)
    case CallWriteUnlock(t) => At(s, t, VAcqW)
    case Go(t) => Do(s, t, Next(s.pc[t], s.readCount, s.writeCount))
    case Notify(t, target) =>
      if target in s.pc then At(At(s, target, Woken(s.pc[target])), t, AfterNotify(s.pc[t])) else s
    case NotifyNobody(t) => At(s, t, AfterNotify(s.pc[t]))
    case Spurious(t) => At(s, t, Woken(s.pc[t]))
  }

  // --- The invariant -------------------------------------------------------------------

  ghost predicate Mutexes(s: State) {
    && (forall t :: t in s.pc ==> (HasW(s.pc[t]) <==> s.writeMtx == Held(t)))
    && (forall t :: t in s.pc ==> (HasR(s.pc[t]) <==> s.readMtx == Held(t)))
    && (s.writeMtx.Held? ==> s.writeMtx.holder in s.pc)
    && (s.readMtx.Held? ==> s.readMtx.holder in s.pc)
  }

  /** What a thread knows about the counters from the mutexes it holds. */
  predicate Knows(p: Pc, readCount: nat, writeCount: nat) {
    && (p.RAcqR? || p.RInc? || p.RRelR? || p.RRelW? || Draining(p) || p.WInc? || p.VNotify? ==> writeCount == 0)
    && (p.WInc? || p.UNotify? ==> readCount == 0)
  }

  ghost predicate Inv(s: State) {
    && Mutexes(s)
    && s.readCount == Count(s.pc, Reader)
    && s.writeCount == Count(s.pc, Writer)
    && s.writeCount <= 1
    && (s.writeCount > 0 ==> s.readCount == 0)
    && (forall t {:trigger s.pc[t]} :: t in s.pc ==> Knows(s.pc[t], s.readCount, s.writeCount))
    && (forall t {:trigger s.pc[t]} :: t in s.pc && s.pc[t].WSleepR? && s.readCount == 0 ==>
          s.readMtx.Held? && s.readMtx.holder in s.pc && s.pc[s.readMtx.holder].UNotify?)
  }

  ghost predicate Init(s: State) {
    && (forall t :: t in s.pc ==> s.pc[t].Idle?)
    && s.writeMtx == s.readMtx == Free && s.readCount == s.writeCount == 0
  }

  lemma InitInv(s: State)
    requires Init(s)
    ensures Inv(s)
  {
    NoneCounted(s.pc, Reader);
    NoneCounted(s.pc, Writer);
  }

  /** How one operation moves the two mutexes. */
  predicate FitsMutexes(p: Pc, e: Effect) {
    && (HasW(e.pc) <==> e.write.Take? || (e.write.Keep? && HasW(p)))
    && (HasR(e.pc) <==> e.read.Take? || (e.read.Keep? && HasR(p)))
    && (e.write.Take? ==> NeedsW(p)) && (e.write.Drop? ==> HasW(p))
    && (e.read.Take? ==> NeedsR(p)) && (e.read.Drop? ==> HasR(p))
    && (p.UNotify? ==> e.read.Keep? && e.pc == p)
  }

  /** How one operation moves the two counters, and under which mutexes. */
  predicate FitsCounts(p: Pc, rc: nat, wc: nat, e: Effect) {
    && e.readCount - rc == (if Reader(e.pc) then 1 else 0) - (if Reader(p) then 1 else 0)
    && e.writeCount - wc == (if Writer(e.pc) then 1 else 0) - (if Writer(p) then 1 else 0)
    && (e.readCount != rc ==> HasR(p))
    && (e.writeCount != wc ==> HasW(p))
    && (e.readCount > rc ==> HasW(p) && wc == e.writeCount == 0)
    && (e.writeCount > wc ==> wc == 0 && rc == e.readCount == 0)
    && (e.readCount == 0 && rc > 0 ==> e.pc.UNotify?)
  }

  predicate Fits(p: Pc, rc: nat, wc: nat, e: Effect) {
    && FitsMutexes(p, e) && FitsCounts(p, rc, wc, e)
    && Knows(e.pc, e.readCount, e.writeCount)
    && (e.pc.WSleepR? ==> rc > 0 && e.readCount == rc)
  }

  lemma NextFitsMutexes(p: Pc, rc: nat, wc: nat)
    ensures FitsMutexes(p, Next(p, rc, wc))
  {
  }

  lemma NextFitsCounts(p: Pc, rc: nat, wc: nat)
    requires Knows(p, rc, wc) && (Reader(p) ==> rc > 0) && (Writer(p) ==> wc > 0)
    ensures FitsCounts(p, rc, wc, Next(p, rc, wc))
  {
    NextCounts(p, rc, wc);
    NextGuards(p, rc, wc);
  }

  lemma NextCounts(p: Pc, rc: nat, wc: nat)
    requires (Reader(p) ==> rc > 0) && (Writer(p) ==> wc > 0)
    ensures var e := Next(p, rc, wc);
            && e.readCount - rc == (if Reader(e.pc) then 1 else 0) - (if Reader(p) then 1 else 0)
            && e.writeCount - wc == (if Writer(e.pc) then 1 else 0) - (if Writer(p) then 1 else 0)
  {
  }

  lemma NextGuards(p: Pc, rc: nat, wc: nat)
    requires Knows(p, rc, wc)
    ensures var e := Next(p, rc, wc);
            && (e.readCount != rc ==> HasR(p))
            && (e.writeCount != wc ==> HasW(p))
            && (e.readCount > rc ==> HasW(p) && wc == e.writeCount == 0)
            && (e.writeCount > wc ==> wc == 0 && rc == e.readCount == 0)
            && (e.readCount == 0 && rc > 0 ==> e.pc.UNotify?)
  {
  }

  lemma NextKnows(p: Pc, rc: nat, wc: nat)
    requires Knows(p, rc, wc) && !p.WSleepR?
    ensures var e := Next(p, rc, wc);
            Knows(e.pc, e.readCount, e.writeCount) && (e.pc.WSleepR? ==> rc > 0 && e.readCount == rc)
  {
  }

  lemma MutexesKept(s: State, t: Tid, e: Effect)
    requires Mutexes(s) && t in s.pc && Fits(s.pc[t], s.readCount, s.writeCount, e)
    requires (NeedsW(s.pc[t]) ==> s.writeMtx.Free?) && (NeedsR(s.pc[t]) ==> s.readMtx.Free?)
    ensures Mutexes(Do(s, t, e))
  {
  }

  lemma CountsKept(s: State, t: Tid, e: Effect)
    requires Inv(s) && t in s.pc && Fits(s.pc[t], s.readCount, s.writeCount, e)
    ensures var s' := Do(s, t, e);
            s'.readCount == Count(s'.pc, Reader) && s'.writeCount == Count(s'.pc, Writer)
  {
    Moved(s.pc, t, e.pc, Reader);
    Moved(s.pc, t, e.pc, Writer);
  }

  /** The counter a thread relies on is covered by a mutex it holds. */
  lemma KnowsKept(s: State, t: Tid, e: Effect, u: Tid)
    requires Inv(s) && t in s.pc && u in s.pc && u != t && Fits(s.pc[t], s.readCount, s.writeCount, e)
    ensures Knows(s.pc[u], e.readCount, e.writeCount)
  {
    assert HasW(s.pc[u]) ==> !HasW(s.pc[t]);
    assert HasR(s.pc[u]) ==> !HasR(s.pc[t]);
  }

  lemma DoInv(s: State, t: Tid, e: Effect)
    requires Inv(s) && t in s.pc && Fits(s.pc[t], s.readCount, s.writeCount, e)
    requires (NeedsW(s.pc[t]) ==> s.writeMtx.Free?) && (NeedsR(s.pc[t]) ==> s.readMtx.Free?)
    ensures Inv(Do(s, t, e))
  {
    MutexesKept(s, t, e);
    CountsKept(s, t, e);
    forall u | u in s.pc && u != t ensures Knows(s.pc[u], e.readCount, e.writeCount) {
      KnowsKept(s, t, e, u);
    }
  }

  /** A move between program points that neither hold anything differently nor count differently. */
  predicate Alike(p: Pc, q: Pc) {
    && HasW(p) == HasW(q) && HasR(p) == HasR(q) && Reader(p) == Reader(q) && Writer(p) == Writer(q)
  }

  lemma AlikeInv(s: State, t: Tid, p: Pc)
    requires Inv(s) && t in s.pc && Alike(s.pc[t], p) && !s.pc[t].UNotify? && !p.WSleepR?
    requires Knows(p, s.readCount, s.writeCount)
    ensures Inv(At(s, t, p))
  {
    Moved(s.pc, t, p, Reader);
    Moved(s.pc, t, p, Writer);
  }

  /** With its sleeper awake, the thread that emptied the readers may leave its notification. */
  lemma NotifiedInv(s: State, t: Tid)
    requires Inv(s) && t in s.pc && (s.pc[t].UNotify? || s.pc[t].VNotify?)
    requires s.pc[t].UNotify? ==> forall u :: u in s.pc ==> !s.pc[u].WSleepR?
    ensures Inv(At(s, t, AfterNotify(s.pc[t])))
  {
    Moved(s.pc, t, AfterNotify(s.pc[t]), Reader);
    Moved(s.pc, t, AfterNotify(s.pc[t]), Writer);
  }

  /** Only a holder of write_mtx_ sleeps on read_count_zero_cv_, so there is at most one. */
  lemma SoleSleeper(s: State, t: Tid, u: Tid)
    requires Inv(s) && t in s.pc && u in s.pc && s.pc[t].WSleepR? && s.pc[u].WSleepR?
    ensures t == u
  {
    assert HasW(s.pc[t]) && HasW(s.pc[u]);
  }

  lemma NotifyInv(s: State, t: Tid, target: Tid)
    requires Inv(s) && Enabled(s, Notify(t, target))
    ensures Inv(Apply(s, Notify(t, target)))
  {
    var s1 := At(s, target, Woken(s.pc[target]));
    AlikeInv(s, target, Woken(s.pc[target]));
    if s.pc[t].UNotify? {
      forall u | u in s1.pc ensures !s1.pc[u].WSleepR? {
        if s1.pc[u].WSleepR? { SoleSleeper(s, u, target); }
      }
    }
    NotifiedInv(s1, t);
  }

  lemma GoInv(s: State, t: Tid)
    requires Inv(s) && Enabled(s, Go(t))
    ensures Inv(Apply(s, Go(t)))
  {
    var p := s.pc[t];
    if Reader(p) { CountPositive(s.pc, t, Reader); }
    if Writer(p) { CountPositive(s.pc, t, Writer); }
    NextFitsMutexes(p, s.readCount, s.writeCount);
    NextFitsCounts(p, s.readCount, s.writeCount);
    NextKnows(p, s.readCount, s.writeCount);
    DoInv(s, t, Next(p, s.readCount, s.writeCount));
  }

  lemma CallInv(s: State, step: Step)
    requires Inv(s) && Enabled(s, step) && (step.CallRead? || step.CallWrite? || step.CallReadUnlock? || step.CallWriteUnlock?)
    ensures Inv(Apply(s, step))
  {
    var p := if step.CallRead? then RAcqW else if step.CallWrite? then WAcqW else if step.CallReadUnlock? then UAcqR else VAcqW;
    AlikeInv(s, step.t, p);
  }

  lemma StepInv(s: State, step: Step)
    requires Inv(s) && Enabled(s, step)
    ensures Inv(Apply(s, step))
  {
    match step
    case Go(t) => GoInv(s, t);
    case Notify(t, target) => NotifyInv(s, t, target);
    case NotifyNobody(t) => NotifiedInv(s, t);
    case Spurious(t) => AlikeInv(s, t, Woken(s.pc[t]));
    case _ => CallInv(s, step);
  }

  ghost predicate Reaches(s: State, steps: seq<Step>, s': State)
    decreases |steps|
  {
    if steps == [] then s' == s
    else Enabled(s, steps[0]) && Reaches(Apply(s, steps[0]), steps[1..], s')
  }

  lemma {:induction false} RunInv(s: State, steps: seq<Step>, s': State)
    requires Inv(s) && Reaches(s, steps, s')
    ensures Inv(s')
    decreases |steps|
  {
    if steps != [] {
      StepInv(s, steps[0]);
      RunInv(Apply(s, steps[0]), steps[1..], s');
    }
  }

  // --- Main results ----------------------------------------------------------------------

  /**
   In every reachable state the counters are the numbers of holders, a writer excludes every
   other holder, and a thread about to give its hold back finds the counter positive.
   */
  lemma LockSafety(s0: State, steps: seq<Step>, s: State, t: Tid, u: Tid)
    requires Init(s0) && Reaches(s0, steps, s) && t in s.pc && u in s.pc
    ensures s.readCount == Count(s.pc, Reader) && s.writeCount == Count(s.pc, Writer)
    ensures Writer(s.pc[t]) && (Writer(s.pc[u]) || Reader(s.pc[u])) ==> t == u
    ensures s.pc[t].UDec? ==> s.readCount > 0
    ensures s.pc[t].VDec? ==> s.writeCount > 0
    ensures s.readCount <= |s.pc|
  {
    InitInv(s0);
    RunInv(s0, steps, s);
    if Writer(s.pc[t]) {
      CountPositive(s.pc, t, Writer);
      if Writer(s.pc[u]) { AtMostOne(s.pc, t, u, Writer); }
      if Reader(s.pc[u]) { CountPositive(s.pc, u, Reader); }
    }
    if Reader(s.pc[t]) { CountPositive(s.pc, t, Reader); }
    SubsetSize(Where(s.pc, Reader), s.pc.Keys);
  }

  datatype Call = NoCall | ReadLock | WriteLock | ReadUnlock | WriteUnlock

  function Called(call: Call, step: Step, t: Tid): Call {
    if step.t != t then call
    else match step
      case CallRead(_) => ReadLock
      case CallWrite(_) => WriteLock
      case CallReadUnlock(_) => ReadUnlock
      case CallWriteUnlock(_) => WriteUnlock
      case _ => call
  }

  /** The last of the four functions a thread called, by the steps alone. */
  function LastCall(call: Call, steps: seq<Step>, t: Tid): Call
    decreases |steps|
  {
    if steps == [] then call else LastCall(Called(call, steps[0], t), steps[1..], t)
  }

  /** Where a thread can be after its last call: inside that function, or back from it. */
  predicate Serves(call: Call, p: Pc) {
    match call
    case NoCall => p.Idle?
    case ReadLock => p.RAcqW? || p.RTest? || p.RSleep? || p.RWoken? || p.RAcqR? || p.RInc? || p.RRelR? || p.RRelW? || p.Reading?
    case WriteLock =>
      || p.WAcqW? || p.WTest? || p.WSleep? || p.WWoken? || p.WAcqR? || p.WTestR? || p.WSleepR? || p.WWokenR?
      || p.WInc? || p.WRelR? || p.WRelW? || p.Writing?
    case ReadUnlock => p.UAcqR? || p.UDec? || p.UNotify? || p.URel? || p.Idle?
    case WriteUnlock => p.VAcqW? || p.VDec? || p.VNotify? || p.VRel? || p.Idle?
  }

  lemma NextServes(call: Call, p: Pc, rc: nat, wc: nat)
    requires Serves(call, p) && !AtRest(p)
    ensures Serves(call, Next(p, rc, wc).pc) && Serves(call, Woken(p))
    ensures p.UNotify? || p.VNotify? ==> Serves(call, AfterNotify(p))
  {
  }

  lemma StepServes(s: State, step: Step, t: Tid, call: Call)
    requires Enabled(s, step) && t in s.pc && Serves(call, s.pc[t])
    ensures t in Apply(s, step).pc && Serves(Called(call, step, t), Apply(s, step).pc[t])
  {
    var p := s.pc[t];
    if step.Go? && step.t == t {
      NextServes(call, p, s.readCount, s.writeCount);
    } else if !AtRest(p) {
      NextServes(call, p, 0, 0);
    }
  }

  lemma {:induction false} RunServes(s: State, steps: seq<Step>, s': State, t: Tid, call: Call)
    requires Reaches(s, steps, s') && t in s.pc && Serves(call, s.pc[t])
    ensures t in s'.pc && Serves(LastCall(call, steps, t), s'.pc[t])
    decreases |steps|
  {
    if steps != [] {
      StepServes(s, steps[0], t, call);
      RunServes(Apply(s, steps[0]), steps[1..], s', t, Called(call, steps[0], t));
    }
  }

  /** What a thread holds, by its last call: from a lock that has returned, and nothing of the other kind. */
  predicate HoldsAs(call: Call, p: Pc) {
    && (p.Reading? <==> AtRest(p) && call == ReadLock)
    && (p.Writing? <==> AtRest(p) && call == WriteLock)
    && (call == ReadLock ==> !Writer(p)) && (call == WriteLock ==> !Reader(p))
  }

  lemma ServesHolds(call: Call, p: Pc)
    requires Serves(call, p)
    ensures HoldsAs(call, p)
  {
  }

  /**
   Every thread gets the hold it asked for: back from readLock it is a reader and back from
   writeLock a writer, and back from an unlock it holds nothing.  A thread that is back from
   writeLock excludes every other thread that is back from either.
   */
  lemma LockAsCalled(s0: State, steps: seq<Step>, s: State, t: Tid, u: Tid)
    requires Init(s0) && Reaches(s0, steps, s) && t in s.pc && u in s.pc && t != u
    ensures HoldsAs(LastCall(NoCall, steps, t), s.pc[t])
    ensures AtRest(s.pc[t]) && LastCall(NoCall, steps, t) == WriteLock && AtRest(s.pc[u]) ==>
              LastCall(NoCall, steps, u) != ReadLock && LastCall(NoCall, steps, u) != WriteLock
  {
    KeptThreads(s0, steps, s);
    ThreadServed(s0, steps, s, t);
    ThreadServed(s0, steps, s, u);
    LockSafety(s0, steps, s, t, u);
  }

  lemma ThreadServed(s0: State, steps: seq<Step>, s: State, t: Tid)
    requires Init(s0) && Reaches(s0, steps, s) && t in s0.pc
    ensures t in s.pc && HoldsAs(LastCall(NoCall, steps, t), s.pc[t])
  {
    RunServes(s0, steps, s, t, NoCall);
    ServesHolds(LastCall(NoCall, steps, t), s.pc[t]);
  }

  lemma {:induction false} KeptThreads(s: State, steps: seq<Step>, s': State)
    requires Reaches(s, steps, s')
    ensures s'.pc.Keys == s.pc.Keys
    decreases |steps|
  {
    if steps != [] { KeptThreads(Apply(s, steps[0]), steps[1..], s'); }
  }

  lemma {:induction false} SubsetSize(a: set<Tid>, b: set<Tid>)
    requires a <= b
    ensures |a| <= |b|
  {
    if a != {} {
      var x :| x in a;
      SubsetSize(a - {x}, b - {x});
    }
  }

  predicate IsUnlock(s: State, step: Step)
    requires step.t in s.pc
  {
    step.Go? && s.pc[step.t].UDec?
  }

  lemma DrainStep(s: State, step: Step, w: Tid)
    requires Inv(s) && Enabled(s, step) && w in s.pc && Draining(s.pc[w])
    ensures w in Apply(s, step).pc
    ensures Apply(s, step).readCount + (if IsUnlock(s, step) then 1 else 0) == s.readCount
    ensures Draining(Apply(s, step).pc[w]) || (step == Go(w) && Apply(s, step).pc[w].WInc? && s.readCount == 0)
  {
    if step.Go? {
      var t := step.t;
      if Reader(s.pc[t]) { CountPositive(s.pc, t, Reader); }
      if t != w {
        assert HasW(s.pc[w]) && !HasW(s.pc[t]);
      }
    }
  }

  ghost function Unlocks(s: State, steps: seq<Step>): nat
    decreases |steps|
  {
    if steps == [] || !Enabled(s, steps[0]) then 0
    else (if IsUnlock(s, steps[0]) then 1 else 0) + Unlocks(Apply(s, steps[0]), steps[1..])
  }

  /** The thread leaves its drain nowhere in the run. */
  ghost predicate StaysDraining(s: State, steps: seq<Step>, w: Tid)
    decreases |steps|
  {
    w in s.pc && Draining(s.pc[w]) &&
    (steps == [] || (Enabled(s, steps[0]) && StaysDraining(Apply(s, steps[0]), steps[1..], w)))
  }

  /**
   While a writer drains, nobody becomes a reader: the count falls by exactly the unlocks that
   happen.  So the writer needs as many of them as there are readers when it starts to wait.
   */
  lemma {:induction false} DrainExact(s: State, steps: seq<Step>, s': State, w: Tid)
    requires Inv(s) && Reaches(s, steps, s') && StaysDraining(s, steps, w)
    ensures s'.readCount + Unlocks(s, steps) == s.readCount
    decreases |steps|
  {
    if steps != [] {
      DrainStep(s, steps[0], w);
      StepInv(s, steps[0]);
      DrainExact(Apply(s, steps[0]), steps[1..], s', w);
    }
  }

  /**
   A writer asleep on read_count_zero_cv_ sleeps alone, and while readers remain or the reader
   that left last is about to notify it; that notification can reach nobody else.
   */
  lemma WriterNotForgotten(s0: State, steps: seq<Step>, s: State, w: Tid)
    requires Init(s0) && Reaches(s0, steps, s) && w in s.pc && s.pc[w].WSleepR?
    ensures s.writeMtx == Held(w)
    ensures forall u :: u in s.pc && s.pc[u].WSleepR? ==> u == w
    ensures s.readCount == 0 ==> exists t ::
              t in s.pc && s.pc[t].UNotify? && Enabled(s, Notify(t, w))
              && forall u :: Enabled(s, Notify(t, u)) ==> u == w
  {
    InitInv(s0);
    RunInv(s0, steps, s);
    assert HasW(s.pc[w]);
    if s.readCount == 0 {
      var t := s.readMtx.holder;
      assert Enabled(s, Notify(t, w));
    }
  }

  /** A thread that can take its next operation, or give back its hold, now, without waiting for anybody. */
  ghost predicate CanMove(s: State, t: Tid) {
    Enabled(s, Go(t)) || Enabled(s, CallReadUnlock(t)) || Enabled(s, CallWriteUnlock(t)) || Enabled(s, NotifyNobody(t)) || exists u :: Enabled(s, Notify(t, u))
  }

  lemma NotifierMoves(s: State, t: Tid)
    requires t in s.pc && (s.pc[t].UNotify? || s.pc[t].VNotify?)
    ensures CanMove(s, t)
  {
    if u :| u in s.pc && Listens(s.pc[t], s.pc[u]) {
      assert Enabled(s, Notify(t, u));
    }
  }

  lemma ReadHolderMoves(s: State, h: Tid)
    requires Inv(s) && h in s.pc && s.readMtx == Held(h)
    ensures CanMove(s, h) && !Asleep(s.pc[h])
  {
    assert HasR(s.pc[h]);
    if s.pc[h].UNotify? { NotifierMoves(s, h); }
  }

  /**
   A holder's unlock is never blocked by a sleeping thread: the mutex it needs is free, or its
   owner can run.
   */
  lemma UnlockNotBlocked(s0: State, steps: seq<Step>, s: State, t: Tid)
    requires Init(s0) && Reaches(s0, steps, s) && t in s.pc && (s.pc[t].UAcqR? || s.pc[t].VAcqW?)
    ensures CanMove(s, t) ||
            exists h :: h in s.pc && !Asleep(s.pc[h]) && CanMove(s, h)
                        && (if s.pc[t].UAcqR? then s.readMtx == Held(h) else s.writeMtx == Held(h))
  {
    InitInv(s0);
    RunInv(s0, steps, s);
    UnlockerMoves(s, t);
  }

  lemma UnlockerMoves(s: State, t: Tid)
    requires Inv(s) && t in s.pc && (s.pc[t].UAcqR? || s.pc[t].VAcqW?)
    ensures CanMove(s, t) ||
            exists h :: h in s.pc && !Asleep(s.pc[h]) && CanMove(s, h)
                        && (if s.pc[t].UAcqR? then s.readMtx == Held(h) else s.writeMtx == Held(h))
  {
    if s.pc[t].UAcqR? && s.readMtx.Held? {
      ReadHolderMoves(s, s.readMtx.holder);
    } else if s.pc[t].VAcqW? && s.writeMtx.Held? {
      CountPositive(s.pc, t, Writer);
      var h := s.writeMtx.holder;
      assert HasW(s.pc[h]);
      if s.pc[h].VNotify? { NotifierMoves(s, h); }
    }
  }

  /**
   No deadlock: while some thread is inside a lock or unlock function and not waiting for a
   writer to leave, some thread can move, or a reader still holds the lock.
   */
  lemma NoDeadlock(s0: State, steps: seq<Step>, s: State, t: Tid)
    requires Init(s0) && Reaches(s0, steps, s) && t in s.pc
    requires !s.pc[t].Idle? && !s.pc[t].RSleep? && !s.pc[t].WSleep?
    ensures exists u :: u in s.pc && CanMove(s, u)
  {
    InitInv(s0);
    RunInv(s0, steps, s);
    SomeoneMoves(s, t);
  }

  lemma SomeoneMoves(s: State, t: Tid)
    requires Inv(s) && t in s.pc && !s.pc[t].Idle? && !s.pc[t].RSleep? && !s.pc[t].WSleep?
    ensures exists u :: u in s.pc && CanMove(s, u)
  {
    if s.readMtx.Held? {
      ReadHolderMoves(s, s.readMtx.holder);
    } else if s.writeMtx.Held? {
      var h := s.writeMtx.holder;
      assert HasW(s.pc[h]);
      if s.pc[h].VNotify? {
        NotifierMoves(s, h);
      } else if s.pc[h].WSleepR? {
        var r := Witness(s.pc, Reader);
        assert CanMove(s, r);
      } else {
        assert CanMove(s, h);
      }
    } else {
      assert CanMove(s, t);
    }
  }

  /** A bound on the operations of a thread until it is back from its call, or asleep. */
  function Rank(p: Pc): nat {
    match p
    case Idle | Reading | Writing | RSleep | WSleep | WSleepR => 0
    case URel | VRel => 1
    case RRelW | WRelW | UNotify | VNotify => 2
    case RRelR | WRelR | UDec | VDec => 3
    case RInc | WInc | UAcqR | VAcqW => 4
    case RAcqR => 5
    case RTest => 6
    case RAcqW | RWoken | WTestR => 7
    case WAcqR | WWokenR => 8
    case WTest => 9
    case WAcqW | WWoken => 10
  }

  /** No function goes round in circles: each operation of a thread brings it closer to its return, or to sleep. */
  lemma OperationCloser(s: State, step: Step)
    requires Enabled(s, step) && (step.Go? || step.Notify? || step.NotifyNobody?)
    ensures step.t in Apply(s, step).pc && Rank(Apply(s, step).pc[step.t]) < Rank(s.pc[step.t])
    ensures Rank(s.pc[step.t]) == 0 <==> AtRest(s.pc[step.t]) || Asleep(s.pc[step.t])
  {
  }

  // --- When a sleeper is left behind ----------------------------------------------------------

  /** Waiting on write_count_zero_cv_. */
  predicate Queued(p: Pc) { p.RSleep? || p.WSleep? }

  /** Asleep for a writer to leave when none is there, with nobody about to notify. */
  ghost predicate Stranded(s: State, v: Tid) {
    v in s.pc && Queued(s.pc[v]) && s.writeCount == 0 && forall t :: t in s.pc ==> !s.pc[t].VNotify?
  }

  lemma GoStrandsNobody(s: State, t: Tid, v: Tid)
    requires Inv(s) && Enabled(s, Go(t)) && v in s.pc && !Stranded(s, v)
    ensures !Stranded(Apply(s, Go(t)), v)
  {
    var s' := Apply(s, Go(t));
    if Writer(s.pc[t]) { CountPositive(s.pc, t, Writer); }
    if Stranded(s', v) {
      assert s'.pc[t] == Next(s.pc[t], s.readCount, s.writeCount).pc;
      forall u | u in s.pc ensures !s.pc[u].VNotify? { assert u in s'.pc && !s'.pc[u].VNotify?; }
    }
  }

  lemma NotifyStrands(s: State, t: Tid, target: Tid, v: Tid)
    requires Inv(s) && Enabled(s, Notify(t, target)) && v in s.pc && !Stranded(s, v)
    ensures Stranded(Apply(s, Notify(t, target)), v) <==> s.pc[t].VNotify? && target != v && Queued(s.pc[v])
  {
    var s' := Apply(s, Notify(t, target));
    if s.pc[t].VNotify? {
      forall u | u in s.pc ensures !s'.pc[u].VNotify? {
        assert HasW(s.pc[u]) ==> u == t;
      }
    } else {
      assert s.writeMtx == Held(target);
    }
  }

  lemma OtherStrandsNobody(s: State, step: Step, v: Tid)
    requires Inv(s) && Enabled(s, step) && v in s.pc && !Stranded(s, v) && !step.Go? && !step.Notify?
    ensures !Stranded(Apply(s, step), v)
  {
    var s', t := Apply(s, step), step.t;
    if step.NotifyNobody? && s.pc[t].VNotify? {
      assert !Listens(s.pc[t], s.pc[v]);
    } else if Stranded(s', v) {
      forall u | u in s.pc ensures !s.pc[u].VNotify? { assert u in s'.pc && !s'.pc[u].VNotify?; }
    }
  }

  /**
   In every run a sleeper is left behind by exactly one kind of step: a writeUnLock that
   notifies, while at least two sleep on write_count_zero_cv_, somebody else.
   */
  lemma StrandedIff(s0: State, steps: seq<Step>, s: State, step: Step, v: Tid)
    requires Init(s0) && Reaches(s0, steps, s) && Enabled(s, step) && v in s.pc && !Stranded(s, v)
    ensures Stranded(Apply(s, step), v) <==>
              step.Notify? && s.pc[step.t].VNotify? && step.target != v && Queued(s.pc[v])
  {
    InitInv(s0);
    RunInv(s0, steps, s);
    match step
    case Go(t) => GoStrandsNobody(s, t, v);
    case Notify(t, target) => NotifyStrands(s, t, target, v);
    case _ => OtherStrandsNobody(s, step, v);
  }

  /** It stays behind until the next writer enters, or it wakes spuriously. */
  lemma StrandedUntil(s: State, step: Step, v: Tid)
    requires Inv(s) && Stranded(s, v) && Enabled(s, step)
    ensures Stranded(Apply(s, step), v) <==> step != Spurious(v) && !(step.Go? && s.pc[step.t].WInc?)
  {
    var s', t := Apply(s, step), step.t;
    if step.Go? {
      if Writer(s.pc[t]) { CountPositive(s.pc, t, Writer); }
      assert s'.pc[t] == Next(s.pc[t], s.readCount, s.writeCount).pc;
    }
    forall u | u in s.pc && u != t ensures s'.pc[u].VNotify? ==> s.pc[u].VNotify? { }
  }

  // --- What the lock does not promise -------------------------------------------------------

  /** A property of states that steps preserve; below, being reachable. */
  ghost predicate Closed(reach: State -> bool) {
    forall s, step :: reach(s) && Enabled(s, step) ==> reach(Apply(s, step))
  }

  /** Three threads. */
  function Three(a: Pc, b: Pc, c: Pc, w: Mutex, r: Mutex, rc: nat, wc: nat): State {
    State(map[1 := a, 2 := b, 3 := c], w, r, rc, wc)
  }

  predicate Ready(p: Pc, w: Mutex, r: Mutex) {
    && !AtRest(p) && !Asleep(p) && !p.UNotify? && !p.VNotify?
    && (NeedsW(p) ==> w.Free?) && (NeedsR(p) ==> r.Free?)
  }

  lemma Go1(reach: State -> bool, a: Pc, b: Pc, c: Pc, w: Mutex, r: Mutex, rc: nat, wc: nat)
    requires Closed(reach) && reach(Three(a, b, c, w, r, rc, wc)) && Ready(a, w, r)
    ensures var e := Next(a, rc, wc);
            reach(Three(e.pc, b, c, Used(w, e.write, 1), Used(r, e.read, 1), e.readCount, e.writeCount))
  {
    var s, e := Three(a, b, c, w, r, rc, wc), Next(a, rc, wc);
    var s' := Three(e.pc, b, c, Used(w, e.write, 1), Used(r, e.read, 1), e.readCount, e.writeCount);
    assert s'.pc == s.pc[1 := e.pc];
    Other(reach, s, Go(1), s');
  }

  lemma Go2(reach: State -> bool, a: Pc, b: Pc, c: Pc, w: Mutex, r: Mutex, rc: nat, wc: nat)
    requires Closed(reach) && reach(Three(a, b, c, w, r, rc, wc)) && Ready(b, w, r)
    ensures var e := Next(b, rc, wc);
            reach(Three(a, e.pc, c, Used(w, e.write, 2), Used(r, e.read, 2), e.readCount, e.writeCount))
  {
    var s, e := Three(a, b, c, w, r, rc, wc), Next(b, rc, wc);
    var s' := Three(a, e.pc, c, Used(w, e.write, 2), Used(r, e.read, 2), e.readCount, e.writeCount);
    assert s'.pc == s.pc[2 := e.pc];
    Other(reach, s, Go(2), s');
  }

  lemma Go3(reach: State -> bool, a: Pc, b: Pc, c: Pc, w: Mutex, r: Mutex, rc: nat, wc: nat)
    requires Closed(reach) && reach(Three(a, b, c, w, r, rc, wc)) && Ready(c, w, r)
    ensures var e := Next(c, rc, wc);
            reach(Three(a, b, e.pc, Used(w, e.write, 3), Used(r, e.read, 3), e.readCount, e.writeCount))
  {
    var s, e := Three(a, b, c, w, r, rc, wc), Next(c, rc, wc);
    var s' := Three(a, b, e.pc, Used(w, e.write, 3), Used(r, e.read, 3), e.readCount, e.writeCount);
    assert s'.pc == s.pc[3 := e.pc];
    Other(reach, s, Go(3), s');
  }

  lemma Other(reach: State -> bool, s: State, step: Step, s': State)
    requires Closed(reach) && reach(s) && Enabled(s, step) && s' == Apply(s, step)
    ensures reach(s')
  {
  }

  lemma WriterTests(reach: State -> bool)
    requires Closed(reach) && reach(Three(Idle, Idle, Idle, Free, Free, 0, 0))
    ensures reach(Three(WTestR, Idle, Idle, Held(1), Held(1), 0, 0))
  {
    Other(reach, Three(Idle, Idle, Idle, Free, Free, 0, 0), CallWrite(1), Three(WAcqW, Idle, Idle, Free, Free, 0, 0));
    Go1(reach, WAcqW, Idle, Idle, Free, Free, 0, 0);
    Go1(reach, WTest, Idle, Idle, Held(1), Free, 0, 0);
    Go1(reach, WAcqR, Idle, Idle, Held(1), Free, 0, 0);
  }

  lemma WriterEnters(reach: State -> bool)
    requires Closed(reach) && reach(Three(WTestR, Idle, Idle, Held(1), Held(1), 0, 0))
    ensures reach(Three(Writing, Idle, Idle, Free, Free, 0, 1))
  {
    Go1(reach, WTestR, Idle, Idle, Held(1), Held(1), 0, 0);
    Go1(reach, WInc, Idle, Idle, Held(1), Held(1), 0, 0);
    Go1(reach, WRelR, Idle, Idle, Held(1), Held(1), 0, 1);
    Go1(reach, WRelW, Idle, Idle, Held(1), Free, 0, 1);
  }

  lemma ReadersSleep(reach: State -> bool)
    requires Closed(reach) && reach(Three(Writing, Idle, Idle, Free, Free, 0, 1))
    ensures reach(Three(Writing, RSleep, RSleep, Free, Free, 0, 1))
  {
    Other(reach, Three(Writing, Idle, Idle, Free, Free, 0, 1), CallRead(2), Three(Writing, RAcqW, Idle, Free, Free, 0, 1));
    Go2(reach, Writing, RAcqW, Idle, Free, Free, 0, 1);
    Go2(reach, Writing, RTest, Idle, Held(2), Free, 0, 1);
    Other(reach, Three(Writing, RSleep, Idle, Free, Free, 0, 1), CallRead(3), Three(Writing, RSleep, RAcqW, Free, Free, 0, 1));
    Go3(reach, Writing, RSleep, RAcqW, Free, Free, 0, 1);
    Go3(reach, Writing, RSleep, RTest, Held(3), Free, 0, 1);
  }

  lemma WriterLeaves(reach: State -> bool)
    requires Closed(reach) && reach(Three(Writing, RSleep, RSleep, Free, Free, 0, 1))
    ensures reach(Three(Idle, RWoken, RSleep, Free, Free, 0, 0))
  {
    Other(reach, Three(Writing, RSleep, RSleep, Free, Free, 0, 1), CallWriteUnlock(1), Three(VAcqW, RSleep, RSleep, Free, Free, 0, 1));
    Go1(reach, VAcqW, RSleep, RSleep, Free, Free, 0, 1);
    Go1(reach, VDec, RSleep, RSleep, Held(1), Free, 0, 1);
    Other(reach, Three(VNotify, RSleep, RSleep, Held(1), Free, 0, 0), Notify(1, 2), Three(VRel, RWoken, RSleep, Held(1), Free, 0, 0));
    Go1(reach, VRel, RWoken, RSleep, Held(1), Free, 0, 0);
  }

  lemma ReaderEnters(reach: State -> bool)
    requires Closed(reach) && reach(Three(Idle, RWoken, RSleep, Free, Free, 0, 0))
    ensures reach(Three(Idle, Reading, RSleep, Free, Free, 1, 0))
  {
    Go2(reach, Idle, RWoken, RSleep, Free, Free, 0, 0);
    Go2(reach, Idle, RTest, RSleep, Held(2), Free, 0, 0);
    Go2(reach, Idle, RAcqR, RSleep, Held(2), Free, 0, 0);
    Go2(reach, Idle, RInc, RSleep, Held(2), Held(2), 0, 0);
    Go2(reach, Idle, RRelR, RSleep, Held(2), Held(2), 1, 0);
    Go2(reach, Idle, RRelW, RSleep, Held(2), Free, 1, 0);
  }

  lemma ReaderLeaves(reach: State -> bool)
    requires Closed(reach) && reach(Three(Idle, Reading, RSleep, Free, Free, 1, 0))
    ensures reach(Three(Idle, Idle, RSleep, Free, Free, 0, 0))
  {
    Other(reach, Three(Idle, Reading, RSleep, Free, Free, 1, 0), CallReadUnlock(2), Three(Idle, UAcqR, RSleep, Free, Free, 1, 0));
    Go2(reach, Idle, UAcqR, RSleep, Free, Free, 1, 0);
    Go2(reach, Idle, UDec, RSleep, Free, Held(2), 1, 0);
    Other(reach, Three(Idle, UNotify, RSleep, Free, Held(2), 0, 0), NotifyNobody(2), Three(Idle, URel, RSleep, Free, Held(2), 0, 0));
    Go2(reach, Idle, URel, RSleep, Free, Held(2), 0, 0);
  }

  lemma StrandedReachable(reach: State -> bool)
    requires Closed(reach) && reach(Three(Idle, Idle, Idle, Free, Free, 0, 0))
    ensures reach(Three(Idle, Idle, RSleep, Free, Free, 0, 0))
  {
    WriterTests(reach);
    WriterEnters(reach);
    ReadersSleep(reach);
    WriterLeaves(reach);
    ReaderEnters(reach);
    ReaderLeaves(reach);
  }

  ghost predicate Reachable(s0: State, s: State) {
    exists steps :: Reaches(s0, steps, s)
  }

  lemma {:induction false} ReachesExtend(s: State, steps: seq<Step>, s': State, step: Step)
    requires Reaches(s, steps, s') && Enabled(s', step)
    ensures Reaches(s, steps + [step], Apply(s', step))
    decreases |steps|
  {
    if steps == [] {
      assert Reaches(Apply(s, step), [], Apply(s, step));
    } else {
      assert (steps + [step])[1..] == steps[1..] + [step];
      ReachesExtend(Apply(s, steps[0]), steps[1..], s', step);
    }
  }

  lemma ReachableClosed(s0: State)
    ensures Closed(s => Reachable(s0, s))
  {
    forall s, step | Reachable(s0, s) && Enabled(s, step) ensures Reachable(s0, Apply(s, step)) {
      var steps :| Reaches(s0, steps, s);
      ReachesExtend(s0, steps, s, step);
    }
  }

  /**
   notify_one on write_count_zero_cv_ may reach one of several readers, which notifies nobody
   in turn.  A reader can be left asleep although nobody holds the lock or is about to wake it:
   from here only a new call or a spurious wake-up moves anything.
   */
  lemma ReaderStranded() returns (s0: State, s: State)
    ensures Init(s0) && Reachable(s0, s)
    ensures 3 in s.pc && s.pc[3].RSleep? && s.readCount == s.writeCount == 0
    ensures forall step :: Enabled(s, step) ==> step.CallRead? || step.CallWrite? || step.Spurious?
  {
    s0, s := Three(Idle, Idle, Idle, Free, Free, 0, 0), Three(Idle, Idle, RSleep, Free, Free, 0, 0);
    assert Reaches(s0, [], s0);
    ReachableClosed(s0);
    StrandedReachable(x => Reachable(s0, x));
  }
}
