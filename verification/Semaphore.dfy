/**
 TrantorSemaphore for clients that post only what they have waited for: any number of
 threads, every interleaving.
 */
module Semaphore {
  import opened Threads

  /** post notifies after it has released the mutex. */
  datatype Pc =
    | Idle
    | WAcq | WTest | WSleep | WWoken | WDec | WRel
    | Holding
    | PAcq | PInc | PRel | PNotify

  datatype State = State(pc: map<Tid, Pc>, mtx: Mutex, available: nat, max: nat)

  datatype Step = Wait(t: Tid) | Post(t: Tid) | Go(t: Tid) | Spurious(t: Tid)

  predicate Has(p: Pc) { p.WTest? || p.WDec? || p.WRel? || p.PInc? || p.PRel? }

  predicate Needs(p: Pc) { p.WAcq? || p.WWoken? || p.PAcq? }

  /** Has taken a resource and not given it back. */
  predicate Holder(p: Pc) { p.WRel? || p.Holding? || p.PAcq? || p.PInc? }

  /** Between giving a resource back and notifying. */
  predicate Notifier(p: Pc) { p.PRel? || p.PNotify? }

  predicate Asleep(p: Pc) { p.WSleep? }

  predicate AtRest(p: Pc) { p.Idle? || p.Holding? }

  /** Where the thread goes, its use of the mutex, the available resources after. */
  function Next(p: Pc, available: nat, max: nat): (Pc, Use, nat)
    requires p.WDec? ==> available > 0
  {
    match p
    case WAcq => (WTest, Take, available)
    case WTest => if available > 0 then (WDec, Keep, available) else (WSleep, Drop, available)
    case WWoken => (WTest, Take, available)
    case WDec => (WRel, Keep, available - 1)
    case WRel => (Holding, Drop, available)
    case PAcq => (PInc, Take, available)
    case PInc => (PRel, Keep, if available < max then available + 1 else available)
    case PRel => (PNotify, Drop, available)
    case PNotify => (Idle, Keep, available)
    case _ => (p, Keep, available)
  }

  predicate Enabled(s: State, step: Step) {
    step.t in s.pc &&
    var p := s.pc[step.t];
    match step
    case Wait(_) => p.Idle?
    case Post(_) => p.Holding?
    case Go(_) => !AtRest(p) && !Asleep(p) && (Needs(p) ==> s.mtx.Free?) && (p.WDec? ==> s.available > 0)
    case Spurious(_) => Asleep(p)
  }

  function Apply(s: State, step: Step): State
    requires Enabled(s, step)
  {
    match step
    case Wait(t) => s.(pc := s.pc[t := WAcq])
    case Post(t) => s.(pc := s.pc[t := PAcq])
    case Go(t) =>
      var p := s.pc[t];
      var (p', use, available) := Next(p, s.available, s.max);
      var woken := if p.PNotify? then map u | u in s.pc :: if Asleep(s.pc[u]) then WWoken else s.pc[u] else s.pc;
      State(woken[t := p'], Used(s.mtx, use, t), available, s.max)
    case Spurious(t) => s.(pc := s.pc[t := WWoken])
  }

  ghost predicate Inv(s: State) {
    && (forall t :: t in s.pc ==> (Has(s.pc[t]) <==> s.mtx == Held(t)))
    && (s.mtx.Held? ==> s.mtx.holder in s.pc)
    && s.available + Count(s.pc, Holder) == s.max
    && (forall t {:trigger s.pc[t]} :: t in s.pc && s.pc[t].WDec? ==> s.available > 0)
    && (Count(s.pc, Asleep) > 0 && s.available > 0 ==> Count(s.pc, Notifier) > 0)
  }

  ghost predicate Init(s: State) {
    (forall t :: t in s.pc ==> s.pc[t].Idle?) && s.mtx.Free? && s.available == s.max
  }

  lemma GoInv(s: State, t: Tid)
    requires Inv(s) && Enabled(s, Go(t)) && !s.pc[t].PNotify?
    ensures Inv(Apply(s, Go(t)))
  {
    var p' := Next(s.pc[t], s.available, s.max).0;
    Moved(s.pc, t, p', Holder);
    Moved(s.pc, t, p', Asleep);
    Moved(s.pc, t, p', Notifier);
  }

  lemma NotifyInv(s: State, t: Tid)
    requires Inv(s) && Enabled(s, Go(t)) && s.pc[t].PNotify?
    ensures Inv(Apply(s, Go(t)))
  {
    var s' := Apply(s, Go(t));
    assert Where(s'.pc, Holder) == Where(s.pc, Holder);
    NoneCounted(s'.pc, Asleep);
  }

  lemma StepInv(s: State, step: Step)
    requires Inv(s) && Enabled(s, step)
    ensures Inv(Apply(s, step))
  {
    match step
    case Go(t) => if s.pc[t].PNotify? { NotifyInv(s, t); } else { GoInv(s, t); }
    case _ =>
      var t, p' := step.t, Apply(s, step).pc[step.t];
      Moved(s.pc, t, p', Holder);
      Moved(s.pc, t, p', Asleep);
      Moved(s.pc, t, p', Notifier);
  }

  ghost predicate Reaches(s: State, steps: seq<Step>, s': State)
    decreases |steps|
  {
    if steps == [] then s' == s
    else Enabled(s, steps[0]) && Reaches(Apply(s, steps[0]), steps[1..], s')
  }

  lemma {:induction false} RunInv(s: State, steps: seq<Step>, s': State)
    requires Inv(s) && Reaches(s, steps, s')
    ensures Inv(s')
    decreases |steps|
  {
    if steps != [] {
      StepInv(s, steps[0]);
      RunInv(Apply(s, steps[0]), steps[1..], s');
    }
  }

  lemma InitInv(s: State)
    requires Init(s)
    ensures Inv(s)
  {
    NoneCounted(s.pc, Holder);
    NoneCounted(s.pc, Asleep);
  }

  datatype Call = NoCall | WaitCall | PostCall

  /** The last of the two functions a thread called, by the steps alone. */
  function LastCall(call: Call, steps: seq<Step>, t: Tid): Call
    decreases |steps|
  {
    if steps == [] then call
    else LastCall(if steps[0] == Wait(t) then WaitCall else if steps[0] == Post(t) then PostCall else call, steps[1..], t)
  }

  /** Where a thread can be after its last call: inside that function, or back from it. */
  predicate Serves(call: Call, p: Pc) {
    match call
    case NoCall => p.Idle?
    case WaitCall => p.WAcq? || p.WTest? || p.WSleep? || p.WWoken? || p.WDec? || p.WRel? || p.Holding?
    case PostCall => p.PAcq? || p.PInc? || p.PRel? || p.PNotify? || p.Idle?
  }

  lemma {:induction false} RunServes(s: State, steps: seq<Step>, s': State, t: Tid, call: Call)
    requires Reaches(s, steps, s') && t in s.pc && Serves(call, s.pc[t])
    ensures t in s'.pc && Serves(LastCall(call, steps, t), s'.pc[t])
    decreases |steps|
  {
    if steps != [] {
      RunServes(Apply(s, steps[0]), steps[1..], s', t,
                if steps[0] == Wait(t) then WaitCall else if steps[0] == Post(t) then PostCall else call);
    }
  }

  /**
   Available resources and holders add up to the maximum, so a wait never takes below zero
   and post's saturation test never bites; and a thread back from a wait is a holder, one back
   from a post is not.
   */
  lemma ResourcesConserved(s0: State, steps: seq<Step>, s: State, t: Tid)
    requires Init(s0) && Reaches(s0, steps, s) && t in s0.pc
    ensures t in s.pc && s.available + Count(s.pc, Holder) == s.max
    ensures s.pc[t].WDec? ==> s.available > 0
    ensures s.pc[t].PInc? ==> s.available < s.max
    ensures AtRest(s.pc[t]) ==> (Holder(s.pc[t]) <==> LastCall(NoCall, steps, t) == WaitCall)
  {
    InitInv(s0);
    RunInv(s0, steps, s);
    RunServes(s0, steps, s, t, NoCall);
    if s.pc[t].PInc? { CountPositive(s.pc, t, Holder); }
  }

  /** A bound on the operations of a thread until it is back from its call, or asleep. */
  function Rank(p: Pc): nat {
    match p
    case Idle | Holding | WSleep => 0
    case WRel | PNotify => 1
    case WDec | PRel => 2
    case WTest | PInc => 3
    case WAcq | WWoken | PAcq => 4
  }

  /** Neither function goes round in circles: each operation of a thread brings it closer to its return, or to sleep. */
  lemma OperationCloser(s: State, t: Tid)
    requires Enabled(s, Go(t))
    ensures t in Apply(s, Go(t)).pc && Rank(Apply(s, Go(t)).pc[t]) < Rank(s.pc[t])
  {
  }

  /** A thread asleep while resources are available is about to be notified. */
  lemma SleeperNotForgotten(s0: State, steps: seq<Step>, s: State, t: Tid) returns (n: Tid)
    requires Init(s0) && Reaches(s0, steps, s) && t in s.pc && s.pc[t].WSleep? && s.available > 0
    ensures n in s.pc && Notifier(s.pc[n]) && Enabled(s, Go(n))
  {
    InitInv(s0);
    RunInv(s0, steps, s);
    CountPositive(s.pc, t, Asleep);
    n := Witness(s.pc, Notifier);
  }
}
