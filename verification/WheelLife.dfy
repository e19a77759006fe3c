/**
 A uuid over a whole run of the wheel, refreshes included: the wheel is shown to treat each
 uuid as one timer that runAfter arms or puts off and that the tick of its deadline runs.
 */
module WheelLife {
  import opened Common
  import opened WheelModel

  /** What a uuid's entry looks like from outside: its timer, the callbacks run for it, and the time. */
  datatype Life = Life(timer: Option<Timer>, runs: seq<Cb>, tick: nat)

  /** runAfter for this uuid, into bucket i: puts the deadline off, or arms the uuid. */
  function Arm(l: Life, i: nat, cb: Cb): Life {
    var due := l.tick + i + 1;
    match l.timer
    case None => l.(timer := Some(Timer(due, cb)))
    case Some(t) => if t.deadline < due then l.(timer := Some(t.(deadline := due))) else l
  }

  /** The tick of the deadline runs the callback. */
  function Pass(l: Life): Life {
    if l.timer.Some? && l.timer.value.deadline == l.tick + 1 then Life(None, l.runs + [l.timer.value.cb], l.tick + 1)
    else l.(tick := l.tick + 1)
  }

  function LifeStep(l: Life, size: nat, c: Call, uuid: int): Life
    requires 0 < size && (!c.Tick? ==> c.ratio < UINT32)
  {
    match c
    case After(ratio, cb, u) => if u == uuid then Arm(l, BucketIndex(ratio, size), cb) else l
    case AfterAnonymous(_, _) => l
    case Tick => Pass(l)
  }

  /** Every delay's ratio fits 32 bits. */
  predicate Fit(calls: seq<Call>) {
    forall i :: 0 <= i < |calls| && !calls[i].Tick? ==> calls[i].ratio < UINT32
  }

  function LifeRun(l: Life, size: nat, calls: seq<Call>, uuid: int): Life
    requires 0 < size && Fit(calls)
    decreases |calls|
  {
    if calls == [] then l else LifeRun(LifeStep(l, size, calls[0], uuid), size, calls[1..], uuid)
  }

  ghost function LifeOf(w: Wheel, uuid: int): Life {
    LifeIn(if Indexed(w) then Table(w) else map[], Named(uuid), Runs(w.fired, Named(uuid)), w.tick)
  }

  function LifeIn(t: map<Key, Timer>, k: Key, runs: seq<Cb>, tick: nat): Life {
    Life(if k in t then Some(t[k]) else None, runs, tick)
  }

  lemma CallLife(w: Wheel, c: Call, uuid: int) returns (w1: Wheel)
    requires Valid(w) && (!c.Tick? ==> c.ratio < UINT32)
    ensures w1 == Do(w, c) && Valid(w1) && |w1.buckets| == |w.buckets|
    ensures LifeOf(w1, uuid) == LifeStep(LifeOf(w, uuid), |w.buckets|, c, uuid)
  {
    w1 := Do(w, c);
    match c
    case After(ratio, cb, u) =>
      if u == uuid {
        ArmLife(w, BucketIndex(ratio, |w.buckets|), cb, uuid, w1);
      } else {
        OtherLife(w, c, uuid, w1);
      }
    case AfterAnonymous(_, _) => OtherLife(w, c, uuid, w1);
    case Tick =>
      TickValid(w, w1);
      TickLife(w, uuid, w1);
  }

  lemma SameLife(l: Life, m: Life)
    requires l.timer == m.timer && l.runs == m.runs && l.tick == m.tick
    ensures l == m
  {
  }

  lemma OtherTimer(w: Wheel, c: Call, uuid: int, w1: Wheel)
    requires Valid(w) && !c.Tick? && c.ratio < UINT32 && w1 == Do(w, c) && (c.After? ==> c.uuid != uuid)
    ensures LifeOf(w1, uuid).timer == LifeOf(w, uuid).timer
  {
    CallKey(w, c, Named(uuid), w1);
  }

  lemma OtherShape(w: Wheel, c: Call, w1: Wheel)
    requires w.buckets != [] && !c.Tick? && c.ratio < UINT32 && w1 == Do(w, c)
    ensures |w1.buckets| == |w.buckets| && w1.tick == w.tick && w1.fired == w.fired
  {
  }

  lemma OtherValid(w: Wheel, c: Call)
    requires Valid(w) && !c.Tick? && c.ratio < UINT32
    ensures Valid(Do(w, c))
  {
    match c
    case After(ratio, cb, u) => NamedValid(w, BucketIndex(ratio, |w.buckets|), cb, u);
    case AfterAnonymous(ratio, cb) => RunAfterAnonymousRefines(w, BucketIndex(ratio, |w.buckets|), cb);
  }

  lemma OtherLife(w: Wheel, c: Call, uuid: int, w1: Wheel)
    requires Valid(w) && !c.Tick? && c.ratio < UINT32 && w1 == Do(w, c) && (c.After? ==> c.uuid != uuid)
    ensures Valid(w1) && |w1.buckets| == |w.buckets| && LifeOf(w1, uuid) == LifeOf(w, uuid)
  {
    OtherValid(w, c);
    OtherTimer(w, c, uuid, w1);
    OtherShape(w, c, w1);
    SameLife(LifeOf(w1, uuid), LifeOf(w, uuid));
  }

  lemma TickTimer(w: Wheel, uuid: int, w1: Wheel)
    requires Valid(w) && w1 == OnTimer(w)
    ensures LifeOf(w1, uuid).timer == Pass(LifeOf(w, uuid)).timer
  {
    TickKey(w, Named(uuid), w1);
  }

  lemma TickRuns(w: Wheel, uuid: int, w1: Wheel)
    requires Valid(w) && w1 == OnTimer(w)
    ensures LifeOf(w1, uuid).runs == Pass(LifeOf(w, uuid)).runs && w1.tick == w.tick + 1
  {
    TickKey(w, Named(uuid), w1);
  }

  lemma TickLife(w: Wheel, uuid: int, w1: Wheel)
    requires Valid(w) && w1 == OnTimer(w)
    ensures LifeOf(w1, uuid) == Pass(LifeOf(w, uuid))
  {
    TickTimer(w, uuid, w1);
    TickRuns(w, uuid, w1);
    SameLife(LifeOf(w1, uuid), Pass(LifeOf(w, uuid)));
  }

  /** Later on the table is Arm on the key's life. */
  lemma LaterArms(t: map<Key, Timer>, k: Key, runs: seq<Cb>, tick: nat, i: nat, cb: Cb)
    ensures LifeIn(Later(t, k, tick + i + 1, cb), k, runs, tick).timer == Arm(LifeIn(t, k, runs, tick), i, cb).timer
  {
  }

  lemma ArmTimer(w: Wheel, i: nat, cb: Cb, uuid: int, t1: map<Key, Timer>)
    requires Valid(w) && t1 == Later(Table(w), Named(uuid), w.tick + i + 1, cb)
    ensures (if Named(uuid) in t1 then Some(t1[Named(uuid)]) else None) == Arm(LifeOf(w, uuid), i, cb).timer
  {
    LaterArms(Table(w), Named(uuid), Runs(w.fired, Named(uuid)), w.tick, i, cb);
  }

  lemma ArmRest(w: Wheel, i: nat, cb: Cb, uuid: int, w1: Wheel)
    requires i < |w.buckets| && w1 == RunAfterNamed(w, i, cb, uuid)
    ensures |w1.buckets| == |w.buckets| && w1.tick == w.tick && w1.fired == w.fired
  {
  }

  lemma ArmLife(w: Wheel, i: nat, cb: Cb, uuid: int, w1: Wheel)
    requires Valid(w) && i < |w.buckets| && w1 == RunAfterNamed(w, i, cb, uuid)
    ensures Valid(w1) && |w1.buckets| == |w.buckets| && LifeOf(w1, uuid) == Arm(LifeOf(w, uuid), i, cb)
  {
    RunAfterNamedRefines(w, i, cb, uuid);
    ArmTimer(w, i, cb, uuid, Table(w1));
    ArmRest(w, i, cb, uuid, w1);
    SameLife(LifeOf(w1, uuid), Arm(LifeOf(w, uuid), i, cb));
  }

  /** Over every run the wheel and a uuid's life agree, however often it is refreshed or armed anew. */
  lemma {:induction false} LifeRefined(w: Wheel, calls: seq<Call>, w': Wheel, uuid: int)
    requires Valid(w) && Reaches(w, calls, w') && Fit(calls)
    ensures Valid(w') && LifeOf(w', uuid) == LifeRun(LifeOf(w, uuid), |w.buckets|, calls, uuid)
    decreases |calls|
  {
    if calls != [] {
      var w1 := CallLife(w, calls[0], uuid);
      LifeRefined(w1, calls[1..], w', uuid);
    }
  }

  /**
   The deadline a generation ends up with: the largest of what it has, d, and the tick of each
   further runAfter for it plus its bucket plus one, up to the tick when it fires.
   */
  function Latest(d: nat, tick: nat, size: nat, calls: seq<Call>, uuid: int): (latest: nat)
    requires 0 < size && Fit(calls)
    ensures latest >= d
    decreases |calls|
  {
    if calls == [] || (calls[0].Tick? && tick + 1 == d) then d
    else match calls[0]
      case After(ratio, _, u) =>
        var due := tick + BucketIndex(ratio, size) + 1;
        Latest(if u == uuid && d < due then due else d, tick, size, calls[1..], uuid)
      case AfterAnonymous(_, _) => Latest(d, tick, size, calls[1..], uuid)
      case Tick => Latest(d, tick + 1, size, calls[1..], uuid)
  }

  lemma {:induction false} TicksGrow(l: Life, size: nat, calls: seq<Call>, uuid: int)
    requires 0 < size && Fit(calls)
    ensures LifeRun(l, size, calls, uuid).tick >= l.tick
    decreases |calls|
  {
    if calls != [] { TicksGrow(LifeStep(l, size, calls[0], uuid), size, calls[1..], uuid); }
  }

  /**
   A run that does not get to the largest deadline leaves the timer waiting for it with its first
   callback; one that does passes, after j calls, through the tick of that deadline with the
   callback just run and the uuid free.
   */
  predicate FiredOnce(l: Life, size: nat, calls: seq<Call>, uuid: int, j: nat)
    requires 0 < size && Fit(calls) && l.timer.Some? && j <= |calls|
  {
    var d, end := Latest(l.timer.value.deadline, l.tick, size, calls, uuid), LifeRun(l, size, calls, uuid);
    if end.tick < d then end == Life(Some(Timer(d, l.timer.value.cb)), l.runs, end.tick)
    else LifeRun(l, size, calls[..j], uuid) == Life(None, l.runs + [l.timer.value.cb], d)
  }

  /** Each generation fires exactly once, at the largest of its deadlines. */
  lemma {:induction false} GenerationFiresOnce(l: Life, size: nat, calls: seq<Call>, uuid: int) returns (j: nat)
    requires 0 < size && Fit(calls) && l.timer.Some? && l.timer.value.deadline > l.tick
    ensures j <= |calls| && FiredOnce(l, size, calls, uuid, j)
    decreases |calls|
  {
    if calls == [] {
      j := 0;
    } else {
      var l1 := LifeStep(l, size, calls[0], uuid);
      if l1.timer.None? {
        j := 1;
        TicksGrow(l1, size, calls[1..], uuid);
        assert calls[..1][1..] == [];
      } else {
        j := GenerationFiresOnce(l1, size, calls[1..], uuid);
        assert calls[..j + 1][1..] == calls[1..][..j];
        j := j + 1;
      }
    }
  }

  lemma {:induction false} LegalCalls(w: Wheel, calls: seq<Call>, w': Wheel)
    requires Reaches(w, calls, w')
    ensures Fit(calls)
    decreases |calls|
  {
    if calls != [] {
      LegalCalls(Do(w, calls[0]), calls[1..], w');
      assert calls == [calls[0]] + calls[1..];
    }
  }

  /** The state after the first j calls of a run. */
  lemma {:induction false} Halfway(w: Wheel, calls: seq<Call>, w': Wheel, j: nat) returns (v: Wheel)
    requires Reaches(w, calls, w') && j <= |calls|
    ensures Reaches(w, calls[..j], v) && Reaches(v, calls[j..], w')
    decreases j
  {
    if j == 0 {
      v := w;
      assert calls[0..] == calls;
    } else {
      v := Halfway(Do(w, calls[0]), calls[1..], w', j - 1);
      assert calls[..j][1..] == calls[1..][..j - 1] && calls[j..] == calls[1..][j - 1..];
    }
  }

  lemma LifeSays(w: Wheel, uuid: int)
    requires Valid(w)
    ensures var l, k := LifeOf(w, uuid), Named(uuid);
            && l.tick == w.tick && l.runs == Runs(w.fired, k)
            && (l.timer.Some? <==> k in Table(w)) && (k in Table(w) ==> l.timer.value == Table(w)[k])
  {
  }

  /**
   A run to w' that ends before tick d leaves the uuid's entry waiting with that deadline and its
   callback; any other passes through v at tick d, when that callback has just run and the uuid is free.
   */
  ghost predicate FiredOnWheel(w: Wheel, w': Wheel, v: Wheel, k: Key, d: nat)
    requires Indexed(w) && k in Table(w) && Indexed(w') && Indexed(v)
  {
    if w'.tick < d then
      k in Table(w') && Table(w')[k] == Timer(d, Table(w)[k].cb) && Runs(w'.fired, k) == Runs(w.fired, k)
    else
      v.tick == d && k !in Table(v) && Runs(v.fired, k) == Runs(w.fired, k) + [Table(w)[k].cb]
  }

  /** On the wheel: each generation of a uuid fires exactly once, at the largest of its deadlines. */
  lemma WheelFiresGeneration(w: Wheel, calls: seq<Call>, w': Wheel, uuid: int) returns (j: nat, v: Wheel)
    requires Valid(w) && Reaches(w, calls, w') && Named(uuid) in Table(w)
    ensures Fit(calls) && Valid(w') && Valid(v)
    ensures j <= |calls| && Reaches(w, calls[..j], v) && Reaches(v, calls[j..], w')
    ensures FiredOnWheel(w, w', v, Named(uuid), Latest(Table(w)[Named(uuid)].deadline, w.tick, |w.buckets|, calls, uuid))
  {
    LegalCalls(w, calls, w');
    DeadlinesAhead(w, Named(uuid));
    LifeSays(w, uuid);
    LifeRefined(w, calls, w', uuid);
    LifeSays(w', uuid);
    j := GenerationFiresOnce(LifeOf(w, uuid), |w.buckets|, calls, uuid);
    v := Halfway(w, calls, w', j);
    LifeRefined(w, calls[..j], v, uuid);
    LifeSays(v, uuid);
  }

  /** A uuid armed for a tick does not run before it, whatever is called meanwhile. */
  lemma {:induction false} NotBefore(l: Life, size: nat, calls: seq<Call>, uuid: int)
    requires 0 < size && Fit(calls) && l.timer.Some? && |LifeRun(l, size, calls, uuid).runs| > |l.runs|
    ensures LifeRun(l, size, calls, uuid).tick >= l.timer.value.deadline
    decreases |calls|
  {
    var l1 := LifeStep(l, size, calls[0], uuid);
    if l1.timer.None? {
      TicksGrow(l1, size, calls[1..], uuid);
    } else {
      NotBefore(l1, size, calls[1..], uuid);
    }
  }

  lemma ArmedNotBefore(w: Wheel, calls: seq<Call>, w': Wheel, uuid: int)
    requires Valid(w) && Reaches(w, calls, w') && Named(uuid) in Table(w)
    requires |Runs(w'.fired, Named(uuid))| > |Runs(w.fired, Named(uuid))|
    ensures w'.tick >= Table(w)[Named(uuid)].deadline
  {
    LegalCalls(w, calls, w');
    LifeRefined(w, calls, w', uuid);
    LifeSays(w, uuid);
    LifeSays(w', uuid);
    NotBefore(LifeOf(w, uuid), |w.buckets|, calls, uuid);
  }
}
