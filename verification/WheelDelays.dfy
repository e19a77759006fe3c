/**
 Delays: which bucket runAfter chooses for a delay, and when its callback then runs, over runs
 of the wheel whose ticks come from a timer, and over runs of the timer queue that drives it.
 */
module WheelDelays {
  import opened WheelModel
  import opened WheelLife
  import T = TimerModel

  // --- The bucket for a delay ------------------------------------------------------------------

  /**
   The chosen bucket is the delay's whole intervals plus one, capped at the last bucket, exactly
   if neither of the two 32-bit sums behind it wraps, or there is only one bucket.
   */
  lemma BucketIndexIff(ratio: nat, size: nat)
    requires 0 < size < UINT32 && ratio < UINT32
    ensures BucketIndex(ratio, size) == (if ratio + 1 < size then ratio + 1 else size - 1)
            <==> size == 1 || (ratio + 1 < UINT32 && (ratio + 1 >= size || ratio + 1 + size < UINT32))
  {
    if ratio + 1 == UINT32 {
      BucketIndexWraps(size);
    } else if ratio + 1 < size {
      Around(ratio + 1, size);
    }
  }

  /** The bucket when the first sum does not wrap and the cap does not apply. */
  lemma Around(k: nat, size: nat)
    requires 0 < k < size < UINT32
    ensures BucketIndex(k - 1, size) == if k + size < UINT32 then k else k + size - UINT32
  {
    assert k % UINT32 == k;
    if k + size < UINT32 {
      assert (k + size) % UINT32 == k + size;
      OnceAround(k, size);
    } else {
      assert (k + size) % UINT32 == k + size - UINT32;
      OnceAround(k + size - UINT32, size);
    }
  }

  lemma OnceAround(k: nat, size: nat)
    requires k < size
    ensures (k + size) % size == k && k % size == k
  {
    var q := (k + size) / size;
    assert k + size == size * q + (k + size) % size;
    Multiples(size, q);
  }

  lemma Multiples(size: nat, q: int)
    ensures (q <= 0 ==> size * q <= 0) && (q >= 2 ==> size * q >= size * 2)
  {
  }

  /** The longest delay of all lands in the bucket that expires first. */
  lemma BucketIndexWraps(size: nat)
    requires 0 < size < UINT32
    ensures BucketIndex(UINT32 - 1, size) == 0
  {
  }

  /** The delay is neither capped by the wheel's size nor caught by a wrap. */
  predicate Exact(delay: nat, interval: nat, size: nat)
    requires interval > 0
  {
    delay / interval + 1 < size && delay / interval + 1 + size < UINT32
  }

  /** The bucket for a delay. */
  function Bucket(delay: nat, interval: nat, size: nat): (i: nat)
    requires interval > 0 && Exact(delay, interval, size)
    ensures i < size
  {
    BucketIndex(delay / interval, size)
  }

  lemma BucketIs(delay: nat, interval: nat, size: nat)
    requires interval > 0 && Exact(delay, interval, size)
    ensures Bucket(delay, interval, size) == delay / interval + 1
  {
    Around(delay / interval + 1, size);
  }

  // --- Times of ticks ----------------------------------------------------------------------------

  /** at[k] is the time of tick k, at[0] the start; consecutive ticks are more than an interval apart. */
  predicate Spaced(at: seq<int>, interval: nat) {
    forall k :: 0 <= k < |at| - 1 ==> at[k + 1] > at[k] + interval
  }

  lemma {:induction false} SpacedSum(at: seq<int>, interval: nat, from: nat, to: nat)
    requires Spaced(at, interval) && from <= to < |at|
    ensures at[to] >= at[from] + (to - from) * interval
  {
    if from < to {
      SpacedSum(at, interval, from, to - 1);
      assert at[to - 1 + 1] > at[to - 1] + interval;
      assert (to - from) * interval == (to - 1 - from) * interval + interval;
    }
  }

  lemma DelayFloor(delay: nat, interval: nat)
    requires interval > 0
    ensures delay < (delay / interval + 1) * interval <= delay + interval
  {
  }

  lemma {:induction false} Stretch(q: nat, n: nat, interval: nat)
    requires n >= q
    ensures n * interval >= q * interval
  {
    if n > q {
      Stretch(q, n - 1, interval);
      assert n * interval == (n - 1) * interval + interval;
    }
  }

  /** Any tick from the one chosen for the delay on comes later than the delay. */
  lemma LateEnough(at: seq<int>, interval: nat, delay: nat, tick: nat, now: int, size: nat, end: nat)
    requires 0 < interval && Exact(delay, interval, size) && Spaced(at, interval)
    requires tick + Bucket(delay, interval, size) + 1 <= end < |at| && now <= at[tick + 1]
    ensures at[end] > now + delay
  {
    var q := delay / interval;
    BucketIs(delay, interval, size);
    SpacedSum(at, interval, tick + 1, end);
    Stretch(q + 1, end - tick - 1, interval);
    DelayFloor(delay, interval);
  }

  // --- Never early, over runs --------------------------------------------------------------------

  /** The ticks of a run up to w', the call at `now` between tick w.tick and the next. */
  predicate Ticking(at: seq<int>, interval: nat, w: Wheel, w': Wheel, now: int) {
    && Spaced(at, interval) && |at| == w'.tick + 1
    && (w.tick < w'.tick ==> now <= at[w.tick + 1])
  }

  /** Over any run, an anonymous entry in bucket i has run once i + 1 ticks have passed, and not before. */
  lemma AnonymousRuns(w: Wheel, i: nat, cb: Cb, calls: seq<Call>, w': Wheel)
    requires Valid(w) && i < |w.buckets| && Reaches(RunAfterAnonymous(w, i, cb), calls, w')
    ensures Runs(w'.fired, Anonymous(w.next)) == Runs(w.fired, Anonymous(w.next)) + if w'.tick > w.tick + i then [cb] else []
  {
    RunAfterAnonymousRefines(w, i, cb);
    FiresOnceAtDeadline(RunAfterAnonymous(w, i, cb), calls, w', Anonymous(w.next));
  }

  /** So has one with a new uuid that is not refreshed. */
  lemma NewNamedRuns(w: Wheel, i: nat, cb: Cb, uuid: int, calls: seq<Call>, w': Wheel)
    requires Valid(w) && i < |w.buckets| && uuid !in w.index && Reaches(RunAfterNamed(w, i, cb, uuid), calls, w')
    requires forall j :: 0 <= j < |calls| && calls[j].After? ==> calls[j].uuid != uuid
    ensures Runs(w'.fired, Named(uuid)) == Runs(w.fired, Named(uuid)) + if w'.tick > w.tick + i then [cb] else []
  {
    LockSucceeds(w, uuid);
    RunAfterNamedRefines(w, i, cb, uuid);
    NamedShape(w, i, cb, uuid);
    FiresOnceAtDeadline(RunAfterNamed(w, i, cb, uuid), calls, w', Named(uuid));
  }

  /** And one with a uuid, new or known, refreshed or not, has not run before. */
  lemma NamedNotBefore(w: Wheel, i: nat, cb: Cb, uuid: int, calls: seq<Call>, w': Wheel)
    requires Valid(w) && i < |w.buckets| && Reaches(RunAfterNamed(w, i, cb, uuid), calls, w')
    requires |Runs(w'.fired, Named(uuid))| > |Runs(w.fired, Named(uuid))|
    ensures w'.tick > w.tick + i
  {
    RunAfterNamedRefines(w, i, cb, uuid);
    NamedShape(w, i, cb, uuid);
    ArmedNotBefore(RunAfterNamed(w, i, cb, uuid), calls, w', uuid);
  }

  /** Never early: in no run does the callback of an anonymous call run before its delay has passed. */
  lemma NeverEarly(w: Wheel, delay: nat, interval: nat, cb: Cb, calls: seq<Call>, w': Wheel, at: seq<int>, now: int)
    requires Valid(w) && 0 < interval && Exact(delay, interval, |w.buckets|)
    requires Reaches(RunAfterAnonymous(w, Bucket(delay, interval, |w.buckets|), cb), calls, w')
    requires Ticking(at, interval, w, w', now)
    requires |Runs(w'.fired, Anonymous(w.next))| > |Runs(w.fired, Anonymous(w.next))|
    ensures at[w'.tick] > now + delay
  {
    AnonymousRuns(w, Bucket(delay, interval, |w.buckets|), cb, calls, w');
    LateEnough(at, interval, delay, w.tick, now, |w.buckets|, w'.tick);
  }

  /** Nor does that of a call with a uuid, new or known, refreshed or not. */
  lemma NamedNeverEarly(w: Wheel, delay: nat, interval: nat, cb: Cb, uuid: int, calls: seq<Call>, w': Wheel, at: seq<int>, now: int)
    requires Valid(w) && 0 < interval && Exact(delay, interval, |w.buckets|)
    requires Reaches(RunAfterNamed(w, Bucket(delay, interval, |w.buckets|), cb, uuid), calls, w')
    requires Ticking(at, interval, w, w', now)
    requires |Runs(w'.fired, Named(uuid))| > |Runs(w.fired, Named(uuid))|
    ensures at[w'.tick] > now + delay
  {
    NamedNotBefore(w, Bucket(delay, interval, |w.buckets|), cb, uuid, calls, w');
    LateEnough(at, interval, delay, w.tick, now, |w.buckets|, w'.tick);
  }

  // --- Within two intervals, with exact ticks ------------------------------------------------------

  /** Ticks exactly an interval apart. */
  predicate Steady(at: seq<int>, interval: nat) {
    forall k :: 0 <= k < |at| - 1 ==> at[k + 1] == at[k] + interval
  }

  lemma {:induction false} SteadySum(at: seq<int>, interval: nat, from: nat, to: nat)
    requires Steady(at, interval) && from <= to < |at|
    ensures at[to] == at[from] + (to - from) * interval
  {
    if from < to {
      SteadySum(at, interval, from, to - 1);
      assert at[to - 1 + 1] == at[to - 1] + interval;
      assert (to - from) * interval == (to - 1 - from) * interval + interval;
    }
  }

  /**
   What is due at tick d runs within (delay, delay + 2 * interval], and at the last tick so far
   it has run exactly if that is tick d or a later one: not up to its delay, and by the first
   tick that is more than an interval later.
   */
  predicate OnTime(at: seq<int>, d: nat, now: int, delay: nat, interval: nat, runs: int)
    requires at != []
  {
    var end := at[|at| - 1];
    && (d < |at| ==> now + delay < at[d] <= now + delay + 2 * interval)
    && runs == (if d < |at| then 1 else 0)
    && (end <= now + delay ==> runs == 0)
    && (end > now + delay + interval ==> runs == 1)
  }

  /** The ticks of a run up to w', the call at `now` between tick w.tick and an interval later. */
  predicate SteadyTicking(at: seq<int>, interval: nat, w: Wheel, w': Wheel, now: int) {
    Steady(at, interval) && |at| == w'.tick + 1 && w.tick <= w'.tick && at[w.tick] <= now <= at[w.tick] + interval
  }

  lemma DueTick(at: seq<int>, interval: nat, delay: nat, tick: nat, now: int, d: nat)
    requires 0 < interval && Steady(at, interval) && d == tick + delay / interval + 2
    requires d < |at| && at[tick] <= now <= at[tick] + interval
    ensures now + delay < at[d] <= now + delay + 2 * interval
  {
    var q := delay / interval;
    DelayFloor(delay, interval);
    SteadySum(at, interval, tick, d);
    assert (q + 2) * interval == (q + 1) * interval + interval;
  }

  lemma NotYetDue(at: seq<int>, interval: nat, delay: nat, tick: nat, now: int, d: nat)
    requires 0 < interval && Steady(at, interval) && d == tick + delay / interval + 2
    requires tick < |at| <= d && at[tick] <= now <= at[tick] + interval
    ensures at[|at| - 1] <= now + delay + interval
  {
    var q, n := delay / interval, |at| - 1 - tick;
    DelayFloor(delay, interval);
    SteadySum(at, interval, tick, |at| - 1);
    Stretch(n, q + 1, interval);
  }

  lemma DueOnTime(at: seq<int>, interval: nat, delay: nat, tick: nat, now: int, size: nat)
    requires 0 < interval && Exact(delay, interval, size) && Steady(at, interval)
    requires tick < |at| && at[tick] <= now <= at[tick] + interval
    ensures var d := tick + Bucket(delay, interval, size) + 1;
            OnTime(at, d, now, delay, interval, if |at| - 1 > tick + Bucket(delay, interval, size) then 1 else 0)
  {
    var d := tick + delay / interval + 2;
    BucketIs(delay, interval, size);
    if d < |at| {
      DueTick(at, interval, delay, tick, now, d);
      SteadySum(at, interval, d, |at| - 1);
      Stretch(0, |at| - 1 - d, interval);
    } else {
      NotYetDue(at, interval, delay, tick, now, d);
    }
  }

  /** With ticks exactly an interval apart an anonymous entry runs within (delay, delay + 2 * interval]. */
  lemma DueWithin(w: Wheel, delay: nat, interval: nat, cb: Cb, calls: seq<Call>, w': Wheel, at: seq<int>, now: int)
    requires Valid(w) && 0 < interval && Exact(delay, interval, |w.buckets|)
    requires Reaches(RunAfterAnonymous(w, Bucket(delay, interval, |w.buckets|), cb), calls, w')
    requires SteadyTicking(at, interval, w, w', now)
    ensures OnTime(at, w.tick + Bucket(delay, interval, |w.buckets|) + 1, now, delay, interval,
                   |Runs(w'.fired, Anonymous(w.next))| - |Runs(w.fired, Anonymous(w.next))|)
  {
    AnonymousRuns(w, Bucket(delay, interval, |w.buckets|), cb, calls, w');
    DueOnTime(at, interval, delay, w.tick, now, |w.buckets|);
  }

  /** So does one with a new uuid that is not refreshed. */
  lemma NamedDueWithin(w: Wheel, delay: nat, interval: nat, cb: Cb, uuid: int, calls: seq<Call>, w': Wheel, at: seq<int>, now: int)
    requires Valid(w) && 0 < interval && Exact(delay, interval, |w.buckets|) && uuid !in w.index
    requires Reaches(RunAfterNamed(w, Bucket(delay, interval, |w.buckets|), cb, uuid), calls, w')
    requires forall j :: 0 <= j < |calls| && calls[j].After? ==> calls[j].uuid != uuid
    requires SteadyTicking(at, interval, w, w', now)
    ensures OnTime(at, w.tick + Bucket(delay, interval, |w.buckets|) + 1, now, delay, interval,
                   |Runs(w'.fired, Named(uuid))| - |Runs(w.fired, Named(uuid))|)
  {
    NewNamedRuns(w, Bucket(delay, interval, |w.buckets|), cb, uuid, calls, w');
    DueOnTime(at, interval, delay, w.tick, now, |w.buckets|);
  }

  // --- Driven by runEvery ------------------------------------------------------------------------

  /** The times of the wheel's ticks when each is a run of callback c in the timer queue. */
  function TickTimes(es: seq<T.Event>, c: T.Cb, start: int): seq<int> {
    [start] + T.FiredAt(T.DoAll(T.Empty, es).fired, c)
  }

  lemma TicksSpaced(es: seq<T.Event>, c: T.Cb, start: int, interval: nat)
    requires T.Every(T.Empty, es, c, start, interval, false)
    ensures Spaced(TickTimes(es, c, start), interval)
  {
    T.PeriodicSpacing(es, c, start, interval);
  }

  /**
   The wheel driven by the timer queue: in a run of the queue with onTimer under runEvery, and
   a run of the wheel with one onTimer for each time that callback ran, neither an anonymous
   entry nor one with a uuid runs before its delay has passed.
   */
  lemma WheelNeverEarly(es: seq<T.Event>, c: T.Cb, start: int, w: Wheel, delay: nat, interval: nat, cb: Cb,
                        calls: seq<Call>, w': Wheel, now: int)
    requires T.Every(T.Empty, es, c, start, interval, false) && |TickTimes(es, c, start)| == w'.tick + 1
    requires Valid(w) && 0 < interval && Exact(delay, interval, |w.buckets|)
    requires w.tick < w'.tick ==> now <= TickTimes(es, c, start)[w.tick + 1]
    ensures Reaches(RunAfterAnonymous(w, Bucket(delay, interval, |w.buckets|), cb), calls, w')
            && |Runs(w'.fired, Anonymous(w.next))| > |Runs(w.fired, Anonymous(w.next))|
            ==> TickTimes(es, c, start)[w'.tick] > now + delay
    ensures forall uuid ::
              (Reaches(RunAfterNamed(w, Bucket(delay, interval, |w.buckets|), cb, uuid), calls, w')
               && |Runs(w'.fired, Named(uuid))| > |Runs(w.fired, Named(uuid))|
               ==> TickTimes(es, c, start)[w'.tick] > now + delay)
  {
    var at, i := TickTimes(es, c, start), Bucket(delay, interval, |w.buckets|);
    TicksSpaced(es, c, start, interval);
    if Reaches(RunAfterAnonymous(w, i, cb), calls, w') && |Runs(w'.fired, Anonymous(w.next))| > |Runs(w.fired, Anonymous(w.next))| {
      NeverEarly(w, delay, interval, cb, calls, w', at, now);
    }
    forall uuid | Reaches(RunAfterNamed(w, i, cb, uuid), calls, w') && |Runs(w'.fired, Named(uuid))| > |Runs(w.fired, Named(uuid))|
      ensures at[w'.tick] > now + delay
    {
      NamedNeverEarly(w, delay, interval, cb, uuid, calls, w', at, now);
    }
  }
}
