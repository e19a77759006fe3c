/**
 The timer queue as a value: the multimap of deadlines, the one armed timerfd, and callbacks
 that register timers while the due ones are being run.  Times are in microseconds.
 */
module TimerModel {
  import opened Common

  type Cb = nat

  datatype Entry = Entry(time: int, cb: Cb)

  /** A callback run, and what the clock said when its batch was chosen. */
  datatype Firing = Firing(time: int, cb: Cb, at: int)

  /** The last setting of the timerfd: its value, and the clock when it was made. */
  datatype Setting = Setting(sec: nat, nsec: nat, madeAt: int)

  /**
   `pending` is `time_cb_map_` in key order, `next` is `next_trigger_time_` (0: not armed).
   `fired` and `registered` are history.
   */
  datatype Timers = Timers(pending: seq<Entry>, next: int, timerfd: Option<Setting>,
                           fired: seq<Firing>, registered: seq<Entry>)

  /** A registration made by a callback, and the clock when it is made. */
  datatype Registration = Registration(time: int, cb: Cb, now: int)

  const Empty := Timers([], 0, None, [], [])

  // --- Operations --------------------------------------------------------------------------------

  /** multimap::insert: behind every entry whose key is not larger. */
  function Insert(p: seq<Entry>, e: Entry): seq<Entry> {
    if p == [] then [e]
    else if e.time < p[0].time then [e] + p
    else [p[0]] + Insert(p[1..], e)
  }

  /** multimap::lower_bound: how many leading entries lie before the time. */
  function Due(p: seq<Entry>, now: int): (n: nat)
    ensures n <= |p|
  {
    if p == [] || p[0].time >= now then 0 else 1 + Due(p[1..], now)
  }

  function IntervalFromNow(time: int, now: int): nat {
    if time - now < 100 then 100 else time - now
  }

  function RegisterTimer(s: Timers, time: int, now: int): Timers {
    var us := IntervalFromNow(time, now);
    var sec := us / 1000000;
    s.(timerfd := Some(Setting(sec, (us - sec * 1000000) * 1000, now)), next := time)
  }

  function Register(s: Timers, r: Registration): Timers {
    var e := Entry(r.time, r.cb);
    var s1 := s.(pending := Insert(s.pending, e), registered := s.registered + [e]);
    if r.time < s1.next || s1.next == 0 then RegisterTimer(s1, r.time, r.now) else s1
  }

  function RegisterAll(s: Timers, rs: seq<Registration>): Timers
    decreases |rs|
  {
    if rs == [] then s else RegisterAll(Register(s, rs[0]), rs[1..])
  }

  function Run(s: Timers, e: Entry, now: int, rs: seq<Registration>): Timers {
    RegisterAll(s.(fired := s.fired + [Firing(e.time, e.cb, now)]), rs)
  }

  /** The loop of runTimerCb; script(i) is what the i-th callback of the batch registers. */
  function RunBatch(s: Timers, batch: seq<Entry>, now: int, script: nat -> seq<Registration>, i: nat): Timers
    requires i <= |batch|
    decreases |batch| - i
  {
    if i == |batch| then s
    else RunBatch(Run(s, batch[i], now, script(i)), batch, now, script, i + 1)
  }

  function Rearm(s: Timers, now: int): Timers {
    var s1 := s.(next := 0);
    if s1.pending != [] then RegisterTimer(s1, s1.pending[0].time, now) else s1
  }

  /** handleRead: `now` when the batch is chosen, `later` when the timer is armed again. */
  function HandleRead(s: Timers, now: int, script: nat -> seq<Registration>, later: int): Timers {
    var n := Due(s.pending, now);
    Rearm(RunBatch(s.(pending := s.pending[n..]), s.pending[..n], now, script, 0), later)
  }

  // --- Invariant -----------------------------------------------------------------------------------

  predicate Sorted(p: seq<Entry>) {
    forall i, j :: 0 <= i < j < |p| ==> p[i].time <= p[j].time
  }

  /**
   A setting the kernel accepts as armed: normalised, not zero, and going off at the time, or
   100 microseconds after it was made if that is later.
   */
  predicate ArmedFor(x: Setting, time: int) {
    && x.nsec < 1000000000
    && 1000 * x.madeAt + x.sec * 1000000000 + x.nsec == 1000 * (if time < x.madeAt + 100 then x.madeAt + 100 else time)
    && (x.sec > 0 || x.nsec > 0)
  }

  /** Nothing pending and not armed, or armed for the earliest pending entry. */
  predicate Armed(s: Timers) {
    if s.pending == [] then s.next == 0
    else s.next == s.pending[0].time && s.timerfd.Some? && ArmedFor(s.timerfd.value, s.next)
  }

  /** The callbacks of the entries with one key, in order. */
  function OfKey(p: seq<Entry>, k: int): seq<Cb> {
    if p == [] then []
    else OfKey(p[..|p| - 1], k) + if p[|p| - 1].time == k then [p[|p| - 1].cb] else []
  }

  function Entries(fired: seq<Firing>): (p: seq<Entry>)
    ensures |p| == |fired|
  {
    seq(|fired|, i requires 0 <= i < |fired| => Entry(fired[i].time, fired[i].cb))
  }

  /**
   Key by key, what has fired, what is left of the batch being run, and what is pending make up
   what was registered, in that order: nothing is lost, doubled, or overtaken by a later
   registration for the same time.
   */
  ghost predicate Accounted(s: Timers, rest: seq<Entry>) {
    forall k :: OfKey(Entries(s.fired), k) + (OfKey(rest, k) + OfKey(s.pending, k)) == OfKey(s.registered, k)
  }

  predicate NonZero(p: seq<Entry>) {
    forall i :: 0 <= i < |p| ==> p[i].time != 0
  }

  predicate OnTime(fired: seq<Firing>) {
    forall i :: 0 <= i < |fired| ==> fired[i].time < fired[i].at
  }

  /** What holds at every moment, with `rest` of a batch still to run. */
  ghost predicate Running(s: Timers, rest: seq<Entry>) {
    Sorted(s.pending) && NonZero(s.pending) && OnTime(s.fired) && Accounted(s, rest)
  }

  ghost predicate Valid(s: Timers) {
    Running(s, [])
  }

  // --- Lemmas ----------------------------------------------------------------------------------------

  lemma {:induction false} OfKeyAppend(p: seq<Entry>, q: seq<Entry>, k: int)
    ensures OfKey(p + q, k) == OfKey(p, k) + OfKey(q, k)
  {
    if q == [] {
      assert p + q == p;
    } else {
      assert (p + q)[..|p + q| - 1] == p + q[..|q| - 1];
      OfKeyAppend(p, q[..|q| - 1], k);
    }
  }

  lemma {:induction false} OfKeyNone(p: seq<Entry>, k: int)
    requires forall i :: 0 <= i < |p| ==> p[i].time != k
    ensures OfKey(p, k) == []
  {
    if p != [] { OfKeyNone(p[..|p| - 1], k); }
  }

  lemma OfKeyOne(e: Entry, k: int)
    ensures OfKey([e], k) == if e.time == k then [e.cb] else []
  {
    assert [e][..0] == [];
  }

  lemma {:induction false} InsertOk(p: seq<Entry>, e: Entry)
    requires Sorted(p)
    ensures Sorted(Insert(p, e)) && |Insert(p, e)| == |p| + 1
    ensures Insert(p, e)[0].time == if p != [] && p[0].time <= e.time then p[0].time else e.time
    ensures forall i :: 0 <= i < |Insert(p, e)| ==> Insert(p, e)[i] in p || Insert(p, e)[i] == e
  {
    if p != [] && p[0].time <= e.time {
      InsertOk(p[1..], e);
      var rest := Insert(p[1..], e);
      assert forall i :: 0 <= i < |rest| ==> rest[i] in p[1..] || rest[i] == e;
      assert forall x :: x in p[1..] ==> p[0].time <= x.time;
    }
  }

  lemma {:induction false} InsertOfKey(p: seq<Entry>, e: Entry, k: int)
    requires Sorted(p)
    ensures OfKey(Insert(p, e), k) == OfKey(p, k) + if e.time == k then [e.cb] else []
  {
    OfKeyOne(e, k);
    if p == [] {
    } else if e.time < p[0].time {
      OfKeyAppend([e], p, k);
      if e.time == k { OfKeyNone(p, k); }
    } else {
      InsertOfKey(p[1..], e, k);
      InsertBehind(p[0], p[1..], e, k);
      assert [p[0]] + p[1..] == p;
    }
  }

  lemma InsertBehind(first: Entry, rest: seq<Entry>, e: Entry, k: int)
    requires OfKey(Insert(rest, e), k) == OfKey(rest, k) + OfKey([e], k)
    ensures OfKey([first] + Insert(rest, e), k) == OfKey([first] + rest, k) + OfKey([e], k)
  {
    OfKeyAppend([first], rest, k);
    OfKeyAppend([first], Insert(rest, e), k);
    Regroup(OfKey([first], k), OfKey(rest, k), OfKey([e], k));
  }

  lemma {:induction false} DueIs(p: seq<Entry>, now: int)
    requires Sorted(p)
    ensures forall i :: 0 <= i < Due(p, now) ==> p[i].time < now
    ensures forall i :: Due(p, now) <= i < |p| ==> p[i].time >= now
  {
    if p != [] && p[0].time < now {
      DueIs(p[1..], now);
    }
  }

  lemma SettingArmed(s: Timers, time: int, now: int)
    ensures var s' := RegisterTimer(s, time, now); s'.timerfd.Some? && ArmedFor(s'.timerfd.value, time)
  {
  }

  lemma RegisterKey(s: Timers, r: Registration, rest: seq<Entry>, k: int)
    requires Sorted(s.pending)
    requires OfKey(Entries(s.fired), k) + (OfKey(rest, k) + OfKey(s.pending, k)) == OfKey(s.registered, k)
    ensures var s' := Register(s, r);
            OfKey(Entries(s'.fired), k) + (OfKey(rest, k) + OfKey(s'.pending, k)) == OfKey(s'.registered, k)
  {
    var e := Entry(r.time, r.cb);
    InsertOfKey(s.pending, e, k);
    OfKeyAppend(s.registered, [e], k);
    OfKeyOne(e, k);
    Regroup(OfKey(rest, k), OfKey(s.pending, k), OfKey([e], k));
    Regroup(OfKey(Entries(s.fired), k), OfKey(rest, k) + OfKey(s.pending, k), OfKey([e], k));
  }

  lemma RegisterValid(s: Timers, r: Registration, rest: seq<Entry>)
    requires Running(s, rest) && r.time != 0
    ensures Running(Register(s, r), rest)
    ensures Register(s, r).fired == s.fired
  {
    var s' := Register(s, r);
    InsertOk(s.pending, Entry(r.time, r.cb));
    forall k ensures OfKey(Entries(s'.fired), k) + (OfKey(rest, k) + OfKey(s'.pending, k)) == OfKey(s'.registered, k) {
      RegisterKey(s, r, rest, k);
    }
  }

  /** Between loop steps a registration keeps the timer armed for the earliest entry. */
  lemma RegisterArmed(s: Timers, r: Registration)
    requires Valid(s) && Armed(s) && r.time != 0
    ensures Valid(Register(s, r)) && Armed(Register(s, r))
    ensures Register(s, r).timerfd == s.timerfd || Register(s, r).timerfd.value.madeAt == r.now
  {
    RegisterValid(s, r, []);
    InsertOk(s.pending, Entry(r.time, r.cb));
    SettingArmed(s.(pending := Insert(s.pending, Entry(r.time, r.cb)), registered := s.registered + [Entry(r.time, r.cb)]),
                 r.time, r.now);
  }

  predicate NoZero(rs: seq<Registration>) {
    forall i :: 0 <= i < |rs| ==> rs[i].time != 0
  }

  lemma {:induction false} RegisterAllValid(s: Timers, rs: seq<Registration>, rest: seq<Entry>)
    requires Running(s, rest) && NoZero(rs)
    ensures Running(RegisterAll(s, rs), rest) && RegisterAll(s, rs).fired == s.fired
    decreases |rs|
  {
    if rs != [] {
      RegisterValid(s, rs[0], rest);
      RegisterAllValid(Register(s, rs[0]), rs[1..], rest);
    }
  }

  lemma FireKey(s: Timers, e: Entry, now: int, rest: seq<Entry>, k: int)
    requires OfKey(Entries(s.fired), k) + (OfKey([e] + rest, k) + OfKey(s.pending, k)) == OfKey(s.registered, k)
    ensures OfKey(Entries(s.fired + [Firing(e.time, e.cb, now)]), k) + (OfKey(rest, k) + OfKey(s.pending, k))
            == OfKey(s.registered, k)
  {
    assert Entries(s.fired + [Firing(e.time, e.cb, now)]) == Entries(s.fired) + [e];
    OfKeyAppend(Entries(s.fired), [e], k);
    OfKeyAppend([e], rest, k);
  }

  lemma FireValid(s: Timers, e: Entry, now: int, rest: seq<Entry>)
    requires Running(s, [e] + rest) && e.time < now
    ensures Running(s.(fired := s.fired + [Firing(e.time, e.cb, now)]), rest)
  {
    var s' := s.(fired := s.fired + [Firing(e.time, e.cb, now)]);
    forall k ensures OfKey(Entries(s'.fired), k) + (OfKey(rest, k) + OfKey(s'.pending, k)) == OfKey(s'.registered, k) {
      FireKey(s, e, now, rest, k);
    }
  }

  /** The firings of a batch, in its order. */
  function Firings(batch: seq<Entry>, now: int): (r: seq<Firing>)
    ensures |r| == |batch|
  {
    seq(|batch|, i requires 0 <= i < |batch| => Firing(batch[i].time, batch[i].cb, now))
  }

  lemma {:induction false} RunBatchValid(s: Timers, batch: seq<Entry>, now: int, script: nat -> seq<Registration>, i: nat)
    requires i <= |batch| && Running(s, batch[i..])
    requires forall j :: 0 <= j < |batch| ==> batch[j].time < now
    requires forall j :: NoZero(script(j))
    ensures Valid(RunBatch(s, batch, now, script, i))
    ensures RunBatch(s, batch, now, script, i).fired == s.fired + Firings(batch, now)[i..]
    decreases |batch| - i
  {
    if i < |batch| {
      var s1 := Run(s, batch[i], now, script(i));
      NextValid(s, batch, now, script(i), i);
      RunBatchValid(s1, batch, now, script, i + 1);
      FirstOf(Firings(batch, now), i);
      Regroup(s.fired, [Firings(batch, now)[i]], Firings(batch, now)[i + 1..]);
    } else {
      assert batch[i..] == [] && Firings(batch, now)[i..] == [];
    }
  }

  lemma NextValid(s: Timers, batch: seq<Entry>, now: int, rs: seq<Registration>, i: nat)
    requires i < |batch| && Running(s, batch[i..]) && batch[i].time < now && NoZero(rs)
    ensures Running(Run(s, batch[i], now, rs), batch[i + 1..])
    ensures Run(s, batch[i], now, rs).fired == s.fired + [Firings(batch, now)[i]]
  {
    FirstOf(batch, i);
    FireValid(s, batch[i], now, batch[i + 1..]);
    RegisterAllValid(s.(fired := s.fired + [Firing(batch[i].time, batch[i].cb, now)]), rs, batch[i + 1..]);
  }

  lemma FirstOf<T>(s: seq<T>, i: nat)
    requires i < |s|
    ensures s[i..] == [s[i]] + s[i + 1..]
  {
  }

  lemma SplitValid(s: Timers, now: int)
    requires Valid(s)
    ensures var n := Due(s.pending, now);
            Running(s.(pending := s.pending[n..]), s.pending[..n])
  {
    var n := Due(s.pending, now);
    forall k ensures OfKey(Entries(s.fired), k) + (OfKey(s.pending[..n], k) + OfKey(s.pending[n..], k)) == OfKey(s.registered, k) {
      SplitKey(s.pending, n, k);
      EmptyFirst(OfKey(s.pending, k));
    }
  }

  lemma EmptyFirst<T>(s: seq<T>)
    ensures [] + s == s
  {
  }

  lemma SplitKey(p: seq<Entry>, n: nat, k: int)
    requires n <= |p|
    ensures OfKey(p[..n], k) + OfKey(p[n..], k) == OfKey(p, k)
  {
    OfKeyAppend(p[..n], p[n..], k);
    assert p[..n] + p[n..] == p;
  }

  // --- Main results ------------------------------------------------------------------------------

  /**
   handleRead runs exactly the entries whose time had passed when it looked, in key order, each
   late; whatever their callbacks register waits for a later drain, even if it is already due;
   and the timer ends up armed for the earliest pending entry.
   */
  lemma DrainCorrect(s: Timers, now: int, script: nat -> seq<Registration>, later: int)
    requires Valid(s) && forall j :: NoZero(script(j))
    ensures var s' := HandleRead(s, now, script, later);
            && Valid(s') && Armed(s')
            && s'.fired == s.fired + Firings(s.pending[..Due(s.pending, now)], now)
            && (s'.pending != [] ==> s'.timerfd.value.madeAt == later)
    ensures forall i :: 0 <= i < |s.pending| ==> (i < Due(s.pending, now) <==> s.pending[i].time < now)
  {
    var n := Due(s.pending, now);
    DueIs(s.pending, now);
    SplitValid(s, now);
    assert s.pending[..n][0..] == s.pending[..n];
    var s1 := s.(pending := s.pending[n..]);
    RunBatchValid(s1, s.pending[..n], now, script, 0);
    var s2 := RunBatch(s1, s.pending[..n], now, script, 0);
    assert Firings(s.pending[..n], now)[0..] == Firings(s.pending[..n], now);
    if s2.pending != [] { SettingArmed(s2.(next := 0), s2.pending[0].time, later); }
  }

  /** What the loop does to the timer: a registration from outside, or the timerfd's handler. */
  datatype Event = Outside(r: Registration) | Expire(now: int, script: nat -> seq<Registration>, later: int)

  ghost predicate Allowed(e: Event) {
    match e
    case Outside(r) => r.time != 0
    case Expire(_, script, _) => forall j :: NoZero(script(j))
  }

  function Do(s: Timers, e: Event): Timers {
    match e
    case Outside(r) => Register(s, r)
    case Expire(now, script, later) => HandleRead(s, now, script, later)
  }

  function DoAll(s: Timers, es: seq<Event>): Timers
    decreases |es|
  {
    if es == [] then s else DoAll(Do(s, es[0]), es[1..])
  }

  lemma {:induction false} RunOk(s: Timers, es: seq<Event>)
    requires Valid(s) && Armed(s) && forall i :: 0 <= i < |es| ==> Allowed(es[i])
    ensures Valid(DoAll(s, es)) && Armed(DoAll(s, es))
    decreases |es|
  {
    if es != [] {
      match es[0] {
        case Outside(r) => RegisterArmed(s, r);
        case Expire(now, script, later) => DrainCorrect(s, now, script, later);
      }
      RunOk(Do(s, es[0]), es[1..]);
    }
  }

  lemma {:induction false} CountOfKey(p: seq<Entry>, e: Entry)
    ensures multiset(p)[e] == multiset(OfKey(p, e.time))[e.cb]
  {
    if p != [] {
      CountOfKey(p[..|p| - 1], e);
      assert p == p[..|p| - 1] + [p[|p| - 1]];
    }
  }

  /**
   After any run without a trigger time of 0: the timer is armed for the earliest pending
   entry or nothing is pending; everything registered has fired once or is pending; what was
   registered for one time fires in that order; and nothing fired before its time.
   */
  lemma TimerCorrect(es: seq<Event>)
    requires forall i :: 0 <= i < |es| ==> Allowed(es[i])
    ensures var s := DoAll(Empty, es);
            && Armed(s)
            && multiset(s.registered) == multiset(Entries(s.fired)) + multiset(s.pending)
            && (forall k :: OfKey(Entries(s.fired), k) + OfKey(s.pending, k) == OfKey(s.registered, k))
            && (forall i :: 0 <= i < |s.fired| ==> s.fired[i].time < s.fired[i].at)
  {
    assert Valid(Empty);
    RunOk(Empty, es);
    var s := DoAll(Empty, es);
    forall k ensures OfKey(Entries(s.fired), k) + OfKey(s.pending, k) == OfKey(s.registered, k) {
      assert OfKey([], k) + OfKey(s.pending, k) == OfKey(s.pending, k);
    }
    forall e ensures multiset(s.registered)[e] == multiset(Entries(s.fired))[e] + multiset(s.pending)[e] {
      CountOfKey(s.registered, e);
      CountOfKey(Entries(s.fired), e);
      CountOfKey(s.pending, e);
    }
  }

  // --- What was asked for ------------------------------------------------------------------------

  /** The entries a callback asks for. */
  function Wanted(rs: seq<Registration>): seq<Entry> {
    if rs == [] then [] else [Entry(rs[0].time, rs[0].cb)] + Wanted(rs[1..])
  }

  /** The entries the callbacks i to n - 1 of a batch ask for. */
  function ScriptWants(script: nat -> seq<Registration>, i: nat, n: nat): seq<Entry>
    decreases n - i
  {
    if i >= n then [] else Wanted(script(i)) + ScriptWants(script, i + 1, n)
  }

  /** What an event asks for: a drain, what the callbacks it fires ask for. */
  function Asks(s: Timers, e: Event): seq<Entry> {
    match e
    case Outside(r) => [Entry(r.time, r.cb)]
    case Expire(_, script, _) => ScriptWants(script, 0, if |Do(s, e).fired| < |s.fired| then 0 else |Do(s, e).fired| - |s.fired|)
  }

  function AllAsks(s: Timers, es: seq<Event>): seq<Entry>
    decreases |es|
  {
    if es == [] then [] else Asks(s, es[0]) + AllAsks(Do(s, es[0]), es[1..])
  }

  lemma {:induction false} RegisterAllAsks(s: Timers, rs: seq<Registration>)
    ensures RegisterAll(s, rs).registered == s.registered + Wanted(rs) && RegisterAll(s, rs).fired == s.fired
    decreases |rs|
  {
    if rs != [] {
      RegisterAllAsks(Register(s, rs[0]), rs[1..]);
      Regroup(s.registered, [Entry(rs[0].time, rs[0].cb)], Wanted(rs[1..]));
    }
  }

  lemma {:induction false} BatchAsks(s: Timers, batch: seq<Entry>, now: int, script: nat -> seq<Registration>, i: nat)
    requires i <= |batch|
    ensures var s' := RunBatch(s, batch, now, script, i);
            s'.registered == s.registered + ScriptWants(script, i, |batch|) && |s'.fired| == |s.fired| + |batch| - i
    decreases |batch| - i
  {
    if i < |batch| {
      RegisterAllAsks(s.(fired := s.fired + [Firing(batch[i].time, batch[i].cb, now)]), script(i));
      BatchAsks(Run(s, batch[i], now, script(i)), batch, now, script, i + 1);
      Regroup(s.registered, Wanted(script(i)), ScriptWants(script, i + 1, |batch|));
    }
  }

  lemma AskedRecorded(s: Timers, e: Event)
    ensures Do(s, e).registered == s.registered + Asks(s, e)
  {
    if e.Expire? {
      var n := Due(s.pending, e.now);
      BatchAsks(s.(pending := s.pending[n..]), s.pending[..n], e.now, e.script, 0);
    }
  }

  /** In every run what is registered is what the events asked for, each entry for its own time. */
  lemma {:induction false} RegisteredAsAsked(s: Timers, es: seq<Event>)
    ensures DoAll(s, es).registered == s.registered + AllAsks(s, es)
    decreases |es|
  {
    if es != [] {
      AskedRecorded(s, es[0]);
      RegisteredAsAsked(Do(s, es[0]), es[1..]);
      Regroup(s.registered, Asks(s, es[0]), AllAsks(Do(s, es[0]), es[1..]));
    }
  }

  lemma DrainedKey(s: Timers, now: int, script: nat -> seq<Registration>, later: int, k: int)
    requires Valid(s) && (forall j :: NoZero(script(j))) && k < now
    ensures OfKey(Entries(HandleRead(s, now, script, later).fired), k) == OfKey(s.registered, k)
  {
    var n, s' := Due(s.pending, now), HandleRead(s, now, script, later);
    DrainCorrect(s, now, script, later);
    assert Entries(s'.fired) == Entries(s.fired) + s.pending[..n];
    OfKeyAppend(Entries(s.fired), s.pending[..n], k);
    SplitKey(s.pending, n, k);
    OfKeyNone(s.pending[n..], k);
    assert OfKey([], k) + OfKey(s.pending, k) == OfKey(s.pending, k);
  }

  /**
   In every run a drain leaves nothing behind: after it the callbacks fired for any time before
   the clock it read are exactly those asked for, for that time, before it, in that order.
   */
  lemma DueHaveFired(es: seq<Event>, e: Event, k: int)
    requires (forall i :: 0 <= i < |es| ==> Allowed(es[i])) && e.Expire? && Allowed(e) && k < e.now
    ensures OfKey(Entries(Do(DoAll(Empty, es), e).fired), k) == OfKey(AllAsks(Empty, es), k)
  {
    assert Valid(Empty);
    RunOk(Empty, es);
    RegisteredAsAsked(Empty, es);
    assert [] + AllAsks(Empty, es) == AllAsks(Empty, es);
    DrainedKey(DoAll(Empty, es), e.now, e.script, e.later, k);
  }

  /**
   A trigger time of 0 looks like the mark for an unarmed timer: the next registration takes
   the timer away from the entry that is due first.
   */
  lemma ZeroIsMistaken(cb: Cb, r: Registration, now: int)
    requires r.time > 0
    ensures var s := Register(Register(Empty, Registration(0, cb, now)), r);
            s.pending[0].time == 0 && s.next == r.time && !Armed(s)
  {
    assert Insert([], Entry(0, cb)) == [Entry(0, cb)];
    assert [Entry(0, cb)][1..] == [];
    assert Insert([Entry(0, cb)], Entry(r.time, r.cb)) == [Entry(0, cb), Entry(r.time, r.cb)];
  }

  /**
   So a registration keeps the timer armed for the earliest entry exactly when it does not come
   later than an entry for time 0.
   */
  lemma ArmedKeptIff(s: Timers, r: Registration)
    requires Sorted(s.pending) && Armed(s)
    ensures Armed(Register(s, r)) <==> !(s.pending != [] && s.next == 0 && r.time > 0)
  {
    var e := Entry(r.time, r.cb);
    InsertOk(s.pending, e);
    SettingArmed(s.(pending := Insert(s.pending, e), registered := s.registered + [e]), r.time, r.now);
  }

  // --- runEvery ------------------------------------------------------------------------------------

  /** The times of the entries with one callback, in order. */
  function OfCb(p: seq<Entry>, c: Cb): seq<int> {
    if p == [] then [] else (if p[0].cb == c then [p[0].time] else []) + OfCb(p[1..], c)
  }

  /** When a callback ran. */
  function FiredAt(fired: seq<Firing>, c: Cb): seq<int> {
    if fired == [] then []
    else FiredAt(fired[..|fired| - 1], c) + if fired[|fired| - 1].cb == c then [fired[|fired| - 1].at] else []
  }

  predicate NoneFor(rs: seq<Registration>, c: Cb) {
    forall i :: 0 <= i < |rs| ==> rs[i].cb != c
  }

  /** One registration for c, at a clock reading not before `now`, and interval later. */
  predicate OnceFor(rs: seq<Registration>, c: Cb, now: int, interval: nat) {
    rs != [] && if rs[0].cb == c then rs[0].time - interval >= now && NoneFor(rs[1..], c) else OnceFor(rs[1..], c, now, interval)
  }

  /** What the callbacks of a batch register: c itself again, the others not c. */
  predicate Rearming(batch: seq<Entry>, now: int, script: nat -> seq<Registration>, c: Cb, interval: nat, i: nat) {
    forall j :: i <= j < |batch| ==>
      if batch[j].cb == c then OnceFor(script(j), c, now, interval) else NoneFor(script(j), c)
  }

  /**
   A run in which c is what runEvery registers: once from outside, for start + interval, and
   then by each of its own callbacks, an interval after the clock it reads when it is done.
   Anything else may be registered and fire meanwhile.
   */
  predicate Every(s: Timers, es: seq<Event>, c: Cb, start: int, interval: nat, running: bool)
    decreases |es|
  {
    es == [] ||
    match es[0]
    case Outside(r) =>
      && (r.cb == c ==> !running && r.time == start + interval)
      && Every(Do(s, es[0]), es[1..], c, start, interval, running || r.cb == c)
    case Expire(now, script, _) =>
      && Rearming(s.pending[..Due(s.pending, now)], now, script, c, interval, 0)
      && Every(Do(s, es[0]), es[1..], c, start, interval, running)
  }

  /** Firings more than an interval apart, the first more than one after the start. */
  predicate SpacedFrom(times: seq<int>, start: int, interval: nat) {
    && (times != [] ==> times[0] > start + interval)
    && forall k :: 0 <= k < |times| - 1 ==> times[k + 1] > times[k] + interval
  }

  function LastOr(times: seq<int>, start: int): int {
    if times == [] then start else times[|times| - 1]
  }

  /** c has one entry in the queue or in the rest of a batch, an interval after it last ran; or none yet. */
  predicate Live(s: Timers, rest: seq<Entry>, c: Cb, start: int, interval: nat, running: bool) {
    var entries, times := OfCb(rest, c) + OfCb(s.pending, c), FiredAt(s.fired, c);
    && SpacedFrom(times, start, interval)
    && (if running then |entries| == 1 && entries[0] >= LastOr(times, start) + interval else entries == times == [])
  }

  lemma {:induction false} OfCbSplit(p: seq<Entry>, n: nat, c: Cb)
    requires n <= |p|
    ensures OfCb(p, c) == OfCb(p[..n], c) + OfCb(p[n..], c)
  {
    if n > 0 {
      OfCbSplit(p[1..], n - 1, c);
      assert p[..n][1..] == p[1..][..n - 1] && p[n..] == p[1..][n - 1..];
    } else {
      assert p[..0] == [] && p[0..] == p;
    }
  }

  lemma {:induction false} InsertOfCb(p: seq<Entry>, e: Entry, c: Cb)
    ensures e.cb != c ==> OfCb(Insert(p, e), c) == OfCb(p, c)
    ensures e.cb == c && OfCb(p, c) == [] ==> OfCb(Insert(p, e), c) == [e.time]
  {
    if p == [] || e.time < p[0].time {
      assert ([e] + p)[1..] == p;
    } else {
      InsertOfCb(p[1..], e, c);
      assert ([p[0]] + Insert(p[1..], e))[1..] == Insert(p[1..], e);
    }
  }

  lemma {:induction false} RegisterNoneFor(s: Timers, rs: seq<Registration>, c: Cb)
    requires NoneFor(rs, c)
    ensures OfCb(RegisterAll(s, rs).pending, c) == OfCb(s.pending, c) && RegisterAll(s, rs).fired == s.fired
    decreases |rs|
  {
    if rs != [] {
      InsertOfCb(s.pending, Entry(rs[0].time, rs[0].cb), c);
      RegisterNoneFor(Register(s, rs[0]), rs[1..], c);
    }
  }

  lemma {:induction false} RegisterOnceFor(s: Timers, rs: seq<Registration>, c: Cb, now: int, interval: nat)
    requires OnceFor(rs, c, now, interval) && OfCb(s.pending, c) == []
    ensures var s' := RegisterAll(s, rs);
            |OfCb(s'.pending, c)| == 1 && OfCb(s'.pending, c)[0] >= now + interval && s'.fired == s.fired
    decreases |rs|
  {
    InsertOfCb(s.pending, Entry(rs[0].time, rs[0].cb), c);
    if rs[0].cb == c {
      RegisterNoneFor(Register(s, rs[0]), rs[1..], c);
    } else {
      RegisterOnceFor(Register(s, rs[0]), rs[1..], c, now, interval);
    }
  }

  lemma FiredMore(fired: seq<Firing>, x: Firing, c: Cb)
    ensures FiredAt(fired + [x], c) == FiredAt(fired, c) + if x.cb == c then [x.at] else []
  {
    assert (fired + [x])[..|fired|] == fired;
  }

  /** One callback of the batch, with what it registers. */
  lemma RunLive(s: Timers, e: Entry, rest: seq<Entry>, now: int, rs: seq<Registration>, c: Cb, start: int, interval: nat, running: bool)
    requires Live(s, [e] + rest, c, start, interval, running) && e.time < now
    requires if e.cb == c then OnceFor(rs, c, now, interval) else NoneFor(rs, c)
    ensures Live(Run(s, e, now, rs), rest, c, start, interval, running)
  {
    var x := Firing(e.time, e.cb, now);
    FiredMore(s.fired, x, c);
    assert ([e] + rest)[1..] == rest;
    if e.cb == c {
      RegisterOnceFor(s.(fired := s.fired + [x]), rs, c, now, interval);
    } else {
      RegisterNoneFor(s.(fired := s.fired + [x]), rs, c);
    }
  }

  lemma {:induction false} BatchLive(s: Timers, batch: seq<Entry>, now: int, script: nat -> seq<Registration>, i: nat,
                                     c: Cb, start: int, interval: nat, running: bool)
    requires i <= |batch| && Live(s, batch[i..], c, start, interval, running)
    requires Rearming(batch, now, script, c, interval, i) && forall j :: 0 <= j < |batch| ==> batch[j].time < now
    ensures Live(RunBatch(s, batch, now, script, i), [], c, start, interval, running)
    decreases |batch| - i
  {
    if i < |batch| {
      NextLive(s, batch, now, script, i, c, start, interval, running);
      BatchLive(Run(s, batch[i], now, script(i)), batch, now, script, i + 1, c, start, interval, running);
    } else {
      assert batch[i..] == [];
    }
  }

  lemma NextLive(s: Timers, batch: seq<Entry>, now: int, script: nat -> seq<Registration>, i: nat,
                 c: Cb, start: int, interval: nat, running: bool)
    requires i < |batch| && Live(s, batch[i..], c, start, interval, running)
    requires Rearming(batch, now, script, c, interval, i) && batch[i].time < now
    ensures Live(Run(s, batch[i], now, script(i)), batch[i + 1..], c, start, interval, running)
  {
    FirstOf(batch, i);
    RunLive(s, batch[i], batch[i + 1..], now, script(i), c, start, interval, running);
  }

  lemma {:induction false} DueBefore(p: seq<Entry>, now: int, j: nat)
    requires j < Due(p, now)
    ensures p[j].time < now
  {
    if j > 0 { DueBefore(p[1..], now, j - 1); }
  }

  lemma ExpireLive(s: Timers, now: int, script: nat -> seq<Registration>, later: int, c: Cb, start: int, interval: nat, running: bool)
    requires Live(s, [], c, start, interval, running)
    requires Rearming(s.pending[..Due(s.pending, now)], now, script, c, interval, 0)
    ensures Live(HandleRead(s, now, script, later), [], c, start, interval, running)
  {
    var n := Due(s.pending, now);
    var batch := s.pending[..n];
    OfCbSplit(s.pending, n, c);
    assert batch[0..] == batch;
    forall j | 0 <= j < |batch| ensures batch[j].time < now { DueBefore(s.pending, now, j); }
    BatchLive(s.(pending := s.pending[n..]), batch, now, script, 0, c, start, interval, running);
  }

  lemma OutsideLive(s: Timers, r: Registration, c: Cb, start: int, interval: nat, running: bool)
    requires Live(s, [], c, start, interval, running) && (r.cb == c ==> !running && r.time == start + interval)
    ensures Live(Register(s, r), [], c, start, interval, running || r.cb == c)
  {
    InsertOfCb(s.pending, Entry(r.time, r.cb), c);
  }

  lemma {:induction false} RunAllLive(s: Timers, es: seq<Event>, c: Cb, start: int, interval: nat, running: bool)
    requires Live(s, [], c, start, interval, running) && Every(s, es, c, start, interval, running)
    ensures SpacedFrom(FiredAt(DoAll(s, es).fired, c), start, interval)
    decreases |es|
  {
    if es != [] {
      match es[0] {
        case Outside(r) =>
          OutsideLive(s, r, c, start, interval, running);
          RunAllLive(Do(s, es[0]), es[1..], c, start, interval, running || r.cb == c);
        case Expire(now, script, later) =>
          ExpireLive(s, now, script, later, c, start, interval, running);
          RunAllLive(Do(s, es[0]), es[1..], c, start, interval, running);
      }
    }
  }

  lemma {:induction false} SpacedBound(times: seq<int>, start: int, interval: nat, k: nat)
    requires SpacedFrom(times, start, interval) && k < |times|
    ensures times[k] > start + (k + 1) * interval
  {
    if k > 0 {
      SpacedBound(times, start, interval, k - 1);
      assert times[k - 1 + 1] > times[k - 1] + interval;
      assert (k + 1) * interval == k * interval + interval;
    }
  }

  /**
   In every run of the timer, whatever else is registered, the callback of a runEvery runs at
   times more than an interval apart, number k (from 0) later than start + (k + 1) * interval.
   */
  lemma PeriodicSpacing(es: seq<Event>, c: Cb, start: int, interval: nat)
    requires Every(Empty, es, c, start, interval, false)
    ensures var times := FiredAt(DoAll(Empty, es).fired, c);
            && SpacedFrom(times, start, interval)
            && forall k :: 0 <= k < |times| ==> times[k] > start + (k + 1) * interval
  {
    RunAllLive(Empty, es, c, start, interval, false);
    var times := FiredAt(DoAll(Empty, es).fired, c);
    forall k | 0 <= k < |times| ensures times[k] > start + (k + 1) * interval {
      SpacedBound(times, start, interval, k);
    }
  }
}
