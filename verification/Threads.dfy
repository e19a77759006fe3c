/** Threads and mutexes, and counting the threads whose program counter satisfies a predicate. */
module Threads {

  type Tid = nat

  datatype Mutex = Free | Held(holder: Tid)

  /** What one operation of a thread does to a mutex. */
  datatype Use = Keep | Take | Drop

  function Used(m: Mutex, use: Use, t: Tid): Mutex {
    match use
    case Keep => m
    case Take => Held(t)
    case Drop => Free
  }

  ghost function Where<P>(pc: map<Tid, P>, holds: P -> bool): set<Tid> {
    set t | t in pc && holds(pc[t])
  }

  ghost function Count<P>(pc: map<Tid, P>, holds: P -> bool): nat {
    |Where(pc, holds)|
  }

  lemma MovedSet<P>(pc: map<Tid, P>, t: Tid, p: P, holds: P -> bool)
    requires t in pc
    ensures Where(pc[t := p], holds) == if holds(p) then Where(pc, holds) + {t} else Where(pc, holds) - {t}
  {
  }

  /** Moving one thread changes a count by at most that thread. */
  lemma Moved<P>(pc: map<Tid, P>, t: Tid, p: P, holds: P -> bool)
    requires t in pc
    ensures Count(pc[t := p], holds)
            == Count(pc, holds) - (if holds(pc[t]) then 1 else 0) + (if holds(p) then 1 else 0)
    ensures holds(pc[t]) ==> Count(pc, holds) > 0
  {
    MovedSet(pc, t, p, holds);
    assert t in Where(pc, holds) <==> holds(pc[t]);
  }

  lemma Witness<P>(pc: map<Tid, P>, holds: P -> bool) returns (t: Tid)
    requires Count(pc, holds) > 0
    ensures t in pc && holds(pc[t])
  {
    t :| t in Where(pc, holds);
  }

  lemma CountPositive<P>(pc: map<Tid, P>, t: Tid, holds: P -> bool)
    requires t in pc && holds(pc[t])
    ensures Count(pc, holds) > 0
  {
    assert t in Where(pc, holds);
  }

  lemma NoneCounted<P>(pc: map<Tid, P>, holds: P -> bool)
    requires forall t :: t in pc ==> !holds(pc[t])
    ensures Count(pc, holds) == 0
  {
    assert Where(pc, holds) == {};
  }

  lemma AtMostOne<P>(pc: map<Tid, P>, t: Tid, u: Tid, holds: P -> bool)
    requires Count(pc, holds) <= 1 && t in pc && u in pc && holds(pc[t]) && holds(pc[u])
    ensures t == u
  {
    assert t in Where(pc, holds) && |Where(pc, holds) - {t}| == 0;
    assert u !in Where(pc, holds) - {t};
  }

  // --- Histories of who did what -----------------------------------------------------------------

  function Items<T>(done: seq<(Tid, T)>): (r: seq<T>)
    ensures |r| == |done|
  {
    seq(|done|, i requires 0 <= i < |done| => done[i].1)
  }

  /** One thread's share of a history, in order. */
  function By<T>(done: seq<(Tid, T)>, t: Tid): seq<T> {
    if done == [] then []
    else
      var last := done[|done| - 1];
      By(done[..|done| - 1], t) + (if last.0 == t then [last.1] else [])
  }

  lemma OneMore<T>(done: seq<(Tid, T)>, t: Tid, x: T, u: Tid)
    ensures By(done + [(t, x)], u) == By(done, u) + if u == t then [x] else []
    ensures Items(done + [(t, x)]) == Items(done) + [x]
  {
    assert (done + [(t, x)])[..|done|] == done;
  }

  // --- Adding up ranks ---------------------------------------------------------------------------

  ghost function AtLeast<P>(rank: P -> nat, k: nat): P -> bool {
    p => rank(p) >= k
  }

  /** The sum of the threads' ranks, each cut off at k. */
  ghost function Total<P>(pc: map<Tid, P>, rank: P -> nat, k: nat): nat {
    if k == 0 then 0 else Total(pc, rank, k - 1) + Count(pc, AtLeast(rank, k))
  }

  function Min(a: nat, b: nat): nat {
    if a < b then a else b
  }

  lemma {:induction false} TotalMoved<P>(pc: map<Tid, P>, t: Tid, p: P, rank: P -> nat, k: nat)
    requires t in pc
    ensures Total(pc[t := p], rank, k) + Min(rank(pc[t]), k) == Total(pc, rank, k) + Min(rank(p), k)
  {
    if k > 0 {
      TotalMoved(pc, t, p, rank, k - 1);
      Moved(pc, t, p, AtLeast(rank, k));
    }
  }
}
