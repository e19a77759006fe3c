/**
 The time wheel as a value: buckets of shared entries, and the weak index by uuid.  An entry's callback runs
 when the last bucket reference to it goes away.  The wheel is shown to be a table from keys
 to deadlines.
 */
module WheelModel {
  import opened Common

  type Cb = nat
  type EntryId = nat

  /** What an entry was registered under: a uuid, or nothing (then its own identity). */
  datatype Key = Named(uuid: int) | Anonymous(id: EntryId)

  datatype Entry = Entry(key: Key, cb: Cb)

  datatype Firing = Firing(key: Key, cb: Cb)

  /**
   `entries` are the entries not destroyed yet, `index` is `weak_entry_map_`; `tick` counts the
   calls of onTimer and `fired` lists the callbacks run, both as history.
   */
  datatype Wheel = Wheel(buckets: seq<seq<EntryId>>, index: map<int, EntryId>, entries: map<EntryId, Entry>,
                         next: EntryId, tick: nat, fired: seq<Firing>)

  const UINT32 := 0x1_0000_0000

  /**
   The bucket for a delay of `ratio` whole intervals, in the 32-bit arithmetic of runAfter.
   */
  function BucketIndex(ratio: nat, size: nat): (i: nat)
    requires 0 < size && ratio < UINT32
    ensures i < size
  {
    var bucketNum := (ratio + 1) % UINT32;
    if bucketNum >= size then size - 1 else ((bucketNum + size) % UINT32) % size
  }

  // --- References ------------------------------------------------------------------------------

  /** The last bucket that refers to e, or -1. */
  function Last(buckets: seq<seq<EntryId>>, e: EntryId): (i: int)
    ensures -1 <= i < |buckets|
  {
    if buckets == [] then -1
    else if e in buckets[|buckets| - 1] then |buckets| - 1
    else Last(buckets[..|buckets| - 1], e)
  }

  predicate InBuckets(buckets: seq<seq<EntryId>>, e: EntryId) {
    Last(buckets, e) >= 0
  }

  lemma {:induction false} LastFacts(buckets: seq<seq<EntryId>>, e: EntryId)
    ensures Last(buckets, e) >= 0 ==> e in buckets[Last(buckets, e)]
    ensures forall j :: Last(buckets, e) < j < |buckets| ==> e !in buckets[j]
  {
    if buckets != [] && e !in buckets[|buckets| - 1] {
      LastFacts(buckets[..|buckets| - 1], e);
    }
  }

  lemma LastIs(buckets: seq<seq<EntryId>>, e: EntryId, i: int)
    requires -1 <= i < |buckets| && (i >= 0 ==> e in buckets[i])
    requires forall j :: i < j < |buckets| ==> e !in buckets[j]
    ensures Last(buckets, e) == i
  {
    LastFacts(buckets, e);
  }

  // --- Operations ------------------------------------------------------------------------------

  function PushBack(buckets: seq<seq<EntryId>>, i: nat, e: EntryId): seq<seq<EntryId>>
    requires i < |buckets|
  {
    buckets[i := buckets[i] + [e]]
  }

  /** runAfter with a uuid.  A dead weak pointer would put a null pointer in the bucket, which fires nothing. */
  function RunAfterNamed(w: Wheel, i: nat, cb: Cb, uuid: int): Wheel
    requires i < |w.buckets|
  {
    if uuid in w.index then
      var e := w.index[uuid];
      if InBuckets(w.buckets, e) then w.(buckets := PushBack(w.buckets, i, e)) else w
    else
      w.(buckets := PushBack(w.buckets, i, w.next), index := w.index[uuid := w.next],
         entries := w.entries[w.next := Entry(Named(uuid), cb)], next := w.next + 1)
  }

  function RunAfterAnonymous(w: Wheel, i: nat, cb: Cb): Wheel
    requires i < |w.buckets|
  {
    w.(buckets := PushBack(w.buckets, i, w.next),
       entries := w.entries[w.next := Entry(Anonymous(w.next), cb)], next := w.next + 1)
  }

  /** The destructor of an entry: its callback, then the clean-up of the index. */
  function Destroy(w: Wheel, e: EntryId): Wheel
    requires e in w.entries
  {
    var x := w.entries[e];
    var alive := w.entries - {e};
    var index := if x.key.Named? && x.key.uuid in w.index && w.index[x.key.uuid] !in alive
                 then w.index - {x.key.uuid} else w.index;
    w.(index := index, entries := alive, fired := w.fired + [Firing(x.key, x.cb)])
  }

  /** Releasing one reference of the expired bucket, of which `rest` is still to be released. */
  function Release(w: Wheel, e: EntryId, rest: seq<EntryId>): Wheel {
    if e in w.entries && e !in rest && !InBuckets(w.buckets, e) then Destroy(w, e) else w
  }

  function ReleaseAll(w: Wheel, tmp: seq<EntryId>): Wheel
    decreases |tmp|
  {
    if tmp == [] then w else ReleaseAll(Release(w, tmp[0], tmp[1..]), tmp[1..])
  }

  function Rotate(w: Wheel): Wheel
    requires w.buckets != []
  {
    w.(buckets := w.buckets[1..] + [[]], tick := w.tick + 1)
  }

  function OnTimer(w: Wheel): Wheel
    requires w.buckets != []
  {
    ReleaseAll(Rotate(w), w.buckets[0])
  }

  // --- Invariant -------------------------------------------------------------------------------

  /** The entry a key leads to. */
  function Owner(w: Wheel, k: Key): Option<EntryId> {
    match k
    case Named(u) => if u in w.index then Some(w.index[u]) else None
    case Anonymous(id) => Some(id)
  }

  /** Index and entries agree, and an entry's key says who it is. */
  ghost predicate Indexed(w: Wheel) {
    && (forall u :: u in w.index ==> w.index[u] in w.entries && w.entries[w.index[u]].key == Named(u))
    && (forall e :: e in w.entries ==> e < w.next)
    && (forall e :: e in w.entries ==> Owner(w, w.entries[e].key) == Some(e))
  }

  /** The undestroyed entries are those some bucket, or the rest of the expired one, refers to. */
  ghost predicate Referenced(w: Wheel, rest: seq<EntryId>) {
    forall e :: e in w.entries <==> InBuckets(w.buckets, e) || e in rest
  }

  ghost predicate Valid(w: Wheel) {
    w.buckets != [] && Indexed(w) && Referenced(w, [])
  }

  // --- Refinement to a table of deadlines -----------------------------------------------------

  datatype Timer = Timer(deadline: nat, cb: Cb)

  ghost function Keys(w: Wheel): set<Key> {
    set e | e in w.entries :: w.entries[e].key
  }

  lemma OwnerOfKey(w: Wheel, k: Key)
    requires Indexed(w) && k in Keys(w)
    ensures Owner(w, k).Some? && Owner(w, k).value in w.entries && w.entries[Owner(w, k).value].key == k
  {
  }

  /** What the wheel means: for each key, the callback and the tick at which it runs. */
  ghost function Table(w: Wheel): (t: map<Key, Timer>)
    requires Indexed(w)
    ensures t.Keys == Keys(w)
  {
    map k | k in Keys(w) ::
      OwnerOfKey(w, k);
      var e := Owner(w, k).value;
      Timer(w.tick + Last(w.buckets, e) + 1, w.entries[e].cb)
  }

  lemma PushedLast(buckets: seq<seq<EntryId>>, i: nat, e: EntryId, f: EntryId)
    requires i < |buckets|
    ensures Last(PushBack(buckets, i, e), f) ==
            if f == e && Last(buckets, f) < i then i else Last(buckets, f)
  {
    LastFacts(buckets, f);
    LastIs(PushBack(buckets, i, e), f, if f == e && Last(buckets, f) < i then i else Last(buckets, f));
  }

  lemma RotatedLast(buckets: seq<seq<EntryId>>, e: EntryId)
    requires buckets != []
    ensures Last(buckets[1..] + [[]], e) == if Last(buckets, e) >= 1 then Last(buckets, e) - 1 else -1
  {
    var rotated := buckets[1..] + [[]];
    LastFacts(buckets, e);
    var i := if Last(buckets, e) >= 1 then Last(buckets, e) - 1 else -1;
    LastIs(rotated, e, i);
  }

  /** The largest tick wins: a call can only put a deadline off. */
  function Later(t: map<Key, Timer>, k: Key, deadline: nat, cb: Cb): map<Key, Timer> {
    if k in t then t[k := t[k].(deadline := if t[k].deadline < deadline then deadline else t[k].deadline)]
    else t[k := Timer(deadline, cb)]
  }

  lemma PushedInBuckets(buckets: seq<seq<EntryId>>, i: nat, e: EntryId, f: EntryId)
    requires i < |buckets|
    ensures InBuckets(PushBack(buckets, i, e), f) <==> f == e || InBuckets(buckets, f)
  {
    PushedLast(buckets, i, e, f);
  }

  /** Another reference to an entry in place. */
  function Refreshed(w: Wheel, i: nat, e: EntryId): Wheel
    requires i < |w.buckets|
  {
    w.(buckets := PushBack(w.buckets, i, e))
  }

  lemma RefreshValid(w: Wheel, i: nat, e: EntryId)
    requires Valid(w) && i < |w.buckets| && e in w.entries
    ensures Valid(Refreshed(w, i, e))
  {
    forall f ensures f in w.entries <==> InBuckets(PushBack(w.buckets, i, e), f) {
      PushedInBuckets(w.buckets, i, e, f);
    }
  }

  lemma RefreshKey(w: Wheel, i: nat, e: EntryId, k: Key, w': Wheel)
    requires Indexed(w) && i < |w.buckets| && e in w.entries && w' == Refreshed(w, i, e) && k in Keys(w)
    ensures Indexed(w') && Keys(w') == Keys(w)
    ensures var key, deadline := w.entries[e].key, w.tick + i + 1;
            Table(w')[k].cb == Table(w)[k].cb
            && Table(w')[k].deadline ==
               if k == key && Table(w)[k].deadline < deadline then deadline else Table(w)[k].deadline
  {
    OwnerOfKey(w, k);
    PushedLast(w.buckets, i, e, Owner(w, k).value);
  }

  lemma RefreshTable(w: Wheel, i: nat, e: EntryId)
    requires Valid(w) && i < |w.buckets| && e in w.entries
    ensures Valid(Refreshed(w, i, e))
    ensures Table(Refreshed(w, i, e)) == Later(Table(w), w.entries[e].key, w.tick + i + 1, w.entries[e].cb)
  {
    var w' := Refreshed(w, i, e);
    RefreshValid(w, i, e);
    assert w.entries[e].key in Keys(w);
    forall k | k in Keys(w) ensures Table(w')[k] == Later(Table(w), w.entries[e].key, w.tick + i + 1, w.entries[e].cb)[k] {
      RefreshKey(w, i, e, k, w');
    }
  }

  /** A new entry, known to the index if it has a uuid. */
  function Added(w: Wheel, i: nat, x: Entry): Wheel
    requires i < |w.buckets|
  {
    w.(buckets := PushBack(w.buckets, i, w.next), entries := w.entries[w.next := x], next := w.next + 1,
       index := if x.key.Named? then w.index[x.key.uuid := w.next] else w.index)
  }

  lemma AddedValid(w: Wheel, i: nat, x: Entry)
    requires Valid(w) && i < |w.buckets| && x.key !in Keys(w)
    requires x.key.Anonymous? ==> x.key.id == w.next
    ensures Valid(Added(w, i, x))
    ensures Last(w.buckets, w.next) == -1
  {
    var w' := Added(w, i, x);
    assert !InBuckets(w.buckets, w.next);
    forall f ensures f in w'.entries <==> InBuckets(w'.buckets, f) { PushedInBuckets(w.buckets, i, w.next, f); }
    NewKeyNotIndexed(w, x.key);
  }

  lemma NewKeyNotIndexed(w: Wheel, k: Key)
    requires Indexed(w) && k !in Keys(w)
    ensures k.Named? ==> k.uuid !in w.index
  {
    forall u | u in w.index ensures Named(u) in Keys(w) {
      assert w.entries[w.index[u]].key in Keys(w);
    }
  }

  lemma AddedKeys(w: Wheel, i: nat, x: Entry, w': Wheel)
    requires Valid(w) && i < |w.buckets| && x.key !in Keys(w) && w' == Added(w, i, x)
    ensures Keys(w') == Keys(w) + {x.key}
  {
    forall k | k in Keys(w) ensures k in Keys(w') {
      OwnerOfKey(w, k);
      assert w'.entries[Owner(w, k).value].key == k;
    }
    assert w'.entries[w.next].key == x.key;
  }

  lemma AddedOldKey(w: Wheel, i: nat, x: Entry, k: Key, w': Wheel)
    requires Valid(w) && i < |w.buckets| && w' == Added(w, i, x) && Indexed(w')
    requires k in Keys(w) && k in Keys(w') && k != x.key
    ensures Table(w')[k] == Table(w)[k]
  {
    OwnerOfKey(w, k);
    PushedLast(w.buckets, i, w.next, Owner(w, k).value);
  }

  lemma AddedNewKey(w: Wheel, i: nat, x: Entry, w': Wheel)
    requires i < |w.buckets| && w' == Added(w, i, x) && Indexed(w') && x.key in Keys(w')
    requires Last(w.buckets, w.next) == -1 && (x.key.Anonymous? ==> x.key.id == w.next)
    ensures Table(w')[x.key] == Timer(w.tick + i + 1, x.cb)
  {
    PushedLast(w.buckets, i, w.next, w.next);
  }

  lemma AddedOthers(w: Wheel, i: nat, x: Entry, w': Wheel)
    requires Valid(w) && i < |w.buckets| && w' == Added(w, i, x) && Indexed(w')
    requires x.key !in Keys(w) && Keys(w') == Keys(w) + {x.key}
    ensures forall k :: k in Table(w) ==> k in Table(w') && Table(w')[k] == Table(w)[k]
  {
    forall k | k in Table(w) ensures Table(w')[k] == Table(w)[k] {
      AddedOldKey(w, i, x, k, w');
    }
  }

  lemma LaterNew(t: map<Key, Timer>, k: Key, deadline: nat, cb: Cb, t': map<Key, Timer>)
    requires k !in t && t'.Keys == t.Keys + {k} && t'[k] == Timer(deadline, cb)
    requires forall o :: o in t ==> o in t' && t'[o] == t[o]
    ensures t' == Later(t, k, deadline, cb)
  {
  }

  lemma AddedTable(w: Wheel, i: nat, x: Entry)
    requires Valid(w) && i < |w.buckets| && x.key !in Keys(w)
    requires x.key.Anonymous? ==> x.key.id == w.next
    ensures Valid(Added(w, i, x)) && Table(Added(w, i, x)) == Later(Table(w), x.key, w.tick + i + 1, x.cb)
  {
    var w' := Added(w, i, x);
    AddedValid(w, i, x);
    AddedKeys(w, i, x, w');
    AddedNewKey(w, i, x, w');
    AddedOthers(w, i, x, w');
    LaterNew(Table(w), x.key, w.tick + i + 1, x.cb, Table(w'));
  }

  /** `lock()` on a uuid found in the index never yields null. */
  lemma LockSucceeds(w: Wheel, uuid: int)
    requires Valid(w)
    ensures uuid in w.index <==> Named(uuid) in Table(w)
    ensures uuid in w.index ==> InBuckets(w.buckets, w.index[uuid])
  {
    if Named(uuid) in Table(w) { OwnerOfKey(w, Named(uuid)); }
    if uuid in w.index { assert w.entries[w.index[uuid]].key in Keys(w); }
  }

  lemma NamedValid(w: Wheel, i: nat, cb: Cb, uuid: int)
    requires Valid(w) && i < |w.buckets|
    ensures Valid(RunAfterNamed(w, i, cb, uuid)) && (uuid in w.index ==> InBuckets(w.buckets, w.index[uuid]))
  {
    LockSucceeds(w, uuid);
    RunAfterNamedRefines(w, i, cb, uuid);
  }

  /** runAfter on the table: a known uuid keeps its first callback and takes the later deadline. */
  lemma RunAfterNamedRefines(w: Wheel, i: nat, cb: Cb, uuid: int)
    requires Valid(w) && i < |w.buckets|
    ensures Valid(RunAfterNamed(w, i, cb, uuid))
    ensures Table(RunAfterNamed(w, i, cb, uuid)) == Later(Table(w), Named(uuid), w.tick + i + 1, cb)
  {
    LockSucceeds(w, uuid);
    if uuid in w.index {
      RefreshTable(w, i, w.index[uuid]);
    } else {
      AddedTable(w, i, Entry(Named(uuid), cb));
    }
  }

  lemma RunAfterAnonymousRefines(w: Wheel, i: nat, cb: Cb)
    requires Valid(w) && i < |w.buckets|
    ensures Valid(RunAfterAnonymous(w, i, cb)) && Anonymous(w.next) !in Table(w)
    ensures Table(RunAfterAnonymous(w, i, cb)) == Table(w)[Anonymous(w.next) := Timer(w.tick + i + 1, cb)]
  {
    if Anonymous(w.next) in Keys(w) { OwnerOfKey(w, Anonymous(w.next)); }
    AddedTable(w, i, Entry(Anonymous(w.next), cb));
  }

  // --- The tick ----------------------------------------------------------------------------------

  /** While the expired bucket is being released: what is left of it also keeps entries alive. */
  ghost predicate Releasing(w: Wheel, rest: seq<EntryId>) {
    w.buckets != [] && Indexed(w) && Referenced(w, rest)
  }

  lemma DestroyKeeps(w: Wheel, e: EntryId)
    requires Indexed(w) && e in w.entries
    ensures Indexed(Destroy(w, e))
    ensures Table(Destroy(w, e)) == Table(w) - {w.entries[e].key}
  {
    var w' := Destroy(w, e);
    forall f | f in w'.entries ensures Owner(w', w'.entries[f].key) == Some(f) {
      assert Owner(w, w.entries[f].key) == Some(f);
    }
    forall u | u in w'.index ensures w'.index[u] in w'.entries && w'.entries[w'.index[u]].key == Named(u) {
    }
    assert Keys(w') == Keys(w) - {w.entries[e].key} by {
      forall k | k in Keys(w) && k != w.entries[e].key ensures k in Keys(w') {
        OwnerOfKey(w, k);
        assert w'.entries[Owner(w, k).value].key == k;
      }
    }
    forall k | k in Table(w') ensures Table(w')[k] == Table(w)[k] {
      OwnerOfKey(w', k);
      OwnerOfKey(w, k);
    }
  }

  /** Releasing one reference either keeps its entry alive or destroys an entry nobody else holds. */
  lemma ReleaseKeeps(w: Wheel, e: EntryId, rest: seq<EntryId>)
    requires Releasing(w, [e] + rest)
    ensures Releasing(Release(w, e, rest), rest)
    ensures var w' := Release(w, e, rest);
            if e !in rest && !InBuckets(w.buckets, e)
            then e in w.entries && w' == Destroy(w, e) && Table(w') == Table(w) - {w.entries[e].key}
            else w' == w
  {
    assert forall f :: f in [e] + rest <==> f == e || f in rest;
    if e !in rest && !InBuckets(w.buckets, e) {
      DestroyKeeps(w, e);
    }
  }

  /** The callbacks that are due: one for each key with the given deadline. */
  ghost predicate FiresAt(fired: seq<Firing>, t: map<Key, Timer>, deadline: nat) {
    && (forall i, j :: 0 <= i < j < |fired| ==> fired[i].key != fired[j].key)
    && (forall i :: 0 <= i < |fired| ==>
          fired[i].key in t && t[fired[i].key] == Timer(deadline, fired[i].cb))
    && (forall k :: k in t && t[k].deadline == deadline ==> Firing(k, t[k].cb) in fired)
  }

  function Without(t: map<Key, Timer>, deadline: nat): map<Key, Timer> {
    map k | k in t && t[k].deadline != deadline :: t[k]
  }

  /** A destroyed entry's deadline is the present tick: no bucket refers to it. */
  lemma DeadlineNow(w: Wheel, k: Key)
    requires Indexed(w) && k in Keys(w)
    ensures Table(w)[k].deadline == w.tick <==> !InBuckets(w.buckets, Owner(w, k).value)
    ensures Table(w)[k].deadline >= w.tick
  {
    OwnerOfKey(w, k);
  }

  lemma FiresFirst(x: Firing, fired: seq<Firing>, t: map<Key, Timer>, deadline: nat)
    requires x.key in t && t[x.key] == Timer(deadline, x.cb)
    requires FiresAt(fired, t - {x.key}, deadline)
    ensures FiresAt([x] + fired, t, deadline)
    ensures Without(t - {x.key}, deadline) == Without(t, deadline)
  {
    forall k | k in t && t[k].deadline == deadline && k != x.key ensures Firing(k, t[k].cb) in fired {
      assert k in t - {x.key} && (t - {x.key})[k].deadline == deadline;
    }
  }

  lemma NothingDue(w: Wheel)
    requires Valid(w)
    ensures FiresAt([], Table(w), w.tick) && Without(Table(w), w.tick) == Table(w)
  {
    forall k | k in Table(w) ensures Table(w)[k].deadline != w.tick {
      OwnerOfKey(w, k);
      DeadlineNow(w, k);
    }
  }

  /** What firing everything due at a tick does to the record of callbacks and to the table. */
  ghost predicate Fires(before: seq<Firing>, t: map<Key, Timer>, tick: nat, fired: seq<Firing>,
                        after: seq<Firing>, t': map<Key, Timer>)
  {
    after == before + fired && FiresAt(fired, t, tick) && t' == Without(t, tick)
  }

  lemma OneMore(before: seq<Firing>, t: map<Key, Timer>, t1: map<Key, Timer>, tick: nat, x: Firing, more: seq<Firing>,
                after: seq<Firing>, t': map<Key, Timer>)
    requires Fires(before + [x], t1, tick, more, after, t')
    requires FiresAt([x] + more, t, tick) && Without(t1, tick) == Without(t, tick)
    ensures Fires(before, t, tick, [x] + more, after, t')
  {
    assert before + [x] + more == before + ([x] + more);
  }

  lemma {:induction false} ReleaseAllFires(w: Wheel, tmp: seq<EntryId>, w': Wheel) returns (fired: seq<Firing>)
    requires Releasing(w, tmp) && w' == ReleaseAll(w, tmp)
    ensures Valid(w') && w'.tick == w.tick && w'.buckets == w.buckets
    ensures Fires(w.fired, Table(w), w.tick, fired, w'.fired, Table(w'))
    decreases |tmp|
  {
    if tmp == [] {
      fired := [];
      NothingDue(w);
    } else {
      assert tmp == [tmp[0]] + tmp[1..];
      var w1 := Release(w, tmp[0], tmp[1..]);
      ReleaseKeeps(w, tmp[0], tmp[1..]);
      fired := ReleaseAllFires(w1, tmp[1..], w');
      if w1 != w {
        fired := OneFires(w, tmp[0], tmp[1..], w1, fired, w');
      }
    }
  }

  lemma OneFires(w: Wheel, e: EntryId, rest: seq<EntryId>, w1: Wheel, more: seq<Firing>, w': Wheel) returns (fired: seq<Firing>)
    requires Releasing(w, [e] + rest) && w1 == Release(w, e, rest) && w1 != w && Indexed(w1) && Indexed(w')
    requires Fires(w1.fired, Table(w1), w.tick, more, w'.fired, Table(w'))
    ensures Fires(w.fired, Table(w), w.tick, fired, w'.fired, Table(w'))
  {
    ReleaseKeeps(w, e, rest);
    var x := Firing(w.entries[e].key, w.entries[e].cb);
    assert x.key in Keys(w);
    DeadlineNow(w, x.key);
    FiresFirst(x, more, Table(w), w.tick);
    OneMore(w.fired, Table(w), Table(w1), w.tick, x, more, w'.fired, Table(w'));
    fired := [x] + more;
  }

  lemma RotateReferenced(w: Wheel)
    requires Valid(w)
    ensures Releasing(Rotate(w), w.buckets[0])
  {
    var w' := Rotate(w);
    forall e ensures e in w'.entries <==> InBuckets(w'.buckets, e) || e in w.buckets[0] {
      RotatedLast(w.buckets, e);
      LastFacts(w.buckets, e);
    }
  }

  lemma RotateKey(w: Wheel, w': Wheel, k: Key)
    requires Valid(w) && w' == Rotate(w) && Indexed(w') && k in Keys(w)
    ensures Keys(w') == Keys(w) && Table(w')[k] == Table(w)[k]
  {
    OwnerOfKey(w, k);
    RotatedLast(w.buckets, Owner(w, k).value);
  }

  lemma RotateTable(w: Wheel)
    requires Valid(w)
    ensures Releasing(Rotate(w), w.buckets[0])
    ensures Table(Rotate(w)) == Table(w)
  {
    RotateReferenced(w);
    forall k | k in Keys(w) ensures Table(Rotate(w))[k] == Table(w)[k] {
      RotateKey(w, Rotate(w), k);
    }
  }

  lemma RotatedFires(r: Wheel, tmp: seq<EntryId>, w': Wheel, size: nat, before: seq<Firing>, t: map<Key, Timer>, tick: nat)
    returns (fired: seq<Firing>)
    requires Releasing(r, tmp) && w' == ReleaseAll(r, tmp)
    requires |r.buckets| == size && r.fired == before && Table(r) == t && r.tick == tick
    ensures Valid(w') && w'.tick == tick && |w'.buckets| == size && Fires(before, t, tick, fired, w'.fired, Table(w'))
  {
    fired := ReleaseAllFires(r, tmp, w');
  }

  /**
   onTimer on the table: exactly the keys whose deadline is the new tick fire, once each and
   with their own callback, and leave the table; every other key stays as it is.
   */
  lemma OnTimerRefines(w: Wheel, w': Wheel) returns (fired: seq<Firing>)
    requires Valid(w) && w' == OnTimer(w)
    ensures Valid(w') && w'.tick == w.tick + 1 && |w'.buckets| == |w.buckets|
    ensures w'.fired == w.fired + fired
    ensures FiresAt(fired, Table(w), w.tick + 1)
    ensures Table(w') == Without(Table(w), w.tick + 1)
  {
    RotateTable(w);
    fired := RotatedFires(Rotate(w), w.buckets[0], w', |w.buckets|, w.fired, Table(w), w.tick + 1);
  }

  lemma TickValid(w: Wheel, w1: Wheel)
    requires Valid(w) && w1 == OnTimer(w)
    ensures Valid(w1) && |w1.buckets| == |w.buckets|
  {
    var _ := OnTimerRefines(w, w1);
  }

  // --- A key over a whole run ------------------------------------------------------------------

  datatype Call = After(ratio: nat, cb: Cb, uuid: int) | AfterAnonymous(ratio: nat, cb: Cb) | Tick

  function Do(w: Wheel, c: Call): Wheel
    requires 0 < |w.buckets| && (!c.Tick? ==> c.ratio < UINT32)
  {
    match c
    case After(ratio, cb, uuid) => RunAfterNamed(w, BucketIndex(ratio, |w.buckets|), cb, uuid)
    case AfterAnonymous(ratio, cb) => RunAfterAnonymous(w, BucketIndex(ratio, |w.buckets|), cb)
    case Tick => OnTimer(w)
  }

  ghost predicate Reaches(w: Wheel, calls: seq<Call>, w': Wheel)
    decreases |calls|
  {
    if calls == [] then w' == w
    else 0 < |w.buckets| && (!calls[0].Tick? ==> calls[0].ratio < UINT32) && Reaches(Do(w, calls[0]), calls[1..], w')
  }

  /** The callbacks that have run for a key, in order. */
  function Runs(fired: seq<Firing>, k: Key): seq<Cb> {
    if fired == [] then []
    else Runs(fired[..|fired| - 1], k) + if fired[|fired| - 1].key == k then [fired[|fired| - 1].cb] else []
  }

  lemma {:induction false} RunsAppend(a: seq<Firing>, b: seq<Firing>, k: Key)
    ensures Runs(a + b, k) == Runs(a, k) + Runs(b, k)
  {
    if b == [] {
      assert a + b == a;
    } else {
      assert (a + b)[..|a + b| - 1] == a + b[..|b| - 1];
      RunsAppend(a, b[..|b| - 1], k);
    }
  }

  lemma {:induction false} RunsNone(fired: seq<Firing>, k: Key)
    requires forall i :: 0 <= i < |fired| ==> fired[i].key != k
    ensures Runs(fired, k) == []
  {
    if fired != [] { RunsNone(fired[..|fired| - 1], k); }
  }

  lemma {:induction false} RunsOnce(fired: seq<Firing>, k: Key, i: nat)
    requires forall i, j :: 0 <= i < j < |fired| ==> fired[i].key != fired[j].key
    requires i < |fired| && fired[i].key == k
    ensures Runs(fired, k) == [fired[i].cb]
  {
    var front := fired[..|fired| - 1];
    if i == |front| {
      RunsNone(front, k);
    } else {
      RunsOnce(front, k, i);
    }
  }

  lemma DueRunsOnce(fired: seq<Firing>, t: map<Key, Timer>, deadline: nat, k: Key)
    requires FiresAt(fired, t, deadline)
    ensures Runs(fired, k) == if k in t && t[k].deadline == deadline then [t[k].cb] else []
  {
    if k in t && t[k].deadline == deadline {
      var i :| 0 <= i < |fired| && fired[i] == Firing(k, t[k].cb);
      RunsOnce(fired, k, i);
    } else {
      RunsNone(fired, k);
    }
  }

  lemma CallKey(w: Wheel, c: Call, k: Key, w': Wheel)
    requires Valid(w) && !c.Tick? && c.ratio < UINT32 && w' == Do(w, c)
    requires (c.After? ==> k != Named(c.uuid)) && (k.Anonymous? ==> k.id < w.next)
    ensures Valid(w') && w.next <= w'.next && w'.tick == w.tick && w'.fired == w.fired
    ensures k in Table(w') <==> k in Table(w)
    ensures k in Table(w') ==> Table(w')[k] == Table(w)[k]
  {
    if c.After? {
      NamedKey(w, BucketIndex(c.ratio, |w.buckets|), c.cb, c.uuid, k, w');
    } else {
      AnonymousKey(w, BucketIndex(c.ratio, |w.buckets|), c.cb, k, w');
    }
  }

  lemma NamedKey(w: Wheel, i: nat, cb: Cb, uuid: int, k: Key, w': Wheel)
    requires Valid(w) && i < |w.buckets| && w' == RunAfterNamed(w, i, cb, uuid)
    requires k != Named(uuid) && (k.Anonymous? ==> k.id < w.next)
    ensures Valid(w') && w.next <= w'.next && w'.tick == w.tick && w'.fired == w.fired
    ensures k in Table(w') <==> k in Table(w)
    ensures k in Table(w') ==> Table(w')[k] == Table(w)[k]
  {
    RunAfterNamedRefines(w, i, cb, uuid);
    LaterOthers(Table(w), Named(uuid), w.tick + i + 1, cb, k);
    NamedShape(w, i, cb, uuid);
  }

  lemma LaterOthers(t: map<Key, Timer>, key: Key, deadline: nat, cb: Cb, k: Key)
    requires k != key
    ensures k in Later(t, key, deadline, cb) <==> k in t
    ensures k in t ==> Later(t, key, deadline, cb)[k] == t[k]
  {
  }

  lemma NamedShape(w: Wheel, i: nat, cb: Cb, uuid: int)
    requires i < |w.buckets|
    ensures var w' := RunAfterNamed(w, i, cb, uuid); w.next <= w'.next && w'.tick == w.tick && w'.fired == w.fired
  {
  }

  lemma AnonymousKey(w: Wheel, i: nat, cb: Cb, k: Key, w': Wheel)
    requires Valid(w) && i < |w.buckets| && w' == RunAfterAnonymous(w, i, cb)
    requires k.Anonymous? ==> k.id < w.next
    ensures Valid(w') && w.next <= w'.next && w'.tick == w.tick && w'.fired == w.fired
    ensures k in Table(w') <==> k in Table(w)
    ensures k in Table(w') ==> Table(w')[k] == Table(w)[k]
  {
    RunAfterAnonymousRefines(w, i, cb);
  }

  lemma TickKey(w: Wheel, k: Key, w': Wheel)
    requires Valid(w) && w' == OnTimer(w)
    ensures Valid(w') && w.next == w'.next && w'.tick == w.tick + 1 && |w'.buckets| == |w.buckets|
    ensures k in Table(w') <==> k in Table(w) && Table(w)[k].deadline != w.tick + 1
    ensures k in Table(w') ==> Table(w')[k] == Table(w)[k]
    ensures Runs(w'.fired, k) == Runs(w.fired, k) + if k in Table(w) && Table(w)[k].deadline == w.tick + 1 then [Table(w)[k].cb] else []
  {
    var fired := OnTimerRefines(w, w');
    DueRunsOnce(fired, Table(w), w.tick + 1, k);
    RunsAppend(w.fired, fired, k);
    TickKeepsNext(w);
  }

  lemma {:induction false} ReleaseKeepsNext(w: Wheel, tmp: seq<EntryId>)
    ensures ReleaseAll(w, tmp).next == w.next
    decreases |tmp|
  {
    if tmp != [] { ReleaseKeepsNext(Release(w, tmp[0], tmp[1..]), tmp[1..]); }
  }

  lemma TickKeepsNext(w: Wheel)
    requires w.buckets != []
    ensures OnTimer(w).next == w.next
  {
    ReleaseKeepsNext(Rotate(w), w.buckets[0]);
  }

  /** No deadline is in the past: tables only hold ticks to come. */
  lemma DeadlinesAhead(w: Wheel, k: Key)
    requires Valid(w) && k in Table(w)
    ensures Table(w)[k].deadline > w.tick
  {
    OwnerOfKey(w, k);
    DeadlineNow(w, k);
  }

  /**
   Over any run that does not call runAfter for it again, an entry's own callback runs exactly
   once, at the tick that is its deadline, whatever else is registered or fires meanwhile.
   */
  lemma {:induction false} FiresOnceAtDeadline(w: Wheel, calls: seq<Call>, w': Wheel, k: Key)
    requires Valid(w) && Reaches(w, calls, w') && k in Table(w)
    requires forall i :: 0 <= i < |calls| && calls[i].After? ==> k != Named(calls[i].uuid)
    ensures Valid(w')
    ensures var d := Table(w)[k].deadline;
            if w'.tick < d
            then k in Table(w') && Table(w')[k] == Table(w)[k] && Runs(w'.fired, k) == Runs(w.fired, k)
            else k !in Table(w') && Runs(w'.fired, k) == Runs(w.fired, k) + [Table(w)[k].cb]
    decreases |calls|
  {
    if calls == [] {
      DeadlinesAhead(w, k);
    } else if calls[0].Tick? && w.tick + 1 == Table(w)[k].deadline {
      KeyFires(w, Do(w, calls[0]), calls[1..], w', k);
    } else {
      KeyWaits(w, calls[0], k, Do(w, calls[0]));
      FiresOnceAtDeadline(Do(w, calls[0]), calls[1..], w', k);
    }
  }

  /** A call that is neither for the key nor its last tick. */
  lemma KeyWaits(w: Wheel, c: Call, k: Key, w1: Wheel)
    requires Valid(w) && k in Table(w) && (!c.Tick? ==> c.ratio < UINT32) && w1 == Do(w, c)
    requires (c.After? ==> k != Named(c.uuid)) && (c.Tick? ==> w.tick + 1 != Table(w)[k].deadline)
    ensures Valid(w1) && k in Table(w1) && Table(w1)[k] == Table(w)[k] && Runs(w1.fired, k) == Runs(w.fired, k)
  {
    OwnerOfKey(w, k);
    if c.Tick? { TickKey(w, k, w1); } else { CallKey(w, c, k, w1); }
  }

  lemma KeyFires(w: Wheel, w1: Wheel, calls: seq<Call>, w': Wheel, k: Key)
    requires Valid(w) && k in Table(w) && w.tick + 1 == Table(w)[k].deadline && w1 == OnTimer(w) && Reaches(w1, calls, w')
    requires forall i :: 0 <= i < |calls| && calls[i].After? ==> k != Named(calls[i].uuid)
    ensures Valid(w') && w'.tick >= w.tick + 1
    ensures k !in Table(w') && Runs(w'.fired, k) == Runs(w.fired, k) + [Table(w)[k].cb]
  {
    OwnerOfKey(w, k);
    TickKey(w, k, w1);
    StaysGone(w1, calls, w', k);
  }

  lemma {:induction false} StaysGone(w: Wheel, calls: seq<Call>, w': Wheel, k: Key)
    requires Valid(w) && Reaches(w, calls, w') && k !in Table(w) && (k.Anonymous? ==> k.id < w.next)
    requires forall i :: 0 <= i < |calls| && calls[i].After? ==> k != Named(calls[i].uuid)
    ensures Valid(w') && k !in Table(w') && Runs(w'.fired, k) == Runs(w.fired, k) && w'.tick >= w.tick
    decreases |calls|
  {
    if calls != [] {
      if calls[0].Tick? { TickKey(w, k, Do(w, calls[0])); } else { CallKey(w, calls[0], k, Do(w, calls[0])); }
      StaysGone(Do(w, calls[0]), calls[1..], w', k);
    }
  }
}
