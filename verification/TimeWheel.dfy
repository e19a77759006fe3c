/**
 TimeWheel as an object, each method proved to do what module WheelModel says.  Shared pointers
 are entry identities, and the heap they point into is a map: an entry is removed from it, and
 its callback runs, when its last reference is dropped.
 */
module TimeWheels {
  import opened WheelModel

  class TimeWheel {
    /** `interval_`, in some unit of time; delays are given in the same unit. */
    const interval: nat
    /** `event_bucket_queue_`. */
    var eventBucketQueue: seq<seq<EntryId>>
    /** `weak_entry_map_`. */
    var weakEntryMap: map<int, EntryId>
    /** The heap of entries, and the next address it hands out. */
    var entries: map<EntryId, Entry>
    var next: EntryId
    ghost var ticks: nat
    ghost var fired: seq<Firing>

    ghost function View(): Wheel
      reads this
    {
      Wheel(eventBucketQueue, weakEntryMap, entries, next, ticks, fired)
    }

    constructor (interval: nat, size: nat)
      requires 0 < interval && 0 < size
      ensures this.interval == interval && |eventBucketQueue| == size
      ensures WheelModel.Valid(View()) && Table(View()) == map[] && ticks == 0 && fired == []
    {
      this.interval := interval;
      eventBucketQueue := seq(size, _ => []);
      weakEntryMap, entries, next := map[], map[], 0;
      ticks, fired := 0, [];
      new;
      forall e ensures !InBuckets(eventBucketQueue, e) { LastFacts(eventBucketQueue, e); }
    }

    method RunAfterNamed(delay: nat, cb: Cb, uuid: int)
      requires WheelModel.Valid(View()) && 0 < interval && delay / interval < UINT32
      modifies this
      ensures View() == WheelModel.RunAfterNamed(old(View()), BucketIndex(delay / interval, |old(eventBucketQueue)|), cb, uuid)
      ensures WheelModel.Valid(View())
    {
      var i := BucketIndex(delay / interval, |eventBucketQueue|);
      NamedValid(View(), i, cb, uuid);
      var entry: EntryId;
      if uuid in weakEntryMap {
        entry := weakEntryMap[uuid];
      } else {
        entry := MakeShared(Entry(Named(uuid), cb));
        weakEntryMap := weakEntryMap[uuid := entry];
      }
      eventBucketQueue := eventBucketQueue[i := eventBucketQueue[i] + [entry]];
    }

    method RunAfterAnonymous(delay: nat, cb: Cb)
      requires WheelModel.Valid(View()) && 0 < interval && delay / interval < UINT32
      modifies this
      ensures View() == WheelModel.RunAfterAnonymous(old(View()), BucketIndex(delay / interval, |old(eventBucketQueue)|), cb)
      ensures WheelModel.Valid(View())
    {
      var i := BucketIndex(delay / interval, |eventBucketQueue|);
      RunAfterAnonymousRefines(View(), i, cb);
      var entry := MakeShared(Entry(Anonymous(next), cb));
      eventBucketQueue := eventBucketQueue[i := eventBucketQueue[i] + [entry]];
    }

    method MakeShared(x: Entry) returns (entry: EntryId)
      modifies this`entries, this`next
      ensures entry == old(next) && next == entry + 1 && entries == old(entries)[entry := x]
    {
      entry := next;
      entries := entries[entry := x];
      next := next + 1;
    }

    /** Dropping one reference; the last one runs the destructor. */
    method Release(e: EntryId, rest: seq<EntryId>)
      modifies this
      ensures View() == WheelModel.Release(old(View()), e, rest)
    {
      if e in entries && e !in rest && !InBuckets(eventBucketQueue, e) {
        var x := entries[e];
        entries := entries - {e};
        fired := fired + [Firing(x.key, x.cb)];
        if x.key.Named? && x.key.uuid in weakEntryMap && weakEntryMap[x.key.uuid] !in entries {
          weakEntryMap := weakEntryMap - {x.key.uuid};
        }
      }
    }

    method OnTimer()
      requires WheelModel.Valid(View())
      modifies this
      ensures View() == WheelModel.OnTimer(old(View())) && WheelModel.Valid(View())
    {
      TickValid(View(), WheelModel.OnTimer(View()));
      var tmp := eventBucketQueue[0];
      eventBucketQueue := eventBucketQueue[1..] + [[]];
      ticks := ticks + 1;
      Destroy(tmp);
    }

    /** The end of a bucket: its references are dropped in order. */
    method Destroy(tmp: seq<EntryId>)
      modifies this
      ensures View() == ReleaseAll(old(View()), tmp)
    {
      for i := 0 to |tmp|
        invariant ReleaseAll(View(), tmp[i..]) == ReleaseAll(old(View()), tmp)
      {
        assert tmp[i..][1..] == tmp[i + 1..];
        Release(tmp[i], tmp[i + 1..]);
      }
    }
  }
}
