/**
 TrantorTimer as an object, each method proved to do what module TimerModel says.  The clock
 is a parameter wherever the code reads it, and what a callback does to the timer is a list of
 registrations.
 */
module TrantorTimers {
  import opened Common
  import opened TimerModel

  class TrantorTimer {
    var timeCbMap: seq<Entry>
    var nextTriggerTime: int
    /** The last timerfd_settime. */
    var timerfd: Option<Setting>
    ghost var fired: seq<Firing>
    ghost var registered: seq<Entry>

    ghost function View(): Timers
      reads this
    {
      Timers(timeCbMap, nextTriggerTime, timerfd, fired, registered)
    }

    constructor ()
      ensures View() == Empty && Valid(View()) && Armed(View())
    {
      timeCbMap, nextTriggerTime, timerfd := [], 0, None;
      fired, registered := [], [];
    }

    method GetIntervalFromNow(time: int, now: int) returns (microSeconds: nat)
      ensures microSeconds == IntervalFromNow(time, now)
      ensures microSeconds >= 100 && microSeconds >= time - now && (microSeconds > 100 ==> microSeconds == time - now)
    {
      var us := time - now;
      microSeconds := if us < 100 then 100 else us;
    }

    method RegisterTimer(time: int, now: int)
      modifies this`timerfd, this`nextTriggerTime
      ensures View() == TimerModel.RegisterTimer(old(View()), time, now)
      ensures timerfd.Some? && ArmedFor(timerfd.value, time)
    {
      var microSeconds := GetIntervalFromNow(time, now);
      var sec := microSeconds / 1000000;
      var nsec := (microSeconds - sec * 1000000) * 1000;
      timerfd := Some(Setting(sec, nsec, now));
      nextTriggerTime := time;
    }

    /** multimap::insert. */
    method InsertCb(e: Entry)
      modifies this`timeCbMap
      ensures timeCbMap == Insert(old(timeCbMap), e)
    {
      timeCbMap := Insert(timeCbMap, e);
    }

    method RegisterTimerCbInLoop(r: Registration)
      modifies this
      ensures View() == Register(old(View()), r)
    {
      InsertCb(Entry(r.time, r.cb));
      registered := registered + [Entry(r.time, r.cb)];
      if r.time < nextTriggerTime || nextTriggerTime == 0 {
        RegisterTimer(r.time, r.now);
      }
    }

    /** multimap::lower_bound. */
    method LowerBound(now: int) returns (n: nat)
      ensures n == Due(timeCbMap, now)
    {
      n := 0;
      while n < |timeCbMap| && timeCbMap[n].time < now
        invariant n <= |timeCbMap| && n + Due(timeCbMap[n..], now) == Due(timeCbMap, now)
      {
        assert timeCbMap[n..][1..] == timeCbMap[n + 1..];
        n := n + 1;
      }
    }

    /** One callback: it runs, and registers timers while the batch is still under way. */
    method RunCb(e: Entry, now: int, registrations: seq<Registration>)
      modifies this
      ensures View() == TimerModel.Run(old(View()), e, now, registrations)
    {
      fired := fired + [Firing(e.time, e.cb, now)];
      for j := 0 to |registrations|
        invariant RegisterAll(View(), registrations[j..]) == TimerModel.Run(old(View()), e, now, registrations)
      {
        assert registrations[j..][1..] == registrations[j + 1..];
        RegisterTimerCbInLoop(registrations[j]);
      }
    }

    method RunTimerCb(now: int, script: nat -> seq<Registration>)
      modifies this
      ensures var n := Due(old(timeCbMap), now);
              View() == RunBatch(old(View()).(pending := old(timeCbMap)[n..]), old(timeCbMap)[..n], now, script, 0)
    {
      var end := LowerBound(now);
      var cbToDo := timeCbMap[..end];
      timeCbMap := timeCbMap[end..];
      ghost var s := View();
      for i := 0 to |cbToDo|
        invariant RunBatch(View(), cbToDo, now, script, i) == RunBatch(s, cbToDo, now, script, 0)
      {
        RunCb(cbToDo[i], now, script(i));
      }
    }

    method HandleRead(now: int, script: nat -> seq<Registration>, later: int)
      modifies this
      ensures View() == TimerModel.HandleRead(old(View()), now, script, later)
    {
      RunTimerCb(now, script);
      nextTriggerTime := 0;
      if timeCbMap != [] {
        RegisterTimer(timeCbMap[0].time, later);
      }
    }
  }
}
