/**
 Where runs of the file operators lead: a writer drains once its input stops, a reader reaches
 the end once its writers are gone, unless it is left stuck, and exactly how that happens.
 */
module EofProgress {
  import opened Common
  import opened FdModel
  import opened EofProtocol

  // --- Draining a writer ---------------------------------------------------------------------

  /** The bytes a step takes out of one operator's output buffer. */
  function SentBy<Id(==)>(step: Step<Id>, id: Id): nat {
    if step.PollOut? && step.id == id then step.n else 0
  }

  function Sent<Id(==)>(steps: seq<Step<Id>>, id: Id): nat {
    if steps == [] then 0 else SentBy(steps[0], id) + Sent(steps[1..], id)
  }

  /** How many of the steps write at least a byte of the operator. */
  function Writes<Id(==)>(steps: seq<Step<Id>>, id: Id): nat {
    if steps == [] then 0 else (if SentBy(steps[0], id) > 0 then 1 else 0) + Writes(steps[1..], id)
  }

  lemma {:induction false} WritesSend<Id>(steps: seq<Step<Id>>, id: Id)
    ensures Writes(steps, id) <= Sent(steps, id)
  {
    if steps != [] { WritesSend(steps[1..], id); }
  }

  /** What a step other than writeFd does to a writer's output, when n of its bytes go out. */
  predicate KeepsWriter(o: Op, o': Op, n: nat) {
    && n <= |o.output.buf| && o'.output.buf == o.output.buf[n..]
    && o'.mode == o.mode && (o.closed ==> o'.closed) && (o.output.end ==> o'.output.end)
  }

  /** Its output is left alone. */
  predicate SameWriter(o: Op, o': Op) {
    o'.output == o.output && o'.mode == o.mode && (o.closed ==> o'.closed)
  }

  lemma SameKeeps(o: Op, o1: Op, o': Op, n: nat)
    requires KeepsWriter(o, o1, n) && SameWriter(o1, o')
    ensures KeepsWriter(o, o', n)
  {
  }

  lemma SelfKeeps(o: Op)
    ensures KeepsWriter(o, o, 0)
  {
    assert o.output.buf[0..] == o.output.buf;
  }

  lemma ClearSame<Id>(s: Sys<Id>, x: Id, id: Id)
    requires x in s.ops && id in s.ops
    ensures id in ClearFd(s, x).ops && SameWriter(s.ops[id], ClearFd(s, x).ops[id])
  {
    ClearShape(s, x);
  }

  lemma FlushOwn<Id(!new)>(w: World<Id>, id: Id, n: nat)
    requires Enabled(w, PollOut(id, n))
    ensures id in Flushed(w, id, n).sys.ops && KeepsWriter(w.sys.ops[id], Flushed(w, id, n).sys.ops[id], n)
  {
  }

  lemma FlushSame<Id(!new)>(w: World<Id>, x: Id, n: nat, id: Id)
    requires Enabled(w, PollOut(x, n)) && id in w.sys.ops && x != id
    ensures id in Flushed(w, x, n).sys.ops && SameWriter(w.sys.ops[id], Flushed(w, x, n).sys.ops[id])
  {
  }

  /** PollOut is Flushed, and then perhaps ClearFd. */
  lemma AfterFlush<Id(!new)>(w: World<Id>, x: Id, n: nat, id: Id, w1: World<Id>, w': World<Id>)
    requires Enabled(w, PollOut(x, n)) && w1 == Flushed(w, x, n) && w' == Apply(w, PollOut(x, n)) && id in w1.sys.ops
    ensures id in w'.sys.ops && SameWriter(w1.sys.ops[id], w'.sys.ops[id])
  {
    ClearSame(w1.sys, x, id);
  }

  lemma PollOutKeepsWriter<Id(!new)>(w: World<Id>, x: Id, n: nat, id: Id, w': World<Id>)
    requires Enabled(w, PollOut(x, n)) && w' == Apply(w, PollOut(x, n)) && id in w.sys.ops
    ensures id in w'.sys.ops && KeepsWriter(w.sys.ops[id], w'.sys.ops[id], if x == id then n else 0)
  {
    var w1 := Flushed(w, x, n);
    if x == id {
      FlushOwn(w, id, n);
      AfterFlush(w, x, n, id, w1, w');
      SameKeeps(w.sys.ops[id], w1.sys.ops[id], w'.sys.ops[id], n);
    } else {
      FlushSame(w, x, n, id);
      AfterFlush(w, x, n, id, w1, w');
      SelfKeeps(w.sys.ops[id]);
      SameKeeps(w.sys.ops[id], w.sys.ops[id], w'.sys.ops[id], 0);
    }
  }

  lemma CloseKeepsWriter<Id(!new)>(w: World<Id>, x: Id, id: Id, w': World<Id>)
    requires Enabled(w, Close(x)) && w' == Apply(w, Close(x)) && id in w.sys.ops
    ensures id in w'.sys.ops && KeepsWriter(w.sys.ops[id], w'.sys.ops[id], 0)
    ensures x == id ==> w'.sys.ops[id].closed || w'.sys.ops[id].output.end
  {
    SelfKeeps(w.sys.ops[id]);
    ClearSame(w.sys, x, id);
    ClearShape(w.sys, x);
  }

  lemma OtherSame<Id(!new)>(w: World<Id>, step: Step<Id>, id: Id, w': World<Id>)
    requires Enabled(w, step) && w' == Apply(w, step) && id in w.sys.ops
    requires !step.PollOut? && !step.Close? && !(step.Write? && step.id == id)
    ensures id in w'.sys.ops && SameWriter(w.sys.ops[id], w'.sys.ops[id])
  {
  }

  lemma WriterStep<Id(!new)>(w: World<Id>, step: Step<Id>, id: Id, w': World<Id>)
    requires Enabled(w, step) && w' == Apply(w, step) && id in w.sys.ops && !(step.Write? && step.id == id)
    ensures id in w'.sys.ops && KeepsWriter(w.sys.ops[id], w'.sys.ops[id], SentBy(step, id))
    ensures step == Close(id) ==> w'.sys.ops[id].closed || w'.sys.ops[id].output.end
  {
    match step
    case PollOut(x, n) => PollOutKeepsWriter(w, x, n, id, w');
    case Close(x) => CloseKeepsWriter(w, x, id, w');
    case _ =>
      OtherSame(w, step, id, w');
      SelfKeeps(w.sys.ops[id]);
      SameKeeps(w.sys.ops[id], w.sys.ops[id], w'.sys.ops[id], 0);
  }

  /** Its close is deferred, done, or asked for in the run. */
  predicate CloseAsked<Id(==)>(o: Op, steps: seq<Step<Id>>, id: Id) {
    o.closed || o.output.end || Close(id) in steps
  }

  /**
   Once input to a writer stops, whatever it and all the others do: the buffer shrinks from the
   front by exactly what its polls write, so at most as many of them write something as it has
   bytes; and if its close is asked for before or in the run, it is closed when they are gone.
   */
  lemma {:induction false} DrainEnds<Id(!new)>(w: World<Id>, id: Id, steps: seq<Step<Id>>, w': World<Id>)
    requires Inv(w) && id in w.sys.ops && !w.sys.ops[id].mode.ReadMode? && Reaches(w, steps, w')
    requires forall k :: 0 <= k < |steps| ==> !(steps[k].Write? && steps[k].id == id)
    ensures id in w'.sys.ops && Writes(steps, id) <= Sent(steps, id) <= |w.sys.ops[id].output.buf|
    ensures w'.sys.ops[id].output.buf == w.sys.ops[id].output.buf[Sent(steps, id)..]
    ensures CloseAsked(w.sys.ops[id], steps, id) && w'.sys.ops[id].output.buf == [] ==> w'.sys.ops[id].closed
    decreases |steps|
  {
    WritesSend(steps, id);
    if steps == [] {
      InvAt(w, id);
    } else {
      var w1 := Apply(w, steps[0]);
      InvStep(w, steps[0]);
      WriterStep(w, steps[0], id, w1);
      DrainEnds(w1, id, steps[1..], w');
      Later(w.sys.ops[id], w1.sys.ops[id], steps, id);
    }
  }

  lemma Later<Id>(o: Op, o1: Op, steps: seq<Step<Id>>, id: Id)
    requires steps != [] && KeepsWriter(o, o1, SentBy(steps[0], id)) && (steps[0] == Close(id) ==> o1.closed || o1.output.end)
    requires Sent(steps[1..], id) <= |o1.output.buf|
    ensures CloseAsked(o, steps, id) ==> CloseAsked(o1, steps[1..], id)
    ensures o1.output.buf[Sent(steps[1..], id)..] == o.output.buf[Sent(steps, id)..]
  {
    assert steps == [steps[0]] + steps[1..];
  }

  // --- Where reading stalls ------------------------------------------------------------------

  /** A reader switched off below the high-water mark, not at the end, with nobody left to write. */
  ghost predicate Stuck<Id>(w: World<Id>, id: Id) {
    && Known(w, id) && w.sys.ops[id].path !in w.sys.writers
    && var o := w.sys.ops[id];
       o.mode.ReadMode? && !o.closed && !o.input.on && !o.input.eof && |o.input.buf| < HIGH_WATER
  }

  lemma StuckOutput<Id(!new)>(w: World<Id>, id: Id, x: Id, n: nat, w': World<Id>)
    requires Inv(w) && Stuck(w, id) && Enabled(w, PollOut(x, n)) && w' == Apply(w, PollOut(x, n))
    ensures Stuck(w', id)
  {
    var w1 := Flushed(w, x, n);
    StuckFlushed(w, id, x, n, w1);
    EraseMembers(w1.sys.writers, w1.sys.ops[x].path, x, w.sys.ops[id].path);
    ClearShape(w1.sys, x);
  }

  /** Its path has no open writer, so a writer that flushes has another path. */
  lemma StuckFlushed<Id(!new)>(w: World<Id>, id: Id, x: Id, n: nat, w1: World<Id>)
    requires Inv(w) && Stuck(w, id) && Enabled(w, PollOut(x, n)) && w1 == Flushed(w, x, n)
    ensures Stuck(w1, id) && x != id && x in w1.sys.ops && id !in Members(w1.sys.readers, w1.sys.ops[x].path)
  {
    assert Members(w.sys.writers, w.sys.ops[id].path) == OpenOn(w.sys, w.sys.ops[id].path, false);
    assert x in OpenOn(w.sys, w.sys.ops[x].path, false);
    assert id !in OpenOn(w.sys, w.sys.ops[x].path, true);
    assert w1.sys.ops[id] == w.sys.ops[id] && w1.sys.readers == w.sys.readers;
  }

  lemma StuckClose<Id(!new)>(w: World<Id>, id: Id, x: Id, w': World<Id>)
    requires Inv(w) && Stuck(w, id) && Enabled(w, Close(x)) && w' == Apply(w, Close(x)) && x != id
    ensures Stuck(w', id)
  {
    EraseMembers(w.sys.writers, w.sys.ops[x].path, x, w.sys.ops[id].path);
    assert id !in OpenOn(w.sys, w.sys.ops[x].path, true) || w.sys.ops[x].path == w.sys.ops[id].path;
    ClearShape(w.sys, x);
  }

  /**
   Such a reader never sees the end of its file: only closing it, or a new writer on its path,
   changes its state.
   */
  lemma StuckStep<Id(!new)>(w: World<Id>, id: Id, step: Step<Id>, w': World<Id>)
    requires Inv(w) && Stuck(w, id) && Enabled(w, step) && w' == Apply(w, step)
    requires step != Close(id) && !(step.Open? && step.path == w.sys.ops[id].path && !step.mode.ReadMode?)
    ensures Stuck(w', id)
  {
    match step
    case PollOut(x, n) => StuckOutput(w, id, x, n, w');
    case Close(x) => StuckClose(w, id, x, w');
    case _ =>
  }

  lemma {:induction false} StuckForever<Id(!new)>(w: World<Id>, id: Id, steps: seq<Step<Id>>, w': World<Id>)
    requires Inv(w) && Stuck(w, id) && Reaches(w, steps, w')
    requires forall k :: 0 <= k < |steps| ==>
      steps[k] != Close(id) && !(steps[k].Open? && steps[k].path == w.sys.ops[id].path && !steps[k].mode.ReadMode?)
    ensures Stuck(w', id)
    decreases |steps|
  {
    if steps != [] {
      var w1 := Apply(w, steps[0]);
      InvStep(w, steps[0]);
      StuckStep(w, id, steps[0], w1);
      StuckPath(w, id, steps[0], w1);
      StuckForever(w1, id, steps[1..], w');
    }
  }

  lemma StuckPath<Id(!new)>(w: World<Id>, id: Id, step: Step<Id>, w': World<Id>)
    requires Stuck(w, id) && Enabled(w, step) && w' == Apply(w, step) && Stuck(w', id)
    ensures w'.sys.ops[id].path == w.sys.ops[id].path
  {
    match step
    case PollOut(x, n) => PollOutShape(w, x, n, id, w');
    case Close(x) => CloseShape(w, x, id, w');
    case _ =>
  }

  function OldFile(size: nat): seq<Cell<nat>> {
    seq(size, _ => Cell(None, 0))
  }

  lemma {:induction false} OldFileUnwritten(size: nat, id: nat)
    ensures Written(OldFile(size), id) == []
  {
    if size > 0 {
      assert OldFile(size)[..size - 1] == OldFile(size - 1);
      OldFileUnwritten(size - 1, id);
    }
  }

  function OldWorld(path: string, size: nat): World<nat> {
    World(Sys(map[], map[], map[]), map[path := OldFile(size)], map[], map[])
  }

  lemma OldWorldInit(path: string, size: nat)
    ensures Init(OldWorld(path, size))
  {
    forall id ensures Written(OldFile(size), id) == [] { OldFileUnwritten(size, id); }
  }

  /** Neither closing nor flushing strands a reader: whoever retires the last writer wakes it. */
  lemma OthersStrandNone<Id(!new)>(w: World<Id>, id: Id, step: Step<Id>, w': World<Id>)
    requires Inv(w) && id in w.sys.ops && !Stuck(w, id) && Enabled(w, step) && w' == Apply(w, step)
    requires step.Close? || step.PollOut?
    ensures !Stuck(w', id)
  {
    if step.Close? {
      CloseKeepsReader(w, step.id, id, w');
    } else {
      PollOutKeepsReader(w, step.id, step.n, id, w');
    }
    if Stuck(w', id) {
      WakesStep(w, id, step, w');
      assert false;
    }
  }

  lemma ReadStrands<Id(!new)>(w: World<Id>, id: Id, length: nat, w': World<Id>)
    requires Inv(w) && !Stuck(w, id) && Enabled(w, Read(id, length)) && w' == Apply(w, Read(id, length))
    ensures var o := w.sys.ops[id];
            Stuck(w', id) <==>
              !o.closed && o.path !in w.sys.writers && !o.input.eof && !o.input.on && |o.input.buf| < HIGH_WATER + length
  {
  }

  lemma PollInStrands<Id(!new)>(w: World<Id>, id: Id, n: nat, w': World<Id>)
    requires Inv(w) && !Stuck(w, id) && Enabled(w, PollIn(id, n)) && w' == Apply(w, PollIn(id, n))
    ensures var o := w.sys.ops[id];
            Stuck(w', id) <==>
              && o.path !in w.sys.writers && !o.input.eof && o.input.pending.Some?
              && |o.input.buf| < HIGH_WATER <= |o.input.buf| + n < HIGH_WATER + o.input.pending.value
  {
    PollInEffect(w, id, n, w');
    InvAt(w, id);
  }

  /** Steps about one operator leave the others alone. */
  lemma OwnStrandNone<Id(!new)>(w: World<Id>, id: Id, step: Step<Id>, w': World<Id>)
    requires !Stuck(w, id) && Enabled(w, step) && w' == Apply(w, step)
    requires !step.Close? && !step.PollOut? && !((step.Read? || step.PollIn?) && step.id == id)
    ensures !Stuck(w', id)
  {
  }

  /**
   How a reader gets there, over all steps: exactly by a request that leaves less than the
   high-water mark to a reader already switched off, or by a poll that fills the buffer to the
   mark while a waiting request takes it below again; and only with every writer of its path
   gone and the end not seen.
   */
  lemma StuckStepIff<Id(!new)>(w0: World<Id>, steps: seq<Step<Id>>, w: World<Id>, id: Id, step: Step<Id>)
    requires Init(w0) && Reaches(w0, steps, w) && id in w.sys.ops && !Stuck(w, id) && Enabled(w, step)
    ensures var o := w.sys.ops[id];
            Stuck(Apply(w, step), id) <==>
              && o.mode.ReadMode? && !o.closed && o.path !in w.sys.writers && !o.input.eof
              && match step
                 case Read(x, length) => x == id && !o.input.on && |o.input.buf| < HIGH_WATER + length
                 case PollIn(x, n) => x == id && o.input.pending.Some?
                   && |o.input.buf| < HIGH_WATER <= |o.input.buf| + n < HIGH_WATER + o.input.pending.value
                 case _ => false
  {
    ReachableInv(w0, steps, w);
    if step.Close? || step.PollOut? {
      OthersStrandNone(w, id, step, Apply(w, step));
    } else if step.Read? && step.id == id {
      ReadStrands(w, id, step.length, Apply(w, step));
    } else if step.PollIn? && step.id == id {
      PollInStrands(w, id, step.n, Apply(w, step));
    } else {
      OwnStrandNone(w, id, step, Apply(w, step));
    }
  }

  // --- How a reader gets to the end ------------------------------------------------------------

  /** What a reader has left to do: bytes to read and to deliver, and the end to see. */
  function Work<Id(==)>(w: World<Id>, id: Id): int
    requires Known(w, id)
  {
    var i := w.sys.ops[id].input;
    2 * (|File(w, w.sys.ops[id].path)| - w.rlog[id].offset) + |i.buf| + if i.eof then 0 else 1
  }

  /** A request that can be answered, or a poll with room in the buffer and the end not seen. */
  predicate Works<Id(==)>(w: World<Id>, step: Step<Id>, id: Id)
    requires Known(w, id)
  {
    match step
    case Read(x, length) => x == id && length > 0 && w.sys.ops[id].input.buf != []
    case PollIn(x, _) => x == id && |w.sys.ops[id].input.buf| < HIGH_WATER && !w.sys.ops[id].input.eof
    case _ => false
  }

  predicate OpensWriter<Id>(step: Step<Id>, path: string) {
    step.Open? && step.path == path && !step.mode.ReadMode?
  }

  /** A reader whose path no writer has open. */
  ghost predicate Alone<Id>(w: World<Id>, id: Id) {
    Known(w, id) && w.sys.ops[id].mode.ReadMode? && w.sys.ops[id].path !in w.sys.writers
  }

  lemma ReadWork<Id(!new)>(w: World<Id>, id: Id, length: nat, w': World<Id>)
    requires Inv(w) && Alone(w, id) && Enabled(w, Read(id, length)) && w' == Apply(w, Read(id, length))
    ensures Alone(w', id) && Work(w', id) + (if Works(w, Read(id, length), id) then 1 else 0) <= Work(w, id)
  {
  }

  lemma PollInWork<Id(!new)>(w: World<Id>, id: Id, n: nat, w': World<Id>)
    requires Inv(w) && Alone(w, id) && Enabled(w, PollIn(id, n)) && w' == Apply(w, PollIn(id, n))
    ensures Alone(w', id) && Work(w', id) + (if Works(w, PollIn(id, n), id) then 1 else 0) <= Work(w, id)
  {
    PollInEffect(w, id, n, w');
  }

  lemma PollOutWork<Id(!new)>(w: World<Id>, id: Id, x: Id, n: nat, w': World<Id>)
    requires Inv(w) && Alone(w, id) && Enabled(w, PollOut(x, n)) && w' == Apply(w, PollOut(x, n))
    ensures Alone(w', id) && Work(w', id) == Work(w, id)
  {
    var p, q := w.sys.ops[id].path, w.sys.ops[x].path;
    assert Members(w.sys.writers, p) == OpenOn(w.sys, p, false);
    assert x in OpenOn(w.sys, q, false);
    PollOutKeepsReader(w, x, n, id, w');
    ClearShape(Flushed(w, x, n).sys, x);
    EraseMembers(w.sys.writers, q, x, p);
  }

  lemma CloseWork<Id(!new)>(w: World<Id>, id: Id, x: Id, w': World<Id>)
    requires Inv(w) && Alone(w, id) && Enabled(w, Close(x)) && w' == Apply(w, Close(x))
    ensures Alone(w', id) && Work(w', id) == Work(w, id)
  {
    CloseKeepsReader(w, x, id, w');
    ClearShape(w.sys, x);
    EraseMembers(w.sys.writers, w.sys.ops[x].path, x, w.sys.ops[id].path);
  }

  lemma OtherCallWork<Id(!new)>(w: World<Id>, id: Id, step: Step<Id>, w': World<Id>)
    requires Inv(w) && Alone(w, id) && Enabled(w, step) && w' == Apply(w, step)
    requires (step.Open? && !OpensWriter(step, w.sys.ops[id].path)) || step.Register? || step.Write?
    ensures Alone(w', id) && Work(w', id) == Work(w, id) && w'.sys.ops[id].path == w.sys.ops[id].path
  {
  }

  lemma OtherReaderWork<Id(!new)>(w: World<Id>, id: Id, step: Step<Id>, w': World<Id>)
    requires Inv(w) && Alone(w, id) && Enabled(w, step) && w' == Apply(w, step)
    requires (step.Read? || step.PollIn?) && step.id != id
    ensures Alone(w', id) && Work(w', id) == Work(w, id) && w'.sys.ops[id].path == w.sys.ops[id].path
  {
  }

  lemma WorkStep<Id(!new)>(w: World<Id>, id: Id, step: Step<Id>, w': World<Id>)
    requires Inv(w) && Alone(w, id) && Enabled(w, step) && w' == Apply(w, step)
    requires !OpensWriter(step, w.sys.ops[id].path)
    ensures Alone(w', id) && w'.sys.ops[id].path == w.sys.ops[id].path
    ensures Work(w', id) + (if Works(w, step, id) then 1 else 0) <= Work(w, id)
  {
    match step
    case PollOut(x, n) =>
      PollOutWork(w, id, x, n, w');
      PollOutKeepsReader(w, x, n, id, w');
    case Close(x) =>
      CloseWork(w, id, x, w');
      CloseKeepsReader(w, x, id, w');
    case Read(x, length) => if x == id { ReadWork(w, id, length, w'); } else { OtherReaderWork(w, id, step, w'); }
    case PollIn(x, n) => if x == id { PollInWork(w, id, n, w'); } else { OtherReaderWork(w, id, step, w'); }
    case _ => OtherCallWork(w, id, step, w');
  }

  /** How many steps of a run work for a reader. */
  function Working<Id(==)>(w: World<Id>, steps: seq<Step<Id>>, id: Id): nat
    decreases |steps|
  {
    if steps == [] || !Known(w, id) || !Enabled(w, steps[0]) then 0
    else (if Works(w, steps[0], id) then 1 else 0) + Working(Apply(w, steps[0]), steps[1..], id)
  }

  /**
   Once all writers of its path are gone, and none is opened, a reader's working steps are at
   most as many as it has work, in every run, whatever the other operators do.
   */
  lemma {:induction false} WorkEnds<Id(!new)>(w: World<Id>, steps: seq<Step<Id>>, w': World<Id>, id: Id)
    requires Inv(w) && Alone(w, id) && Reaches(w, steps, w')
    requires forall k :: 0 <= k < |steps| ==> !OpensWriter(steps[k], w.sys.ops[id].path)
    ensures Alone(w', id) && 0 <= Work(w', id) && Work(w', id) + Working(w, steps, id) <= Work(w, id)
    decreases |steps|
  {
    if steps == [] {
      InvAt(w, id);
    } else {
      var w1 := Apply(w, steps[0]);
      InvStep(w, steps[0]);
      WorkStep(w, id, steps[0], w1);
      WorkEnds(w1, steps[1..], w', id);
    }
  }

  /**
   And unless it is stuck there is a working step to take, until it has seen the end and its
   buffer is empty: then its next request is told the end.
   */
  lemma NextWork<Id(!new)>(w: World<Id>, id: Id) returns (step: Step<Id>)
    requires Inv(w) && Alone(w, id) && !w.sys.ops[id].closed && w.sys.ops[id].registered && !Stuck(w, id)
    ensures Enabled(w, step)
    ensures var i := w.sys.ops[id].input;
            if i.eof && i.buf == [] then step == Read(id, 1) && SaysEnd(Output(w, step)) else Works(w, step, id)
  {
    InvAt(w, id);
    var i, left := w.sys.ops[id].input, |File(w, w.sys.ops[id].path)| - w.rlog[id].offset;
    if i.buf != [] || i.eof {
      step := Read(id, 1);
    } else {
      step := PollIn(id, if left < HIGH_WATER then left else HIGH_WATER);
    }
  }

  /** The world with one reader of the old file. */
  function OneReader(path: string, size: nat, registered: bool, i: Inbound, l: ReadLog): World<nat> {
    World(Sys(map[0 := Op(path, ReadMode, i, Outbound([], false, false), registered, false)], map[path := {0}], map[]),
          map[path := OldFile(size)], map[0 := l], map[0 := WriteLog([], [])])
  }

  const NewIn := Inbound([], true, false, false, None)
  const NewLog := ReadLog(0, [], 0)

  lemma OpenReader(path: string, size: nat)
    ensures Enabled(OldWorld(path, size), Open(0, path, ReadMode))
    ensures Apply(OldWorld(path, size), Open(0, path, ReadMode)) == OneReader(path, size, false, NewIn, NewLog)
    ensures Apply(OneReader(path, size, false, NewIn, NewLog), Register(0)) == OneReader(path, size, true, NewIn, NewLog)
  {
    assert {} + {0} == {0};
  }

  lemma PollReader(path: string, size: nat, i: Inbound, l: ReadLog, n: nat, i': Inbound, d: Delivery)
    requires i.on && LegalRead(l.offset, size, n)
    requires (i', d) == HandleReadIn(i, Chunk(Bytes(OldFile(size)), l.offset, n), false)
    ensures var w := OneReader(path, size, true, i, l);
            && Enabled(w, PollIn(0, n)) && Output(w, PollIn(0, n)) == d
            && Apply(w, PollIn(0, n)) == OneReader(path, size, true, i', PollInStep(l, i, i', d, n, size))
  {
  }

  lemma AskReader(path: string, size: nat, i: Inbound, l: ReadLog, length: nat)
    ensures var w, (i', d) := OneReader(path, size, true, i, l), ReadFdIn(i, length);
            Enabled(w, Read(0, length)) && Apply(w, Read(0, length)) == OneReader(path, size, true, i', ReadStep(l, d))
  {
  }

  lemma Unroll(w: World<nat>, s1: Step<nat>, w1: World<nat>, rest: seq<Step<nat>>, w': World<nat>)
    requires Enabled(w, s1) && w1 == Apply(w, s1) && Reaches(w1, rest, w')
    ensures Reaches(w, [s1] + rest, w')
  {
    assert ([s1] + rest)[1..] == rest;
  }

  /** Opened, put into the loop, polled once for the whole file, and asked once for bytes. */
  lemma OneRead(path: string, size: nat, length: nat, i: Inbound, d: Delivery) returns (steps: seq<Step<nat>>)
    requires 0 < size <= HIGH_WATER && (i, d) == HandleReadIn(NewIn, Bytes(OldFile(size)), false)
    ensures var (i', d') := ReadFdIn(i, length);
            Reaches(OldWorld(path, size), steps,
                    OneReader(path, size, true, i', ReadStep(PollInStep(NewLog, NewIn, i, d, size, size), d')))
  {
    var w1, w2 := OneReader(path, size, false, NewIn, NewLog), OneReader(path, size, true, NewIn, NewLog);
    var l := PollInStep(NewLog, NewIn, i, d, size, size);
    var (i', d') := ReadFdIn(i, length);
    var w3, w4 := OneReader(path, size, true, i, l), OneReader(path, size, true, i', ReadStep(l, d'));
    OpenReader(path, size);
    assert Chunk(Bytes(OldFile(size)), 0, size) == Bytes(OldFile(size));
    PollReader(path, size, NewIn, NewLog, size, i, d);
    AskReader(path, size, i, l, length);
    steps := [];
    Unroll(w3, Read(0, length), w4, steps, w4);
    steps := [Read(0, length)] + steps;
    Unroll(w2, PollIn(0, size), w3, steps, w4);
    steps := [PollIn(0, size)] + steps;
    Unroll(w1, Register(0), w2, steps, w4);
    steps := [Register(0)] + steps;
    Unroll(OldWorld(path, size), Open(0, path, ReadMode), w1, steps, w4);
    steps := [Open(0, path, ReadMode)] + steps;
  }

  /**
   And it happens: a file exactly as long as the high-water mark, read into the buffer by one
   poll and then taken by one request, leaves its reader stuck.
   */
  lemma StallWitness(path: string) returns (steps: seq<Step<nat>>, w: World<nat>)
    ensures Init(OldWorld(path, HIGH_WATER)) && Reaches(OldWorld(path, HIGH_WATER), steps, w) && Stuck(w, 0)
  {
    OldWorldInit(path, HIGH_WATER);
    var i := Inbound(Bytes(OldFile(HIGH_WATER)), false, true, false, None);
    assert NewIn.buf + i.buf == i.buf;
    steps := OneRead(path, HIGH_WATER, HIGH_WATER, i, Silent);
    var (i', d) := ReadFdIn(i, HIGH_WATER);
    w := OneReader(path, HIGH_WATER, true, i',
                   ReadStep(PollInStep(NewLog, NewIn, i, Silent, HIGH_WATER, HIGH_WATER), d));
  }

  /** It happens in handleRead too: one request waits, and one poll fills the buffer and answers it. */
  lemma PollStallWitness(path: string) returns (steps: seq<Step<nat>>, w: World<nat>)
    ensures Init(OldWorld(path, HIGH_WATER)) && Reaches(OldWorld(path, HIGH_WATER), steps, w) && Stuck(w, 0)
    ensures steps == [Open(0, path, ReadMode), Register(0), Read(0, 1), PollIn(0, HIGH_WATER)]
  {
    var bytes, asked := Bytes(OldFile(HIGH_WATER)), NewIn.(pending := Some(1));
    var i := Inbound(bytes[1..], false, true, false, None);
    var w1, w2 := OneReader(path, HIGH_WATER, false, NewIn, NewLog), OneReader(path, HIGH_WATER, true, NewIn, NewLog);
    var w3 := OneReader(path, HIGH_WATER, true, asked, NewLog);
    OldWorldInit(path, HIGH_WATER);
    OpenReader(path, HIGH_WATER);
    AskReader(path, HIGH_WATER, NewIn, NewLog, 1);
    assert ReadStep(NewLog, Silent) == NewLog;
    AnsweredPoll(bytes);
    assert Chunk(bytes, 0, HIGH_WATER) == bytes;
    PollReader(path, HIGH_WATER, asked, NewLog, HIGH_WATER, i, Deliver(bytes[..1], false));
    w := OneReader(path, HIGH_WATER, true, i,
                   PollInStep(NewLog, asked, i, Deliver(bytes[..1], false), HIGH_WATER, HIGH_WATER));
    steps := [];
    Unroll(w3, PollIn(0, HIGH_WATER), w, steps, w);
    steps := [PollIn(0, HIGH_WATER)] + steps;
    Unroll(w2, Read(0, 1), w3, steps, w);
    steps := [Read(0, 1)] + steps;
    Unroll(w1, Register(0), w2, steps, w);
    steps := [Register(0)] + steps;
    Unroll(OldWorld(path, HIGH_WATER), Open(0, path, ReadMode), w1, steps, w);
    steps := [Open(0, path, ReadMode)] + steps;
  }

  lemma AnsweredPoll(bytes: seq<byte>)
    requires |bytes| == HIGH_WATER
    ensures HandleReadIn(NewIn.(pending := Some(1)), bytes, false)
            == (Inbound(bytes[1..], false, true, false, None), Deliver(bytes[..1], false))
    ensures ReadFdIn(NewIn, 1) == (NewIn.(pending := Some(1)), Silent)
  {
    assert [] + bytes == bytes;
  }

  /**
   The positive length in EndSound matters: a request of length 0 is told end = true while a
   byte of the file is still in the buffer.
   */
  lemma ZeroRequestWitness(path: string) returns (steps: seq<Step<nat>>, w: World<nat>)
    ensures Init(OldWorld(path, 1)) && Reaches(OldWorld(path, 1), steps, w)
    ensures Enabled(w, PollIn(0, 0)) && Output(w, PollIn(0, 0)) == Deliver([], true)
    ensures Apply(w, PollIn(0, 0)).rlog[0].delivered != Bytes(File(w, path))
  {
    OldWorldInit(path, 1);
    var i := Inbound([0], true, false, false, None);
    assert Bytes(OldFile(1)) == [0];
    assert NewIn.buf + i.buf == i.buf;
    steps := OneRead(path, 1, 0, i, Silent);
    var asked := i.(pending := Some(0));
    var l := ReadStep(PollInStep(NewLog, NewIn, i, Silent, 1, 1), Silent);
    w := OneReader(path, 1, true, asked, l);
    PollReader(path, 1, asked, l, 0, asked.(on := false, eof := true, pending := None), Deliver([], true));
  }
}
