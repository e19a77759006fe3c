/**
 What becomes of a read request, and of the interest bits and the descriptor: when a callback
 is called, with which bytes of the file, and how often over a run.
 */
module EofRequests {
  import opened Common
  import opened FdModel
  import opened EofProtocol

  // --- One step ------------------------------------------------------------------------------------

  /** The bytes of the file beyond those delivered that the reader has when the step answers. */
  function Ahead<Id>(w: World<Id>, step: Step<Id>): int
    requires Enabled(w, step) && (step.Read? || step.PollIn?)
  {
    var l := w.rlog[step.id];
    l.offset - |l.delivered|
    + if step.PollIn? && |w.sys.ops[step.id].input.buf| < HIGH_WATER then step.n else 0
  }

  /**
   A callback is called by a request exactly if the end was seen, or bytes are buffered and it asks
   for some; and by the handler exactly if a request waits, the buffer is below the mark, and bytes
   were read or no writer is left.
   */
  lemma AnsweredIff<Id(!new)>(w: World<Id>, step: Step<Id>)
    requires Enabled(w, step) && (step.Read? || step.PollIn?)
    ensures var o := w.sys.ops[step.id];
            Output(w, step).Deliver? <==>
              if step.Read? then o.input.eof || (o.input.buf != [] && step.length > 0)
              else o.input.pending.Some? && |o.input.buf| < HIGH_WATER && (step.n > 0 || o.path !in w.sys.writers)
  {
    if step.PollIn? {
      var f := Bytes(File(w, w.sys.ops[step.id].path));
      assert |Chunk(f, w.rlog[step.id].offset, step.n)| == step.n;
    }
  }

  /** The next bytes of the file after those delivered: as many as asked for, or all `ahead` of them. */
  predicate NextOf(f: seq<byte>, delivered: seq<byte>, ahead: int, length: nat, content: seq<byte>) {
    var n := if length < ahead then length else ahead;
    0 <= n && |delivered| + n <= |f| && content == f[|delivered|..|delivered| + n]
  }

  lemma NextBytes(delivered: seq<byte>, buf: seq<byte>, f: seq<byte>, end: nat, length: nat)
    requires end <= |f| && delivered + buf == f[..end]
    ensures NextOf(f, delivered, end - |delivered|, length, Upto(buf, length))
  {
    assert f[|delivered|..end] == f[..end][|delivered|..] == buf;
  }

  lemma ReadAnswer(i: Inbound, length: nat)
    requires ReadFdIn(i, length).1.Deliver?
    ensures ReadFdIn(i, length).1.content == Upto(i.buf, length)
  {
  }

  lemma PollAnswer(i: Inbound, chunk: seq<byte>, waiting: bool)
    requires HandleReadIn(i, chunk, waiting).1.Deliver?
    ensures i.pending.Some? && |i.buf| < HIGH_WATER
    ensures HandleReadIn(i, chunk, waiting).1.content == Upto(i.buf + chunk, i.pending.value)
  {
    assert chunk == [] ==> i.buf + chunk == i.buf;
  }

  lemma ReadNext(i: Inbound, l: ReadLog, f: seq<byte>, length: nat)
    requires l.offset <= |f| && l.delivered + i.buf == f[..l.offset] && ReadFdIn(i, length).1.Deliver?
    ensures NextOf(f, l.delivered, l.offset - |l.delivered|, length, ReadFdIn(i, length).1.content)
  {
    ReadAnswer(i, length);
    NextBytes(l.delivered, i.buf, f, l.offset, length);
  }

  lemma PollNext(i: Inbound, l: ReadLog, f: seq<byte>, n: nat, waiting: bool)
    requires l.offset <= |f| && l.delivered + i.buf == f[..l.offset] && LegalRead(l.offset, |f|, n)
    requires HandleReadIn(i, Chunk(f, l.offset, n), waiting).1.Deliver?
    ensures i.pending.Some? && |i.buf| < HIGH_WATER
    ensures NextOf(f, l.delivered, l.offset + n - |l.delivered|, i.pending.value, HandleReadIn(i, Chunk(f, l.offset, n), waiting).1.content)
  {
    var chunk := Chunk(f, l.offset, n);
    PollAnswer(i, chunk, waiting);
    assert chunk == f[l.offset..l.offset + n];
    BytesBuffered(l.delivered, i.buf, f, l.offset, n);
    NextBytes(l.delivered, i.buf + chunk, f, l.offset + n, i.pending.value);
  }

  lemma AnswerNext<Id(!new)>(w: World<Id>, step: Step<Id>)
    requires Inv(w) && Enabled(w, step) && (step.Read? || step.PollIn?) && Output(w, step).Deliver?
    ensures NextOf(Bytes(File(w, w.sys.ops[step.id].path)), w.rlog[step.id].delivered, Ahead(w, step), Request(w, step),
                   Output(w, step).content)
  {
    InvAt(w, step.id);
    var o, l, f := w.sys.ops[step.id], w.rlog[step.id], Bytes(File(w, w.sys.ops[step.id].path));
    if step.Read? {
      ReadNext(o.input, l, f, step.length);
    } else {
      PollNext(o.input, l, f, step.n, o.path in w.sys.writers);
    }
  }

  /** In every run a callback receives the next bytes of the file after those delivered: as many as asked for, or all there are. */
  lemma AnswerIs<Id(!new)>(w0: World<Id>, steps: seq<Step<Id>>, w: World<Id>, step: Step<Id>)
    requires Init(w0) && Reaches(w0, steps, w) && Enabled(w, step) && (step.Read? || step.PollIn?)
    requires Output(w, step).Deliver?
    ensures NextOf(Bytes(File(w, w.sys.ops[step.id].path)), w.rlog[step.id].delivered, Ahead(w, step), Request(w, step),
                   Output(w, step).content)
    ensures step.id in Apply(w, step).rlog
    ensures Apply(w, step).rlog[step.id].delivered == w.rlog[step.id].delivered + Output(w, step).content
  {
    ReachableInv(w0, steps, w);
    AnswerNext(w, step);
  }

  /**
   The interest bit after a call or handler: reading goes off at the end of what is there or at
   the mark, writing when the buffer is empty.
   */
  lemma InterestIff<Id(!new)>(w: World<Id>, step: Step<Id>, w': World<Id>)
    requires Inv(w) && Enabled(w, step) && w' == Apply(w, step)
    ensures step.PollIn? ==>
              var i := w.sys.ops[step.id].input;
              step.id in w'.sys.ops &&
              (w'.sys.ops[step.id].input.on <==> |i.buf| >= HIGH_WATER || (step.n > 0 && |i.buf| + step.n < HIGH_WATER))
    ensures step.Read? ==>
              step.id in w'.sys.ops &&
              (w'.sys.ops[step.id].input.on <==> w.sys.ops[step.id].input.on || |w'.sys.ops[step.id].input.buf| >= HIGH_WATER)
    ensures step.PollOut? ==>
              step.id in w'.sys.ops && (w'.sys.ops[step.id].output.on <==> step.n < |w.sys.ops[step.id].output.buf|)
  {
    match step
    case PollIn(id, n) => PollInEffect(w, id, n, w');
    case PollOut(id, n) => WriterInterest(w, id, n, w');
    case _ =>
  }

  lemma WriterInterest<Id(!new)>(w: World<Id>, id: Id, n: nat, w': World<Id>)
    requires Inv(w) && Enabled(w, PollOut(id, n)) && w' == Apply(w, PollOut(id, n))
    ensures id in w'.sys.ops && (w'.sys.ops[id].output.on <==> n < |w.sys.ops[id].output.buf|)
  {
    ClearShape(Flushed(w, id, n).sys, id);
  }

  /** closeFd closes a reader, and a writer with nothing left to write, at once; any other writer is closed later. */
  lemma ClosedIff<Id(!new)>(w: World<Id>, id: Id, w': World<Id>)
    requires Enabled(w, Close(id)) && w' == Apply(w, Close(id))
    ensures id in w'.sys.ops
    ensures var o := w.sys.ops[id];
            && (w'.sys.ops[id].closed <==> o.closed || o.mode.ReadMode? || o.output.buf == [])
            && (!w'.sys.ops[id].closed ==> w'.sys.ops[id].output == o.output.(end := true))
  {
    ClearShape(w.sys, id);
  }

  // --- Over a run ------------------------------------------------------------------------------------

  predicate Waits<Id(==)>(w: World<Id>, id: Id) {
    id in w.sys.ops && w.sys.ops[id].input.pending.Some?
  }

  /** A request that finds another waiting, and nothing to answer it with, takes its place. */
  predicate Replaces<Id(==)>(w: World<Id>, step: Step<Id>, id: Id) {
    step.Read? && step.id == id && Waits(w, id)
    && !w.sys.ops[id].input.eof && (w.sys.ops[id].input.buf == [] || step.length == 0)
  }

  function Asked<Id(==)>(steps: seq<Step<Id>>, id: Id): nat {
    if steps == [] then 0 else (if steps[0].Read? && steps[0].id == id then 1 else 0) + Asked(steps[1..], id)
  }

  ghost function Answered<Id(!new)>(w: World<Id>, steps: seq<Step<Id>>, id: Id): nat
    decreases |steps|
  {
    if steps == [] || !Enabled(w, steps[0]) then 0
    else (if steps[0].id == id && Output(w, steps[0]).Deliver? then 1 else 0) + Answered(Apply(w, steps[0]), steps[1..], id)
  }

  ghost function Replaced<Id(!new)>(w: World<Id>, steps: seq<Step<Id>>, id: Id): nat
    decreases |steps|
  {
    if steps == [] || !Enabled(w, steps[0]) then 0
    else (if Replaces(w, steps[0], id) then 1 else 0) + Replaced(Apply(w, steps[0]), steps[1..], id)
  }

  function One(b: bool): nat {
    if b then 1 else 0
  }

  lemma OthersWait<Id(!new)>(w: World<Id>, step: Step<Id>, id: Id, w': World<Id>)
    requires Enabled(w, step) && w' == Apply(w, step) && (step.id != id || !(step.Read? || step.PollIn?))
    ensures Waits(w', id) == Waits(w, id)
  {
    if id in w.sys.ops {
      match step
      case PollOut(x, n) => PollOutKeepsReader(w, x, n, id, w');
      case Close(x) => CloseKeepsReader(w, x, id, w');
      case _ =>
    } else if step.PollOut? || step.Close? {
      NoNewcomer(w, step, id, w');
    }
  }

  lemma RequestStep<Id(!new)>(w: World<Id>, step: Step<Id>, id: Id, w': World<Id>)
    requires Enabled(w, step) && w' == Apply(w, step)
    ensures One(step.Read? && step.id == id) + One(Waits(w, id))
            == One(step.id == id && Output(w, step).Deliver?) + One(Replaces(w, step, id)) + One(Waits(w', id))
  {
    if step.id != id || !(step.Read? || step.PollIn?) {
      OthersWait(w, step, id, w');
    } else if step.PollIn? {
      PollInEffect(w, id, step.n, w');
    }
  }

  /**
   Over every run each request is answered by one callback, or waits, or was replaced by a later
   one while it waited.
   */
  lemma {:induction false} RequestsAnswered<Id(!new)>(w: World<Id>, steps: seq<Step<Id>>, w': World<Id>, id: Id)
    requires Reaches(w, steps, w')
    ensures Asked(steps, id) + One(Waits(w, id)) == Answered(w, steps, id) + Replaced(w, steps, id) + One(Waits(w', id))
    decreases |steps|
  {
    if steps != [] {
      RequestStep(w, steps[0], id, Apply(w, steps[0]));
      RequestsAnswered(Apply(w, steps[0]), steps[1..], w', id);
    }
  }

  /** The reader is asked only while no request of its waits. */
  ghost predicate OneAtATime<Id(!new)>(w: World<Id>, steps: seq<Step<Id>>, id: Id)
    decreases |steps|
  {
    steps == [] || (Enabled(w, steps[0]) && (steps[0].Read? && steps[0].id == id ==> !Waits(w, id))
                    && OneAtATime(Apply(w, steps[0]), steps[1..], id))
  }

  lemma {:induction false} NoneReplaced<Id(!new)>(w: World<Id>, steps: seq<Step<Id>>, id: Id)
    requires OneAtATime(w, steps, id)
    ensures Replaced(w, steps, id) == 0
    decreases |steps|
  {
    if steps != [] { NoneReplaced(Apply(w, steps[0]), steps[1..], id); }
  }

  /** With one request outstanding at a time, in every run there are as many callbacks as requests, but for the one that waits. */
  lemma CallbacksMatchRequests<Id(!new)>(w0: World<Id>, steps: seq<Step<Id>>, w: World<Id>, id: Id)
    requires Init(w0) && Reaches(w0, steps, w) && OneAtATime(w0, steps, id)
    ensures Asked(steps, id) == Answered(w0, steps, id) + One(Waits(w, id))
  {
    RequestsAnswered(w0, steps, w, id);
    NoneReplaced(w0, steps, id);
  }
}
