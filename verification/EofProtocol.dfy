/**
 The end-of-file protocol between the writers and readers of a path, over every run of one
 loop: the file layer of module FdModel beside the kernel's files.  Each call and each poll
 handler is one step.  A step carries what the environment chose: the byte counts `read` and
 `write` return.
 */
module EofProtocol {
  import opened Common
  import opened FdModel

  /** A byte of a file, with the operator that wrote it (None: it was there before the run). */
  datatype Cell<Id> = Cell(writer: Option<Id>, b: byte)

  /**
   A reader's history: how far it has read, the bytes its callbacks received, and the length
   of the file when it saw the end.
   */
  datatype ReadLog = ReadLog(offset: nat, delivered: seq<byte>, eofAt: nat)

  /** A writer's history: every byte it accepted, and those accepted after its descriptor was closed. */
  datatype WriteLog = WriteLog(accepted: seq<byte>, late: seq<byte>)

  datatype World<Id> = World(sys: Sys<Id>, files: map<string, seq<Cell<Id>>>,
                             rlog: map<Id, ReadLog>, wlog: map<Id, WriteLog>)

  datatype Step<Id> =
    | Open(id: Id, path: string, mode: Mode)
    | Register(id: Id)
    | Read(id: Id, length: nat)
    | Write(id: Id, data: seq<byte>)
    | Close(id: Id)
    | PollIn(id: Id, n: nat)
    | PollOut(id: Id, n: nat)

  function File<Id>(w: World<Id>, path: string): seq<Cell<Id>> {
    if path in w.files then w.files[path] else []
  }

  function Bytes<Id>(f: seq<Cell<Id>>): (r: seq<byte>)
    ensures |r| == |f|
  {
    seq(|f|, i requires 0 <= i < |f| => f[i].b)
  }

  /** The bytes of a file that one operator wrote, in order. */
  function Written<Id(==)>(f: seq<Cell<Id>>, id: Id): seq<byte> {
    if f == [] then []
    else Written(f[..|f| - 1], id) + (if f[|f| - 1].writer == Some(id) then [f[|f| - 1].b] else [])
  }

  function Cells<Id>(bytes: seq<byte>, id: Id): (r: seq<Cell<Id>>)
    ensures |r| == |bytes|
  {
    seq(|bytes|, i requires 0 <= i < |bytes| => Cell(Some(id), bytes[i]))
  }

  // --- The step relation -------------------------------------------------------------

  predicate Known<Id(==)>(w: World<Id>, id: Id) {
    id in w.sys.ops && id in w.rlog && id in w.wlog
  }

  predicate Polled<Id(==)>(w: World<Id>, id: Id) {
    Known(w, id) && w.sys.ops[id].registered && !w.sys.ops[id].closed
  }

  /** `read` on a regular file returns 0 only at its end. */
  predicate LegalRead(offset: nat, size: nat, n: nat) {
    n <= HIGH_WATER && offset + n <= size && (n == 0 ==> offset >= size)
  }

  /**
   A handler runs only while its interest bit is on: FdPoll::initEvents asks for nothing else,
   and between the poll and the handler only the operator itself could switch the bit off.
   */
  predicate Enabled<Id(==)>(w: World<Id>, step: Step<Id>) {
    match step
    case Open(id, path, mode) =>
      id !in w.sys.ops && mode != WriteMode && (mode.ReadMode? ==> path in w.files)
    case Register(id) => Known(w, id) && !w.sys.ops[id].closed
    case Read(id, _) => Known(w, id) && w.sys.ops[id].mode.ReadMode?
    case Write(id, _) => Known(w, id) && !w.sys.ops[id].mode.ReadMode?
    case Close(id) => Known(w, id)
    case PollIn(id, n) =>
      Polled(w, id) && w.sys.ops[id].mode.ReadMode? && w.sys.ops[id].input.on
      && LegalRead(w.rlog[id].offset, |File(w, w.sys.ops[id].path)|, n)
    case PollOut(id, n) =>
      Polled(w, id) && !w.sys.ops[id].mode.ReadMode? && w.sys.ops[id].output.on
      && n <= |w.sys.ops[id].output.buf|
  }

  function Received(d: Delivery): seq<byte> {
    if d.Deliver? then d.content else []
  }

  function ReadStep(l: ReadLog, d: Delivery): ReadLog {
    l.(delivered := l.delivered + Received(d))
  }

  function WriteStep(l: WriteLog, taken: seq<byte>, closed: bool): WriteLog {
    WriteLog(l.accepted + taken, if closed then l.late + taken else l.late)
  }

  /** The history after handleRead: i before, i' after, of a file of the given size. */
  function PollInStep(l: ReadLog, i: Inbound, i': Inbound, d: Delivery, n: nat, size: nat): ReadLog {
    ReadLog(if |i.buf| < HIGH_WATER then l.offset + n else l.offset,
            l.delivered + Received(d),
            if i'.eof && !i.eof then size else l.eofAt)
  }

  function Chunk(f: seq<byte>, offset: nat, n: nat): seq<byte>
    requires LegalRead(offset, |f|, n)
  {
    if n == 0 then [] else f[offset..offset + n]
  }

  function PollInResult<Id>(w: World<Id>, id: Id, n: nat): (Inbound, Delivery)
    requires Enabled(w, PollIn(id, n))
  {
    var o := w.sys.ops[id];
    HandleReadIn(o.input, Chunk(Bytes(File(w, o.path)), w.rlog[id].offset, n), o.path in w.sys.writers)
  }

  function Apply<Id>(w: World<Id>, step: Step<Id>): World<Id>
    requires Enabled(w, step)
  {
    match step
    case Open(id, path, mode) =>
      World(OpenFd(w.sys, id, path, mode), w.files[path := File(w, path)],
            w.rlog[id := ReadLog(0, [], 0)], w.wlog[id := WriteLog([], [])])
    case Register(id) =>
      w.(sys := Put(w.sys, id, w.sys.ops[id].(registered := true)))
    case Read(id, length) =>
      var (sys, d) := ReadFd(w.sys, id, length);
      w.(sys := sys, rlog := w.rlog[id := ReadStep(w.rlog[id], d)])
    case Write(id, data) =>
      var o := w.sys.ops[id];
      w.(sys := WriteFd(w.sys, id, data),
         wlog := w.wlog[id := WriteStep(w.wlog[id], Accepted(o.output, data), o.closed)])
    case Close(id) =>
      w.(sys := CloseFd(w.sys, id))
    case PollIn(id, n) =>
      var o := w.sys.ops[id];
      var f := Bytes(File(w, o.path));
      var (sys, d) := HandleRead(w.sys, id, Chunk(f, w.rlog[id].offset, n));
      w.(sys := sys,
         rlog := w.rlog[id := PollInStep(w.rlog[id], o.input, sys.ops[id].input, d, n, |f|)])
    case PollOut(id, n) =>
      var o := w.sys.ops[id];
      w.(sys := HandleWrite(w.sys, id, n),
         files := w.files[o.path := File(w, o.path) + Cells(o.output.buf[..n], id)])
  }

  /** What the step hands to a read callback. */
  function Output<Id>(w: World<Id>, step: Step<Id>): Delivery
    requires Enabled(w, step)
  {
    match step
    case Read(id, length) => ReadFdIn(w.sys.ops[id].input, length).1
    case PollIn(id, n) => PollInResult(w, id, n).1
    case _ => Silent
  }

  // --- The invariant -------------------------------------------------------------------

  ghost function OpenOn<Id>(s: Sys<Id>, path: string, reading: bool): set<Id> {
    set id | id in s.ops && !s.ops[id].closed && s.ops[id].mode.ReadMode? == reading && s.ops[id].path == path
  }

  /** The registry holds exactly the open operators of each path; no path has an empty writer set. */
  ghost predicate Registry<Id>(s: Sys<Id>) {
    && (forall p :: p in s.writers ==> s.writers[p] != {})
    && (forall p :: Members(s.writers, p) == OpenOn(s, p, false))
    && (forall p :: Members(s.readers, p) == OpenOn(s, p, true))
  }

  /**
   A writer's buffer holds exactly the accepted bytes that are not in the file yet; while it
   is open those bytes keep the write interest on, and a deferred close has bytes to wait for.
   */
  ghost predicate WriterOk(out: Outbound, closed: bool, l: WriteLog, own: seq<byte>) {
    && l.accepted == own + out.buf
    && (closed ==> out.buf == l.late)
    && (!closed ==> l.late == [] && (out.buf != [] ==> out.on) && (out.end ==> out.buf != []))
  }

  /**
   What a reader's callbacks received, then its buffer, is the part of the file it has read.
   An open reader that is not polled has seen the end of the file, or stopped at the
   high-water mark, or has read everything and some writer is still registered.
   */
  ghost predicate ReaderOk(i: Inbound, closed: bool, l: ReadLog, f: seq<byte>, waiting: bool) {
    && l.offset <= |f|
    && l.delivered + i.buf == f[..l.offset]
    && (i.eof ==> i.pending.None? && l.eofAt <= l.offset)
    && (i.pending.Some? && i.pending.value > 0 ==> i.buf == [])
    && (!closed && !i.on && !i.eof && !i.paused ==> l.offset == |f| && waiting)
  }

  ghost predicate RecordOk<Id>(w: World<Id>, id: Id, o: Op, rl: ReadLog, wl: WriteLog) {
    && o.path in w.files
    && if o.mode.ReadMode? then ReaderOk(o.input, o.closed, rl, Bytes(File(w, o.path)), o.path in w.sys.writers)
       else WriterOk(o.output, o.closed, wl, Written(File(w, o.path), id))
  }

  ghost predicate OpOk<Id>(w: World<Id>, id: Id)
    requires Known(w, id)
  {
    RecordOk(w, id, w.sys.ops[id], w.rlog[id], w.wlog[id])
  }

  /** No file holds bytes of an operator that has not been opened yet. */
  ghost predicate NoGhostWriters<Id(!new)>(w: World<Id>) {
    forall p, id {:trigger Written(w.files[p], id)} :: p in w.files && id !in w.sys.ops ==> Written(w.files[p], id) == []
  }

  ghost predicate Inv<Id(!new)>(w: World<Id>) {
    && w.rlog.Keys == w.wlog.Keys == w.sys.ops.Keys
    && Registry(w.sys)
    && NoGhostWriters(w)
    && forall id {:trigger OpOk(w, id)} :: id in w.sys.ops ==> OpOk(w, id)
  }

  // --- Files ---------------------------------------------------------------------------

  lemma {:induction false} WrittenAppend<Id>(f: seq<Cell<Id>>, g: seq<Cell<Id>>, id: Id)
    ensures Written(f + g, id) == Written(f, id) + Written(g, id)
  {
    if g == [] {
      assert f + g == f;
    } else {
      WrittenAppend(f, g[..|g| - 1], id);
      assert (f + g)[..|f + g| - 1] == f + g[..|g| - 1];
    }
  }

  lemma {:induction false} WrittenCells<Id>(bytes: seq<byte>, id: Id, other: Id)
    ensures Written(Cells(bytes, id), other) == if other == id then bytes else []
  {
    if bytes != [] {
      var front := bytes[..|bytes| - 1];
      assert Cells(bytes, id)[..|bytes| - 1] == Cells(front, id);
      WrittenCells(front, id, other);
    }
  }

  /** Appending under one identity extends that operator's bytes and no other's. */
  lemma WrittenExtends<Id>(f: seq<Cell<Id>>, bytes: seq<byte>, id: Id, other: Id)
    ensures Written(f + Cells(bytes, id), other) == Written(f, other) + if other == id then bytes else []
  {
    WrittenAppend(f, Cells(bytes, id), other);
    WrittenCells(bytes, id, other);
  }

  /** Moving the front of the buffer to the delivered bytes leaves their concatenation alone. */
  lemma MoveFront(delivered: seq<byte>, buf: seq<byte>, n: nat)
    requires n <= |buf|
    ensures (delivered + buf[..n]) + buf[n..] == delivered + buf
    ensures buf[0..] == buf
  {
    Regroup(delivered, buf[..n], buf[n..]);
    assert buf[..n] + buf[n..] == buf;
  }

  // --- Preservation: one operator --------------------------------------------------------

  lemma ReadFdOk(i: Inbound, closed: bool, l: ReadLog, f: seq<byte>, waiting: bool, length: nat)
    requires ReaderOk(i, closed, l, f, waiting)
    ensures var (i', d) := ReadFdIn(i, length);
            ReaderOk(i', closed, ReadStep(l, d), f, waiting)
  {
    MoveFront(l.delivered, i.buf, |Upto(i.buf, length)|);
    Regroup(l.delivered, [], []);
  }

  lemma WriteFdOk(out: Outbound, closed: bool, l: WriteLog, own: seq<byte>, data: seq<byte>)
    requires WriterOk(out, closed, l, own)
    ensures WriterOk(WriteFdOut(out, data), closed, WriteStep(l, Accepted(out, data), closed), own)
  {
    Regroup(own, out.buf, Accepted(out, data));
  }

  /** The end of handleRead; i may still hold a request although its buffer is not empty. */
  lemma FireReadOk(i: Inbound, closed: bool, l: ReadLog, f: seq<byte>, waiting: bool)
    requires l.offset <= |f| && l.delivered + i.buf == f[..l.offset]
    requires i.eof ==> l.eofAt <= l.offset
    requires !closed && !i.on && !i.eof && !i.paused ==> l.offset == |f| && waiting
    ensures var (i', d) := FireRead(i);
            ReaderOk(i', closed, ReadStep(l, d), f, waiting)
  {
    match i.pending
    case None =>
      Regroup(l.delivered, [], []);
    case Some(length) =>
      MoveFront(l.delivered, i.buf, |Upto(i.buf, length)|);
  }

  lemma PollInOk(i: Inbound, closed: bool, l: ReadLog, f: seq<byte>, waiting: bool, n: nat)
    requires ReaderOk(i, closed, l, f, waiting) && LegalRead(l.offset, |f|, n)
    ensures var (i', d) := HandleReadIn(i, Chunk(f, l.offset, n), waiting);
            ReaderOk(i', closed, PollInStep(l, i, i', d, n, |f|), f, waiting)
  {
    if |i.buf| >= HIGH_WATER || (n == 0 && waiting) {
      Regroup(l.delivered, [], []);
    } else if n == 0 {
      EndInOk(i, closed, l, f, waiting);
    } else {
      BytesBuffered(l.delivered, i.buf, f, l.offset, n);
      BytesInOk(i, closed, l, f, waiting, f[l.offset..l.offset + n]);
    }
  }

  /** handleRead at the end of the file, with no writer left. */
  lemma EndInOk(i: Inbound, closed: bool, l: ReadLog, f: seq<byte>, waiting: bool)
    requires ReaderOk(i, closed, l, f, waiting) && |i.buf| < HIGH_WATER && l.offset == |f| && !waiting
    ensures var (i', d) := HandleReadIn(i, [], waiting);
            ReaderOk(i', closed, PollInStep(l, i, i', d, 0, |f|), f, waiting)
  {
    var i1 := i.(on := false, paused := false, eof := true);
    var l1 := l.(eofAt := if i.eof then l.eofAt else |f|);
    FireReadOk(i1, closed, l1, f, waiting);
    var (i', d) := FireRead(i1);
    assert PollInStep(l, i, i', d, 0, |f|) == ReadStep(l1, d);
  }

  /** handleRead with the next n bytes read. */
  lemma BytesInOk(i: Inbound, closed: bool, l: ReadLog, f: seq<byte>, waiting: bool, chunk: seq<byte>)
    requires ReaderOk(i, closed, l, f, waiting) && chunk != [] && |i.buf| < HIGH_WATER
    requires l.offset + |chunk| <= |f| && l.delivered + (i.buf + chunk) == f[..l.offset + |chunk|]
    ensures var (i', d) := HandleReadIn(i, chunk, waiting);
            ReaderOk(i', closed, PollInStep(l, i, i', d, |chunk|, |f|), f, waiting)
  {
    var i2 := Filled(i, chunk);
    var l2 := l.(offset := l.offset + |chunk|);
    FireReadOk(i2, closed, l2, f, waiting);
    var (i', d) := FireRead(i2);
    assert PollInStep(l, i, i', d, |chunk|, |f|) == ReadStep(l2, d);
  }

  lemma BytesBuffered(delivered: seq<byte>, buf: seq<byte>, f: seq<byte>, offset: nat, n: nat)
    requires offset + n <= |f| && delivered + buf == f[..offset]
    ensures delivered + (buf + f[offset..offset + n]) == f[..offset + n]
  {
    Regroup(delivered, buf, f[offset..offset + n]);
  }

  // --- Preservation: the world ------------------------------------------------------------

  lemma RegistryPut<Id>(s: Sys<Id>, id: Id, o: Op)
    requires Registry(s) && id in s.ops
    requires o.path == s.ops[id].path && o.mode == s.ops[id].mode && o.closed == s.ops[id].closed
    ensures Registry(Put(s, id, o))
  {
    var s' := Put(s, id, o);
    assert forall p, r :: OpenOn(s', p, r) == OpenOn(s, p, r);
  }

  /**
   An operator the step is not about stays correct: at most its read interest is switched on,
   which must happen when its file grew or its path lost its writers.
   */
  lemma Bystander<Id(!new)>(w: World<Id>, w': World<Id>, id: Id)
    requires Known(w, id) && OpOk(w, id) && Known(w', id)
    requires w'.rlog[id] == w.rlog[id] && w'.wlog[id] == w.wlog[id]
    requires w'.sys.ops[id] == w.sys.ops[id] || w'.sys.ops[id] == EnableReading(w.sys.ops[id])
    requires w.sys.ops[id].path in w'.files
    requires var p := w.sys.ops[id].path;
             && File(w, p) <= File(w', p) && Written(File(w', p), id) == Written(File(w, p), id)
             && (w.sys.ops[id].mode.ReadMode? && !w.sys.ops[id].closed && !w'.sys.ops[id].input.on ==>
                  File(w', p) == File(w, p) && (p in w.sys.writers ==> p in w'.sys.writers))
    ensures OpOk(w', id)
  {
    var f, f' := File(w, w.sys.ops[id].path), File(w', w.sys.ops[id].path);
    if w.sys.ops[id].mode.ReadMode? {
      assert Bytes(f')[..w.rlog[id].offset] == Bytes(f)[..w.rlog[id].offset];
    }
  }

  /** Replacing one record; its path, mode and descriptor are unchanged. */
  lemma InvPut<Id(!new)>(w: World<Id>, id: Id, o: Op, rl: ReadLog, wl: WriteLog)
    requires Inv(w) && id in w.sys.ops
    requires o.path == w.sys.ops[id].path && o.mode == w.sys.ops[id].mode && o.closed == w.sys.ops[id].closed
    requires RecordOk(w, id, o, rl, wl)
    ensures Inv(World(Put(w.sys, id, o), w.files, w.rlog[id := rl], w.wlog[id := wl]))
  {
    var w' := World(Put(w.sys, id, o), w.files, w.rlog[id := rl], w.wlog[id := wl]);
    RegistryPut(w.sys, id, o);
    forall other | other in w'.sys.ops && other != id ensures OpOk(w', other) {
      assert OpOk(w, other);
      Bystander(w, w', other);
    }
  }

  lemma InvRegister<Id(!new)>(w: World<Id>, id: Id)
    requires Inv(w) && Enabled(w, Register(id))
    ensures Inv(Apply(w, Register(id)))
  {
    assert OpOk(w, id);
    InvPut(w, id, w.sys.ops[id].(registered := true), w.rlog[id], w.wlog[id]);
    assert w.rlog[id := w.rlog[id]] == w.rlog && w.wlog[id := w.wlog[id]] == w.wlog;
  }

  lemma InvRead<Id(!new)>(w: World<Id>, id: Id, length: nat)
    requires Inv(w) && Enabled(w, Read(id, length))
    ensures Inv(Apply(w, Read(id, length)))
  {
    var o := w.sys.ops[id];
    assert OpOk(w, id);
    ReadFdOk(o.input, o.closed, w.rlog[id], Bytes(File(w, o.path)), o.path in w.sys.writers, length);
    var (i, d) := ReadFdIn(o.input, length);
    InvPut(w, id, o.(input := i), ReadStep(w.rlog[id], d), w.wlog[id]);
    assert w.wlog[id := w.wlog[id]] == w.wlog;
  }

  lemma InvWrite<Id(!new)>(w: World<Id>, id: Id, data: seq<byte>)
    requires Inv(w) && Enabled(w, Write(id, data))
    ensures Inv(Apply(w, Write(id, data)))
  {
    var o := w.sys.ops[id];
    assert OpOk(w, id);
    WriteFdOk(o.output, o.closed, w.wlog[id], Written(File(w, o.path), id), data);
    InvPut(w, id, o.(output := WriteFdOut(o.output, data)), w.rlog[id],
           WriteStep(w.wlog[id], Accepted(o.output, data), o.closed));
    assert w.rlog[id := w.rlog[id]] == w.rlog;
  }

  lemma InvPollIn<Id(!new)>(w: World<Id>, id: Id, n: nat)
    requires Inv(w) && Enabled(w, PollIn(id, n))
    ensures Inv(Apply(w, PollIn(id, n)))
  {
    var o := w.sys.ops[id];
    var f := Bytes(File(w, o.path));
    assert OpOk(w, id);
    PollInOk(o.input, o.closed, w.rlog[id], f, o.path in w.sys.writers, n);
    var (i, d) := PollInResult(w, id, n);
    InvPut(w, id, o.(input := i), PollInStep(w.rlog[id], o.input, i, d, n, |f|), w.wlog[id]);
    assert w.wlog[id := w.wlog[id]] == w.wlog;
  }

  lemma RegistryOpen<Id>(s: Sys<Id>, id: Id, path: string, mode: Mode)
    requires Registry(s) && id !in s.ops
    ensures Registry(OpenFd(s, id, path, mode))
  {
    var s' := OpenFd(s, id, path, mode);
    forall p, r ensures OpenOn(s', p, r) == OpenOn(s, p, r) + if p == path && r == mode.ReadMode? then {id} else {} {
    }
  }

  lemma NewRecordOk<Id(!new)>(w: World<Id>, id: Id, path: string, mode: Mode)
    requires Inv(w) && Enabled(w, Open(id, path, mode))
    ensures OpOk(Apply(w, Open(id, path, mode)), id)
  {
    assert path in w.files ==> Written(w.files[path], id) == [];
  }

  lemma OthersOpen<Id(!new)>(w: World<Id>, id: Id, path: string, mode: Mode, other: Id)
    requires Known(w, other) && OpOk(w, other) && other != id && Enabled(w, Open(id, path, mode))
    ensures OpOk(Apply(w, Open(id, path, mode)), other)
  {
    Bystander(w, Apply(w, Open(id, path, mode)), other);
  }

  lemma NoGhostOpen<Id(!new)>(w: World<Id>, id: Id, path: string, mode: Mode)
    requires NoGhostWriters(w) && Enabled(w, Open(id, path, mode))
    ensures NoGhostWriters(Apply(w, Open(id, path, mode)))
  {
  }

  lemma OpenKeys<Id(!new)>(w: World<Id>, id: Id, path: string, mode: Mode)
    requires w.rlog.Keys == w.wlog.Keys == w.sys.ops.Keys && Enabled(w, Open(id, path, mode))
    ensures var w' := Apply(w, Open(id, path, mode));
            && w'.rlog.Keys == w'.wlog.Keys == w'.sys.ops.Keys == w.sys.ops.Keys + {id}
            && w'.sys == OpenFd(w.sys, id, path, mode)
  {
  }

  lemma InvOpen<Id(!new)>(w: World<Id>, id: Id, path: string, mode: Mode)
    requires Inv(w) && Enabled(w, Open(id, path, mode))
    ensures Inv(Apply(w, Open(id, path, mode)))
  {
    OpenKeys(w, id, path, mode);
    NoGhostOpen(w, id, path, mode);
    RegistryOpen(w.sys, id, path, mode);
    NewRecordOk(w, id, path, mode);
    forall other | other in w.sys.ops ensures OpOk(Apply(w, Open(id, path, mode)), other) {
      OthersOpen(w, id, path, mode, other);
    }
  }

  lemma EraseMembers<Id>(m: map<string, set<Id>>, path: string, id: Id, p: string)
    ensures Members(Erase(m, path, id), p) == if p == path then Members(m, p) - {id} else Members(m, p)
    ensures p in Erase(m, path, id) ==> p in m
    ensures p != path && p in m ==> p in Erase(m, path, id)
  {
  }

  /** clearFd closes its operator and leaves the others alone, but may switch their reading on. */
  lemma ClearShape<Id>(s: Sys<Id>, id: Id)
    requires id in s.ops
    ensures var s', o := ClearFd(s, id), s.ops[id];
            && s'.ops.Keys == s.ops.Keys
            && (s'.ops[id] == o.(closed := true) || s'.ops[id] == EnableReading(o).(closed := true))
            && (forall other :: other in s.ops && other != id ==>
                  s'.ops[other] == s.ops[other] || s'.ops[other] == EnableReading(s.ops[other]))
            && s'.writers == (if o.mode.ReadMode? then s.writers else Erase(s.writers, o.path, id))
            && s'.readers == (if o.mode.ReadMode? then Erase(s.readers, o.path, id) else s.readers)
  {
  }

  lemma OpenOnShrinks<Id>(s: Sys<Id>, id: Id, p: string, r: bool)
    requires id in s.ops
    ensures OpenOn(ClearFd(s, id), p, r) == OpenOn(s, p, r) - {id}
  {
    ClearShape(s, id);
  }

  lemma RegistryClear<Id>(s: Sys<Id>, id: Id)
    requires Registry(s) && id in s.ops
    ensures Registry(ClearFd(s, id))
  {
    var s', o := ClearFd(s, id), s.ops[id];
    ClearShape(s, id);
    forall p ensures Members(s'.writers, p) == OpenOn(s', p, false) && Members(s'.readers, p) == OpenOn(s', p, true) {
      EraseMembers(s.writers, o.path, id, p);
      EraseMembers(s.readers, o.path, id, p);
      OpenOnShrinks(s, id, p, false);
      OpenOnShrinks(s, id, p, true);
    }
  }

  /**
   clearFd wakes: a reader whose path lost its last writer has its reading on afterwards.
   */
  lemma ClearWakes<Id>(s: Sys<Id>, id: Id, r: Id)
    requires Registry(s) && id in s.ops && !s.ops[id].mode.ReadMode?
    requires r in s.ops && !s.ops[r].closed && s.ops[r].mode.ReadMode?
    requires s.ops[r].path in s.writers && s.ops[r].path !in ClearFd(s, id).writers
    ensures r in ClearFd(s, id).ops && ClearFd(s, id).ops[r].input.on
  {
    assert r in OpenOn(s, s.ops[r].path, true);
    assert r in Members(s.readers, s.ops[r].path);
    EraseMembers(s.writers, s.ops[id].path, id, s.ops[r].path);
  }

  /** Everybody but one operator is in order. */
  ghost predicate InvBut<Id(!new)>(w: World<Id>, id: Id) {
    && w.rlog.Keys == w.wlog.Keys == w.sys.ops.Keys
    && Registry(w.sys)
    && NoGhostWriters(w)
    && forall other {:trigger OpOk(w, other)} :: other in w.sys.ops && other != id ==> OpOk(w, other)
  }

  lemma OthersClear<Id(!new)>(w: World<Id>, id: Id, other: Id)
    requires InvBut(w, id) && id in w.sys.ops && other in w.sys.ops && other != id
    requires ClearFd(w.sys, id).ops.Keys == w.sys.ops.Keys
    ensures OpOk(w.(sys := ClearFd(w.sys, id)), other)
  {
    var s, s' := w.sys, ClearFd(w.sys, id);
    var o := s.ops[other];
    assert OpOk(w, other);
    ClearShape(s, id);
    EraseMembers(s.writers, s.ops[id].path, id, o.path);
    if !s.ops[id].mode.ReadMode? && o.mode.ReadMode? && !o.closed && o.path in s.writers && o.path !in s'.writers {
      ClearWakes(s, id, other);
    }
    Bystander(w, w.(sys := s'), other);
  }

  /** clearFd restores the whole invariant once its operator is fit to be closed. */
  lemma InvClear<Id(!new)>(w: World<Id>, id: Id)
    requires InvBut(w, id) && id in w.sys.ops
    requires RecordOk(w, id, w.sys.ops[id].(closed := true), w.rlog[id], w.wlog[id])
    ensures Inv(w.(sys := ClearFd(w.sys, id)))
  {
    var w' := w.(sys := ClearFd(w.sys, id));
    ClearShape(w.sys, id);
    RegistryClear(w.sys, id);
    assert OpOk(w', id);
    forall other | other in w.sys.ops && other != id ensures OpOk(w', other) {
      OthersClear(w, id, other);
    }
  }

  lemma InvClose<Id(!new)>(w: World<Id>, id: Id)
    requires Inv(w) && Enabled(w, Close(id))
    ensures Inv(Apply(w, Close(id)))
  {
    var o := w.sys.ops[id];
    assert OpOk(w, id);
    if !o.mode.ReadMode? && o.output.buf != [] {
      InvPut(w, id, o.(output := o.output.(end := true)), w.rlog[id], w.wlog[id]);
      assert w.rlog[id := w.rlog[id]] == w.rlog && w.wlog[id := w.wlog[id]] == w.wlog;
    } else {
      InvClear(w, id);
    }
  }

  /** The world of PollOut before the writer may be cleared: bytes in the file, readers awake. */
  function Flushed<Id>(w: World<Id>, id: Id, n: nat): World<Id>
    requires Enabled(w, PollOut(id, n))
  {
    var o := w.sys.ops[id];
    var rest := o.output.buf[n..];
    var s1 := Put(w.sys, id, o.(output := o.output.(buf := rest, on := rest != [] && o.output.on)));
    w.(sys := if n > 0 then Wake(s1, o.path) else s1,
       files := w.files[o.path := File(w, o.path) + Cells(o.output.buf[..n], id)])
  }

  lemma OthersFlushed<Id(!new)>(w: World<Id>, id: Id, n: nat, other: Id)
    requires Inv(w) && Enabled(w, PollOut(id, n)) && other in w.sys.ops && other != id
    ensures OpOk(Flushed(w, id, n), other)
  {
    var o := w.sys.ops[other];
    assert OpOk(w, other);
    WrittenExtends(File(w, w.sys.ops[id].path), w.sys.ops[id].output.buf[..n], id, other);
    assert other in OpenOn(w.sys, o.path, true) <==> !o.closed && o.mode.ReadMode?;
    Bystander(w, Flushed(w, id, n), other);
  }

  lemma NoGhostFlushed<Id(!new)>(w: World<Id>, id: Id, n: nat)
    requires NoGhostWriters(w) && Enabled(w, PollOut(id, n)) && w.sys.ops[id].path in w.files
    ensures NoGhostWriters(Flushed(w, id, n))
  {
    var p := w.sys.ops[id].path;
    forall other | other !in w.sys.ops ensures Written(Flushed(w, id, n).files[p], other) == [] {
      WrittenExtends(w.files[p], w.sys.ops[id].output.buf[..n], id, other);
    }
  }

  lemma RegistryFlushed<Id(!new)>(w: World<Id>, id: Id, n: nat)
    requires Registry(w.sys) && Enabled(w, PollOut(id, n))
    ensures Registry(Flushed(w, id, n).sys)
  {
    var s' := Flushed(w, id, n).sys;
    assert forall p, r :: OpenOn(s', p, r) == OpenOn(w.sys, p, r);
  }

  lemma WriterFlushed<Id(!new)>(w: World<Id>, id: Id, n: nat)
    requires Inv(w) && Enabled(w, PollOut(id, n))
    ensures var w1 := Flushed(w, id, n);
            var o := w1.sys.ops[id];
            && o.mode == w.sys.ops[id].mode
            && RecordOk(w1, id, if o.output.buf == [] && o.output.end then o.(closed := true) else o,
                        w1.rlog[id], w1.wlog[id])
  {
    var o := w.sys.ops[id];
    var own := Written(File(w, o.path), id);
    assert OpOk(w, id);
    WrittenExtends(File(w, o.path), o.output.buf[..n], id, id);
    MoveFront(own, o.output.buf, n);
    assert id !in OpenOn(w.sys, o.path, true);
  }

  lemma InvPollOut<Id(!new)>(w: World<Id>, id: Id, n: nat)
    requires Inv(w) && Enabled(w, PollOut(id, n))
    ensures Inv(Apply(w, PollOut(id, n)))
  {
    var w1 := Flushed(w, id, n);
    assert OpOk(w, id);
    RegistryFlushed(w, id, n);
    NoGhostFlushed(w, id, n);
    WriterFlushed(w, id, n);
    forall other | other in w.sys.ops && other != id ensures OpOk(w1, other) {
      OthersFlushed(w, id, n, other);
    }
    if w1.sys.ops[id].output.buf == [] && w1.sys.ops[id].output.end {
      InvClear(w1, id);
    }
  }

  lemma InvStep<Id(!new)>(w: World<Id>, step: Step<Id>)
    requires Inv(w) && Enabled(w, step)
    ensures Inv(Apply(w, step))
  {
    match step
    case Open(id, path, mode) => InvOpen(w, id, path, mode);
    case Register(id) => InvRegister(w, id);
    case Read(id, length) => InvRead(w, id, length);
    case Write(id, data) => InvWrite(w, id, data);
    case Close(id) => InvClose(w, id);
    case PollIn(id, n) => InvPollIn(w, id, n);
    case PollOut(id, n) => InvPollOut(w, id, n);
  }

  // --- Runs ------------------------------------------------------------------------------

  /** Nothing is open; the files hold whatever they held. */
  ghost predicate Init<Id(!new)>(w: World<Id>) {
    && w.sys == Sys(map[], map[], map[]) && w.rlog == map[] && w.wlog == map[]
    && forall p, id {:trigger Written(w.files[p], id)} :: p in w.files ==> Written(w.files[p], id) == []
  }

  ghost predicate Reaches<Id(!new)>(w: World<Id>, steps: seq<Step<Id>>, w': World<Id>)
    decreases |steps|
  {
    if steps == [] then w' == w
    else Enabled(w, steps[0]) && Reaches(Apply(w, steps[0]), steps[1..], w')
  }

  lemma {:induction false} RunKeepsInv<Id(!new)>(w: World<Id>, steps: seq<Step<Id>>, w': World<Id>)
    requires Inv(w) && Reaches(w, steps, w')
    ensures Inv(w')
    decreases |steps|
  {
    if steps != [] {
      InvStep(w, steps[0]);
      RunKeepsInv(Apply(w, steps[0]), steps[1..], w');
    }
  }

  lemma ReachableInv<Id(!new)>(w0: World<Id>, steps: seq<Step<Id>>, w: World<Id>)
    requires Init(w0) && Reaches(w0, steps, w)
    ensures Inv(w)
  {
    RunKeepsInv(w0, steps, w);
  }

  // --- Main results ------------------------------------------------------------------------

  lemma InvAt<Id(!new)>(w: World<Id>, id: Id)
    requires Inv(w) && id in w.sys.ops
    ensures Known(w, id) && OpOk(w, id)
  {
  }

  /** What PollIn changes: one input half and one read log. */
  lemma PollInEffect<Id>(w: World<Id>, id: Id, n: nat, w': World<Id>)
    requires Enabled(w, PollIn(id, n)) && w' == Apply(w, PollIn(id, n))
    ensures var o := w.sys.ops[id];
            var (i, d) := PollInResult(w, id, n);
            && w'.files == w.files && w'.wlog == w.wlog && w'.sys.writers == w.sys.writers
            && w'.sys.ops == w.sys.ops[id := o.(input := i)]
            && w'.rlog == w.rlog[id := PollInStep(w.rlog[id], o.input, i, d, n, |File(w, o.path)|)]
  {
  }

  /**
   Every writer a path ever had is closed, and every byte it accepted is in the file, but for
   those a caller wrote to it after it was closed.
   */
  ghost predicate AllDrained<Id(!new)>(w: World<Id>, path: string) {
    forall x {:trigger Known(w, x)} ::
      x in w.sys.ops && !w.sys.ops[x].mode.ReadMode? && w.sys.ops[x].path == path ==>
      Known(w, x) && w.sys.ops[x].closed && w.wlog[x].accepted == Written(File(w, path), x) + w.wlog[x].late
  }

  lemma NoWriterMeansDrained<Id(!new)>(w: World<Id>, path: string)
    requires Inv(w) && path !in w.sys.writers
    ensures AllDrained(w, path)
  {
    assert Members(w.sys.writers, path) == OpenOn(w.sys, path, false);
    forall x | x in w.sys.ops && !w.sys.ops[x].mode.ReadMode? && w.sys.ops[x].path == path
      ensures Known(w, x) && w.sys.ops[x].closed
      ensures w.wlog[x].accepted == Written(File(w, path), x) + w.wlog[x].late
    {
      InvAt(w, x);
      assert x !in OpenOn(w.sys, path, false);
    }
  }

  /**
   When a reader sets `file_read_eof_`, no writer is registered on its path, every byte any
   writer of the path accepted while its descriptor was open is in the file, and the reader
   has taken the whole file: what its callbacks received plus its buffer.
   */
  lemma EofSound<Id(!new)>(w0: World<Id>, steps: seq<Step<Id>>, w: World<Id>, id: Id, n: nat, w': World<Id>)
    requires Init(w0) && Reaches(w0, steps, w) && Enabled(w, PollIn(id, n)) && w' == Apply(w, PollIn(id, n))
    requires !w.sys.ops[id].input.eof && w'.sys.ops[id].input.eof
    ensures var path := w.sys.ops[id].path;
            && path !in w'.sys.writers && AllDrained(w', path)
            && w'.rlog[id].delivered + w'.sys.ops[id].input.buf == Bytes(File(w', path))
            && w'.rlog[id].eofAt == |File(w', path)|
  {
    ReachableInv(w0, steps, w);
    InvPollIn(w, id, n);
    NoWriterAtEof(w, id, n, w');
    NoWriterMeansDrained(w', w.sys.ops[id].path);
  }

  lemma NoWriterAtEof<Id(!new)>(w: World<Id>, id: Id, n: nat, w': World<Id>)
    requires Inv(w) && Enabled(w, PollIn(id, n)) && w' == Apply(w, PollIn(id, n)) && Inv(w')
    requires !w.sys.ops[id].input.eof && w'.sys.ops[id].input.eof
    ensures var path := w.sys.ops[id].path;
            && id in w'.rlog && path !in w'.sys.writers
            && w'.rlog[id].delivered + w'.sys.ops[id].input.buf == Bytes(File(w', path))
            && w'.rlog[id].eofAt == |File(w', path)|
  {
    InvAt(w, id);
    InvAt(w', id);
    PollInEffect(w, id, n, w');
  }

  /** Files only grow, so what a reader saw as the end of the file stays a prefix of it. */
  lemma FilesGrow<Id(!new)>(w: World<Id>, step: Step<Id>, path: string)
    requires Enabled(w, step)
    ensures File(w, path) <= File(Apply(w, step), path)
  {
  }

  /** The length of the request the step answers, if it answers one. */
  function Request<Id>(w: World<Id>, step: Step<Id>): nat
    requires Enabled(w, step)
  {
    match step
    case Read(_, length) => length
    case PollIn(id, _) => var p := w.sys.ops[id].input.pending; if p.Some? then p.value else 0
    case _ => 0
  }

  predicate SaysEnd(d: Delivery) {
    d.Deliver? && d.end
  }

  /** end = true is only ever said with an empty buffer, unless handleRead answers a request of length 0. */
  lemma EndMeansEmpty<Id(!new)>(w: World<Id>, step: Step<Id>)
    requires Inv(w) && Enabled(w, step) && SaysEnd(Output(w, step)) && (step.PollIn? ==> Request(w, step) > 0)
    ensures step.id in Apply(w, step).sys.ops
    ensures var i := Apply(w, step).sys.ops[step.id].input; i.eof && i.buf == []
    ensures Apply(w, step).sys.ops[step.id].mode.ReadMode?
  {
    InvAt(w, step.id);
  }

  /**
   A callback with end = true, but for handleRead's answer to a request of length 0: the reader's
   callbacks have received exactly what it read, which includes everything up to the end it saw.
   If nobody appended since, that is the whole file.
   */
  lemma EndSound<Id(!new)>(w0: World<Id>, steps: seq<Step<Id>>, w: World<Id>, step: Step<Id>, w': World<Id>)
    requires Init(w0) && Reaches(w0, steps, w) && Enabled(w, step) && w' == Apply(w, step)
    requires SaysEnd(Output(w, step)) && (step.PollIn? ==> Request(w, step) > 0)
    ensures Known(w', step.id)
    ensures var l := w'.rlog[step.id];
            var f := Bytes(File(w', w'.sys.ops[step.id].path));
            l.eofAt <= l.offset <= |f| && l.delivered == f[..l.offset] && (l.eofAt == |f| ==> l.delivered == f)
  {
    ReachableInv(w0, steps, w);
    EndMeansEmpty(w, step);
    InvStep(w, step);
    EmptyMeansAll(w', step.id);
  }

  lemma EmptyMeansAll<Id(!new)>(w: World<Id>, id: Id)
    requires Inv(w) && id in w.sys.ops && w.sys.ops[id].mode.ReadMode? && w.sys.ops[id].input.eof && w.sys.ops[id].input.buf == []
    ensures Known(w, id)
    ensures var l, f := w.rlog[id], Bytes(File(w, w.sys.ops[id].path));
            l.eofAt <= l.offset <= |f| && l.delivered == f[..l.offset] && (l.eofAt == |f| ==> l.delivered == f)
  {
    InvAt(w, id);
    Regroup(w.rlog[id].delivered, [], []);
  }

  /**
   When the end is announced: by a request, exactly if the end was seen and the request empties
   the buffer; by the handler, exactly if a request waits and the read finds nothing, with no
   writer left and the buffer below the high-water mark.
   */
  lemma EndSaidIff<Id(!new)>(w0: World<Id>, steps: seq<Step<Id>>, w: World<Id>, step: Step<Id>)
    requires Init(w0) && Reaches(w0, steps, w) && Enabled(w, step) && (step.Read? || step.PollIn?)
    ensures step.id in w.sys.ops
    ensures var o := w.sys.ops[step.id];
            SaysEnd(Output(w, step)) <==>
              if step.Read? then o.input.eof && |o.input.buf| <= step.length
              else o.input.pending.Some? && step.n == 0 && o.path !in w.sys.writers && |o.input.buf| < HIGH_WATER
  {
    ReachableInv(w0, steps, w);
    InvAt(w, step.id);
  }

  /** Data for an open writer is accepted whole if less than the mark is not in the file yet, else not at all. */
  lemma AcceptedIff<Id(!new)>(w0: World<Id>, steps: seq<Step<Id>>, w: World<Id>, id: Id, data: seq<byte>)
    requires Init(w0) && Reaches(w0, steps, w) && Enabled(w, Write(id, data)) && !w.sys.ops[id].closed
    ensures var w' := Apply(w, Write(id, data));
            var inFile := Written(File(w, w.sys.ops[id].path), id);
            && id in w'.wlog && inFile <= w.wlog[id].accepted
            && w'.wlog[id].accepted == w.wlog[id].accepted + if |w.wlog[id].accepted| - |inFile| < HIGH_WATER then data else []
  {
    ReachableInv(w0, steps, w);
    InvAt(w, id);
    assert w.wlog[id].accepted == Written(File(w, w.sys.ops[id].path), id) + w.sys.ops[id].output.buf;
  }

  /**
   Without that exception this is false: the callback that announces the end delivers
   the rest of the file exactly when the pending request covers the buffered bytes.
   */
  lemma EndCompleteIff<Id(!new)>(w0: World<Id>, steps: seq<Step<Id>>, w: World<Id>, id: Id, w': World<Id>)
    requires Init(w0) && Reaches(w0, steps, w) && Enabled(w, PollIn(id, 0)) && w' == Apply(w, PollIn(id, 0))
    requires Output(w, PollIn(id, 0)).Deliver? && Output(w, PollIn(id, 0)).end
    ensures w'.rlog[id].delivered == Bytes(File(w, w.sys.ops[id].path))
            <==> w.sys.ops[id].input.pending.value >= |w.sys.ops[id].input.buf|
  {
    ReachableInv(w0, steps, w);
    InvAt(w, id);
    PollInEffect(w, id, 0, w');
    var i, f := w.sys.ops[id].input, Bytes(File(w, w.sys.ops[id].path));
    var content := Upto(i.buf, i.pending.value);
    MoveFront(w.rlog[id].delivered, i.buf, |content|);
    assert f[..w.rlog[id].offset] == f;
    assert w'.rlog[id].delivered + i.buf[|content|..] == f;
  }

  /**
   A reader that is open, not polled, and neither at the end nor paused by a full buffer has
   read the whole file, and an open writer is still registered on its path.
   */
  lemma NoStall<Id(!new)>(w0: World<Id>, steps: seq<Step<Id>>, w: World<Id>, id: Id)
    requires Init(w0) && Reaches(w0, steps, w) && id in w.sys.ops
    requires var o := w.sys.ops[id];
             o.mode.ReadMode? && !o.closed && !o.input.on && !o.input.eof && !o.input.paused
    ensures var o := w.sys.ops[id];
            && id in w.rlog && w.rlog[id].delivered + o.input.buf == Bytes(File(w, o.path))
            && exists x :: x in Members(w.sys.writers, o.path) && x in w.sys.ops && !w.sys.ops[x].closed
  {
    ReachableInv(w0, steps, w);
    var o := w.sys.ops[id];
    InvAt(w, id);
    assert Members(w.sys.writers, o.path) == OpenOn(w.sys, o.path, false);
    var x :| x in Members(w.sys.writers, o.path);
    assert x in OpenOn(w.sys, o.path, false);
  }

  lemma ClearWakesAny<Id>(s: Sys<Id>, id: Id, r: Id)
    requires Registry(s) && id in s.ops && r in s.ops && !s.ops[r].closed && s.ops[r].mode.ReadMode?
    requires s.ops[r].path in s.writers && s.ops[r].path !in ClearFd(s, id).writers
    ensures r in ClearFd(s, id).ops && ClearFd(s, id).ops[r].input.on
  {
    ClearShape(s, id);
    ClearWakes(s, id, r);
  }

  lemma FlushWakes<Id(!new)>(w: World<Id>, x: Id, n: nat, r: Id)
    requires Registry(w.sys) && Enabled(w, PollOut(x, n))
    requires r in w.sys.ops && !w.sys.ops[r].closed && w.sys.ops[r].mode.ReadMode?
    ensures var w1 := Flushed(w, x, n);
            && r in w1.sys.ops && w1.sys.ops[r].path == w.sys.ops[r].path
            && w1.sys.ops[r].mode == w.sys.ops[r].mode && w1.sys.ops[r].closed == w.sys.ops[r].closed
            && w1.sys.writers == w.sys.writers
            && (File(w1, w.sys.ops[r].path) != File(w, w.sys.ops[r].path) ==> w1.sys.ops[r].input.on)
  {
    var o := w.sys.ops[x];
    assert r in OpenOn(w.sys, w.sys.ops[r].path, true) && r in Members(w.sys.readers, w.sys.ops[r].path);
    if n == 0 {
      assert Cells(o.output.buf[..0], x) == [];
      assert File(w, o.path) + [] == File(w, o.path);
    }
  }

  lemma PollOutWakes<Id(!new)>(w: World<Id>, x: Id, n: nat, r: Id, w': World<Id>)
    requires Registry(w.sys) && Enabled(w, PollOut(x, n)) && w' == Apply(w, PollOut(x, n))
    requires r in w.sys.ops && !w.sys.ops[r].closed && w.sys.ops[r].mode.ReadMode?
    requires var p := w.sys.ops[r].path;
             File(w', p) != File(w, p) || (p in w.sys.writers && p !in w'.sys.writers)
    ensures r in w'.sys.ops && w'.sys.ops[r].input.on
  {
    var w1 := Flushed(w, x, n);
    FlushWakes(w, x, n, r);
    RegistryFlushed(w, x, n);
    if w1.sys.ops[x].output.buf == [] && w1.sys.ops[x].output.end {
      ClearShape(w1.sys, x);
      if w.sys.ops[r].path in w.sys.writers && w.sys.ops[r].path !in w'.sys.writers {
        ClearWakesAny(w1.sys, x, r);
      }
    }
  }

  /** waitToWrite: a path is in the writers' map exactly while some writer of it is open. */
  lemma WaitingIff<Id(!new)>(w0: World<Id>, steps: seq<Step<Id>>, w: World<Id>, path: string)
    requires Init(w0) && Reaches(w0, steps, w)
    ensures path in w.sys.writers <==>
              exists x :: x in w.sys.ops && !w.sys.ops[x].closed && !w.sys.ops[x].mode.ReadMode? && w.sys.ops[x].path == path
  {
    ReachableInv(w0, steps, w);
    assert Members(w.sys.writers, path) == OpenOn(w.sys, path, false);
    if path in w.sys.writers {
      var x :| x in w.sys.writers[path];
      assert x in OpenOn(w.sys, path, false);
    }
    forall x | x in w.sys.ops && !w.sys.ops[x].closed && !w.sys.ops[x].mode.ReadMode? && w.sys.ops[x].path == path
      ensures path in w.sys.writers
    {
      assert x in OpenOn(w.sys, path, false);
    }
  }

  /** ... and that writer wakes it: any step that extends the file or retires the last writer. */
  lemma WriterWakes<Id(!new)>(w0: World<Id>, steps: seq<Step<Id>>, w: World<Id>, id: Id, step: Step<Id>, w': World<Id>)
    requires Init(w0) && Reaches(w0, steps, w) && Enabled(w, step) && w' == Apply(w, step) && id in w.sys.ops
    requires w.sys.ops[id].mode.ReadMode? && !w.sys.ops[id].closed
    requires var p := w.sys.ops[id].path;
             File(w', p) != File(w, p) || (p in w.sys.writers && p !in w'.sys.writers)
    ensures id in w'.sys.ops && w'.sys.ops[id].input.on
  {
    ReachableInv(w0, steps, w);
    WakesStep(w, id, step, w');
  }

  lemma WakesStep<Id(!new)>(w: World<Id>, id: Id, step: Step<Id>, w': World<Id>)
    requires Inv(w) && Enabled(w, step) && w' == Apply(w, step) && id in w.sys.ops
    requires w.sys.ops[id].mode.ReadMode? && !w.sys.ops[id].closed
    requires var p := w.sys.ops[id].path;
             File(w', p) != File(w, p) || (p in w.sys.writers && p !in w'.sys.writers)
    ensures id in w'.sys.ops && w'.sys.ops[id].input.on
  {
    match step
    case Close(x) => ClearWakesAny(w.sys, x, id);
    case PollOut(x, n) => PollOutWakes(w, x, n, id, w');
    case _ =>
  }

  lemma FlushedShape<Id(!new)>(w: World<Id>, x: Id, n: nat, id: Id)
    requires Enabled(w, PollOut(x, n)) && id in w.sys.ops
    ensures id in Flushed(w, x, n).sys.ops
    ensures var o, o' := w.sys.ops[id], Flushed(w, x, n).sys.ops[id];
            o'.path == o.path && o'.mode == o.mode && o'.closed == o.closed
  {
  }

  lemma StaysOpen<Id(!new)>(w: World<Id>, step: Step<Id>, id: Id)
    requires Enabled(w, step) && !step.Close? && !step.PollOut? && id in w.sys.ops
    ensures id in Apply(w, step).sys.ops && Apply(w, step).sys.ops[id].closed == w.sys.ops[id].closed
  {
  }

  lemma CloseShape<Id(!new)>(w: World<Id>, x: Id, id: Id, w': World<Id>)
    requires Enabled(w, Close(x)) && w' == Apply(w, Close(x)) && id in w.sys.ops && id in w'.sys.ops
    ensures w'.wlog == w.wlog
    ensures w'.sys.ops[id].path == w.sys.ops[id].path && w'.sys.ops[id].mode == w.sys.ops[id].mode
  {
    ClearShape(w.sys, x);
  }

  lemma PollOutShape<Id(!new)>(w: World<Id>, x: Id, n: nat, id: Id, w': World<Id>)
    requires Enabled(w, PollOut(x, n)) && w' == Apply(w, PollOut(x, n)) && id in w.sys.ops && id in w'.sys.ops
    ensures w'.wlog == w.wlog
    ensures w'.sys.ops[id].path == w.sys.ops[id].path && w'.sys.ops[id].mode == w.sys.ops[id].mode
  {
    FlushedShape(w, x, n, id);
    ClearShape(Flushed(w, x, n).sys, x);
  }

  /** A writer's descriptor is closed only once every byte the writer accepted is in the file. */
  lemma DrainBeforeClose<Id(!new)>(w0: World<Id>, steps: seq<Step<Id>>, w: World<Id>, step: Step<Id>, id: Id, w': World<Id>)
    requires Init(w0) && Reaches(w0, steps, w) && Enabled(w, step) && w' == Apply(w, step)
    requires id in w.sys.ops && !w.sys.ops[id].mode.ReadMode? && !w.sys.ops[id].closed
    ensures Known(w', id)
    ensures w'.sys.ops[id].closed ==> w'.wlog[id].accepted == Written(File(w', w.sys.ops[id].path), id)
  {
    ReachableInv(w0, steps, w);
    InvStep(w, step);
    match step {
      case Close(x) => CloseShape(w, x, id, w');
      case PollOut(x, n) => PollOutShape(w, x, n, id, w');
      case _ => StaysOpen(w, step, id);
    }
    InvAt(w, id);
    InvAt(w', id);
    Regroup(Written(File(w', w.sys.ops[id].path), id), [], []);
  }

  // --- What closing and flushing do to the others -------------------------------------------

  /** A step that leaves this half of an operator alone, but for switching its reading on. */
  predicate KeepsReader(o: Op, o': Op) {
    && o'.path == o.path && o'.mode == o.mode && (o.closed ==> o'.closed)
    && (o'.input == o.input || o'.input == Enable(o.input))
  }

  lemma ClearKeepsReader<Id>(s: Sys<Id>, x: Id, id: Id)
    requires x in s.ops && id in s.ops
    ensures id in ClearFd(s, x).ops && KeepsReader(s.ops[id], ClearFd(s, x).ops[id])
  {
    ClearShape(s, x);
  }

  lemma FlushKeepsReader<Id(!new)>(w: World<Id>, x: Id, n: nat, id: Id)
    requires Enabled(w, PollOut(x, n)) && id in w.sys.ops
    ensures id in Flushed(w, x, n).sys.ops && KeepsReader(w.sys.ops[id], Flushed(w, x, n).sys.ops[id])
  {
  }

  lemma CloseKeepsReader<Id(!new)>(w: World<Id>, x: Id, id: Id, w': World<Id>)
    requires Enabled(w, Close(x)) && w' == Apply(w, Close(x)) && id in w.sys.ops
    ensures id in w'.sys.ops && KeepsReader(w.sys.ops[id], w'.sys.ops[id])
  {
    ClearKeepsReader(w.sys, x, id);
  }

  lemma PollOutKeepsReader<Id(!new)>(w: World<Id>, x: Id, n: nat, id: Id, w': World<Id>)
    requires Enabled(w, PollOut(x, n)) && w' == Apply(w, PollOut(x, n)) && id in w.sys.ops
    ensures id in w'.sys.ops && KeepsReader(w.sys.ops[id], w'.sys.ops[id])
  {
    FlushKeepsReader(w, x, n, id);
    ClearKeepsReader(Flushed(w, x, n).sys, x, id);
  }

  // --- Requests of positive length -----------------------------------------------------------

  /** No request of length 0 is waiting at this operator. */
  predicate WaitsPositive<Id(==)>(w: World<Id>, id: Id) {
    id in w.sys.ops && w.sys.ops[id].input.pending.Some? ==> w.sys.ops[id].input.pending.value > 0
  }

  lemma PendingOther<Id(!new)>(w: World<Id>, step: Step<Id>, id: Id, w': World<Id>)
    requires Enabled(w, step) && w' == Apply(w, step) && id in w'.sys.ops && !step.PollOut? && !step.Close?
    ensures id !in w.sys.ops || w'.sys.ops[id].input.pending == w.sys.ops[id].input.pending
            || w'.sys.ops[id].input.pending.None? || (step == Read(id, w'.sys.ops[id].input.pending.value))
    ensures id !in w.sys.ops ==> w'.sys.ops[id].input.pending.None?
  {
  }

  lemma PendingStep<Id(!new)>(w: World<Id>, step: Step<Id>, id: Id, w': World<Id>)
    requires WaitsPositive(w, id) && Enabled(w, step) && w' == Apply(w, step) && step != Read(id, 0)
    ensures WaitsPositive(w', id)
  {
    match step
    case PollOut(x, n) => if id in w.sys.ops { PollOutKeepsReader(w, x, n, id, w'); } else { NoNewcomer(w, step, id, w'); }
    case Close(x) => if id in w.sys.ops { CloseKeepsReader(w, x, id, w'); } else { NoNewcomer(w, step, id, w'); }
    case _ => if id in w'.sys.ops { PendingOther(w, step, id, w'); }
  }

  lemma NoNewcomer<Id(!new)>(w: World<Id>, step: Step<Id>, id: Id, w': World<Id>)
    requires Enabled(w, step) && w' == Apply(w, step) && (step.PollOut? || step.Close?) && id !in w.sys.ops
    ensures id !in w'.sys.ops
  {
    if step.Close? {
      ClearShape(w.sys, step.id);
    } else {
      ClearShape(Flushed(w, step.id, step.n).sys, step.id);
    }
  }

  /** If a reader is never asked for 0 bytes, no request of length 0 ever waits there, whatever the others are asked for. */
  lemma {:induction false} PositiveRequests<Id(!new)>(w: World<Id>, steps: seq<Step<Id>>, w': World<Id>, id: Id)
    requires WaitsPositive(w, id) && Reaches(w, steps, w') && Read(id, 0) !in steps
    ensures WaitsPositive(w', id)
    decreases |steps|
  {
    if steps != [] {
      PendingStep(w, steps[0], id, Apply(w, steps[0]));
      PositiveRequests(Apply(w, steps[0]), steps[1..], w', id);
    }
  }

  /** So every end = true such a reader is told is sound. */
  lemma PositiveEndSound<Id(!new)>(w0: World<Id>, steps: seq<Step<Id>>, w: World<Id>, step: Step<Id>, w': World<Id>)
    requires Init(w0) && Reaches(w0, steps, w) && Enabled(w, step) && w' == Apply(w, step) && SaysEnd(Output(w, step))
    requires Read(step.id, 0) !in steps
    ensures Known(w', step.id)
    ensures var l := w'.rlog[step.id];
            var f := Bytes(File(w', w'.sys.ops[step.id].path));
            l.eofAt <= l.offset <= |f| && l.delivered == f[..l.offset] && (l.eofAt == |f| ==> l.delivered == f)
  {
    PositiveRequests(w0, steps, w, step.id);
    EndSound(w0, steps, w, step, w');
  }

  // --- The input buffer stays bounded ----------------------------------------------------------

  ghost predicate Bounded<Id(!new)>(w: World<Id>) {
    forall id {:trigger w.sys.ops[id]} :: id in w.sys.ops ==> |w.sys.ops[id].input.buf| < 2 * HIGH_WATER
  }

  lemma OtherInput<Id(!new)>(w: World<Id>, step: Step<Id>, id: Id, w': World<Id>)
    requires Enabled(w, step) && w' == Apply(w, step) && id in w'.sys.ops && !step.PollOut? && !step.Close?
    ensures var i := w'.sys.ops[id].input;
            if id !in w.sys.ops then i.buf == []
            else |i.buf| <= |w.sys.ops[id].input.buf| || (|w.sys.ops[id].input.buf| < HIGH_WATER && |i.buf| < 2 * HIGH_WATER)
  {
  }

  lemma BoundedStep<Id(!new)>(w: World<Id>, step: Step<Id>, w': World<Id>)
    requires Bounded(w) && Enabled(w, step) && w' == Apply(w, step)
    ensures Bounded(w')
  {
    forall id | id in w'.sys.ops ensures |w'.sys.ops[id].input.buf| < 2 * HIGH_WATER {
      if (step.PollOut? || step.Close?) && id !in w.sys.ops {
        NoNewcomer(w, step, id, w');
      } else if step.PollOut? {
        PollOutKeepsReader(w, step.id, step.n, id, w');
      } else if step.Close? {
        CloseKeepsReader(w, step.id, id, w');
      } else {
        OtherInput(w, step, id, w');
      }
    }
  }

  /** Back-pressure: no reader ever buffers twice the high-water mark, however slowly it is asked for bytes. */
  lemma {:induction false} InputBounded<Id(!new)>(w: World<Id>, steps: seq<Step<Id>>, w': World<Id>)
    requires Bounded(w) && Reaches(w, steps, w')
    ensures Bounded(w')
    decreases |steps|
  {
    if steps != [] {
      BoundedStep(w, steps[0], Apply(w, steps[0]));
      InputBounded(Apply(w, steps[0]), steps[1..], w');
    }
  }
}
