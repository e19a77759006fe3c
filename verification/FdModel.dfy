/**
 The program state of the asynchronous file layer as a value, and what each call or poll
 handler does to it: FdOperator.cc, FdOperatorManager.cc and FdOperatorManager.h.

 `Id` is whatever identifies an operator.  Module FdOperators instantiates it with the
 operator objects themselves, module EofProtocol leaves it abstract.
 */
module FdModel {
  import opened Common

  // BUFFER_HIGH_WATER_LEVEL_THRESHOLD
  const HIGH_WATER: nat := 1024 * 64 * 64

  datatype Mode = ReadMode | WriteMode | WriteAppend

  /**
   The reading half of an FdOperator: the input buffer, the read bit of `events_`,
   `file_read_eof_`, and `file_read_length_` while `file_read_finish_cb_` is set.  `paused`
   is no variable of the class: it says that reading was last switched off because the
   buffer reached the high-water mark.
   */
  datatype Inbound = Inbound(buf: seq<byte>, on: bool, paused: bool, eof: bool, pending: Option<nat>)

  /** The writing half: the output buffer, the write bit of `events_`, `file_write_end_`. */
  datatype Outbound = Outbound(buf: seq<byte>, on: bool, end: bool)

  /**
   `closed` is no variable of the class: it says that clearFd has closed the descriptor and
   taken it off the poll map.
   */
  datatype Op = Op(path: string, mode: Mode, input: Inbound, output: Outbound, registered: bool, closed: bool)

  /** What a read callback receives, if it is called at all. */
  datatype Delivery = Silent | Deliver(content: seq<byte>, end: bool)

  datatype Sys<Id> = Sys(ops: map<Id, Op>, readers: map<string, set<Id>>, writers: map<string, set<Id>>)

  function Fresh(path: string, mode: Mode): Op {
    Op(path, mode, Inbound([], mode.ReadMode?, false, false, None),
       Outbound([], !mode.ReadMode?, false), false, false)
  }

  // --- What a call does to its own operator --------------------------------------------

  function Enable(i: Inbound): Inbound {
    i.(on := true, paused := false)
  }

  function EnableReading(o: Op): Op {
    o.(input := Enable(o.input))
  }

  function ReadFdIn(i: Inbound, length: nat): (Inbound, Delivery)
  {
    var content := Upto(i.buf, length);
    var i1 := i.(buf := i.buf[|content|..]);
    var (i2, d) :=
      if i.eof then (i1, Deliver(content, i1.buf == []))
      else if content != [] then (i1, Deliver(content, false))
      else (i1.(pending := Some(length)), Silent);
    (if |i2.buf| >= HIGH_WATER then Enable(i2) else i2, d)
  }

  /** The part of writeFd's data that enters the output buffer: all of it or nothing. */
  function Accepted(out: Outbound, data: seq<byte>): seq<byte> {
    if |out.buf| < HIGH_WATER then data else []
  }

  function WriteFdOut(out: Outbound, data: seq<byte>): Outbound {
    var out1 := out.(buf := out.buf + Accepted(out, data));
    if |out1.buf| > 0 then out1.(on := true) else out1
  }

  function FireRead(i: Inbound): (Inbound, Delivery) {
    match i.pending
    case None => (i, Silent)
    case Some(length) =>
      var content := Upto(i.buf, length);
      (i.(buf := i.buf[|content|..], pending := None), Deliver(content, i.eof))
  }

  /** Bytes enter the input buffer, and reading pauses when it is full. */
  function Filled(i: Inbound, chunk: seq<byte>): Inbound {
    var i1 := i.(buf := i.buf + chunk);
    if |i1.buf| >= HIGH_WATER then i1.(on := false, paused := true) else i1
  }

  /** handleRead, given the bytes `read` returned and the answer of waitToWrite. */
  function HandleReadIn(i: Inbound, chunk: seq<byte>, waiting: bool): (Inbound, Delivery) {
    if |i.buf| >= HIGH_WATER then (i, Silent)
    else if chunk == [] then
      var i1 := i.(on := false, paused := false);
      if waiting then (i1, Silent) else FireRead(i1.(eof := true))
    else FireRead(Filled(i, chunk))
  }

  // --- The registry --------------------------------------------------------------------

  function Members<Id>(m: map<string, set<Id>>, path: string): set<Id> {
    if path in m then m[path] else {}
  }

  function Insert<Id>(m: map<string, set<Id>>, path: string, id: Id): map<string, set<Id>> {
    m[path := Members(m, path) + {id}]
  }

  /** Erasing from a path's set; the path goes with its last member. */
  function Erase<Id>(m: map<string, set<Id>>, path: string, id: Id): map<string, set<Id>> {
    if path !in m then m
    else if m[path] - {id} == {} then m - {path}
    else m[path := m[path] - {id}]
  }

  /** enableReading on every reader of a path. */
  function Wake<Id>(s: Sys<Id>, path: string): Sys<Id> {
    s.(ops := map id | id in s.ops ::
         if id in Members(s.readers, path) then EnableReading(s.ops[id]) else s.ops[id])
  }

  function EraseWriteFdop<Id>(s: Sys<Id>, path: string, id: Id): Sys<Id> {
    var s1 := s.(writers := Erase(s.writers, path, id));
    if path in s.writers && path !in s1.writers then Wake(s1, path) else s1
  }

  // --- The calls and handlers ------------------------------------------------------------

  function OpenFd<Id>(s: Sys<Id>, id: Id, path: string, mode: Mode): Sys<Id> {
    var s1 := s.(ops := s.ops[id := Fresh(path, mode)]);
    if mode.ReadMode? then s1.(readers := Insert(s.readers, path, id))
    else s1.(writers := Insert(s.writers, path, id))
  }

  function Put<Id>(s: Sys<Id>, id: Id, o: Op): Sys<Id> {
    s.(ops := s.ops[id := o])
  }

  function ClearFd<Id>(s: Sys<Id>, id: Id): Sys<Id>
    requires id in s.ops
  {
    var o := s.ops[id];
    var s1 := if o.mode.ReadMode? then s.(readers := Erase(s.readers, o.path, id))
              else EraseWriteFdop(s, o.path, id);
    Put(s1, id, s1.ops[id].(closed := true))
  }

  function CloseFd<Id>(s: Sys<Id>, id: Id): Sys<Id>
    requires id in s.ops
  {
    var o := s.ops[id];
    if !o.mode.ReadMode? && o.output.buf != [] then Put(s, id, o.(output := o.output.(end := true)))
    else ClearFd(s, id)
  }

  function ReadFd<Id>(s: Sys<Id>, id: Id, length: nat): (Sys<Id>, Delivery)
    requires id in s.ops
  {
    var (i, d) := ReadFdIn(s.ops[id].input, length);
    (Put(s, id, s.ops[id].(input := i)), d)
  }

  function WriteFd<Id>(s: Sys<Id>, id: Id, data: seq<byte>): Sys<Id>
    requires id in s.ops
  {
    Put(s, id, s.ops[id].(output := WriteFdOut(s.ops[id].output, data)))
  }

  function HandleRead<Id>(s: Sys<Id>, id: Id, chunk: seq<byte>): (Sys<Id>, Delivery)
    requires id in s.ops
  {
    var (i, d) := HandleReadIn(s.ops[id].input, chunk, s.ops[id].path in s.writers);
    (Put(s, id, s.ops[id].(input := i)), d)
  }

  /** handleWrite when `write` took the first n bytes of the output buffer. */
  function HandleWrite<Id>(s: Sys<Id>, id: Id, n: nat): Sys<Id>
    requires id in s.ops && n <= |s.ops[id].output.buf|
  {
    var o := s.ops[id];
    var rest := o.output.buf[n..];
    var out := o.output.(buf := rest, on := rest != [] && o.output.on);
    var s1 := Put(s, id, o.(output := out));
    var s2 := if n > 0 then Wake(s1, o.path) else s1;
    if rest == [] && out.end then ClearFd(s2, id) else s2
  }
}
