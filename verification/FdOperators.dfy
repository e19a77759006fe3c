/**
 FdOperator and FdOperatorManager as objects, each method proved to do to the objects what
 module FdModel says.  The operators themselves serve as the identities of that model.

 System calls show up as parameters: `read` as the chunk it returned, `write` as the number
 of bytes it took.  A read callback shows up as the Delivery it would be called with.
 */
module FdOperators {
  import opened Common
  import opened FdModel

  /** A call that changes nothing but one operator. */
  lemma OneChanged<Id>(s: Sys<Id>, s': Sys<Id>, id: Id)
    requires id in s.ops && s'.ops.Keys == s.ops.Keys && s'.readers == s.readers && s'.writers == s.writers
    requires forall other :: other in s.ops && other != id ==> s'.ops[other] == s.ops[other]
    ensures s' == Put(s, id, s'.ops[id])
  {
  }

  lemma OneAdded<Id>(s: Sys<Id>, s': Sys<Id>, id: Id, path: string, mode: Mode)
    requires id !in s.ops && s'.ops.Keys == s.ops.Keys + {id}
    requires forall other :: other in s.ops ==> s'.ops[other] == s.ops[other]
    requires s'.ops[id] == Fresh(path, mode)
    requires s'.readers == if mode.ReadMode? then Insert(s.readers, path, id) else s.readers
    requires s'.writers == if mode.ReadMode? then s.writers else Insert(s.writers, path, id)
    ensures s' == FdModel.OpenFd(s, id, path, mode)
  {
  }

  /** handleWrite up to trigReadEvent. */
  function Sent<Id>(s: Sys<Id>, id: Id, n: nat): Sys<Id>
    requires id in s.ops && n <= |s.ops[id].output.buf|
  {
    var o := s.ops[id];
    var s1 := Put(s, id, o.(output := o.output.(buf := o.output.buf[n..])));
    if n > 0 then Wake(s1, o.path) else s
  }

  /** Waking the readers and switching a write bit off commute. */
  lemma WakePut<Id>(s: Sys<Id>, id: Id, path: string, out: Outbound)
    requires id in s.ops
    ensures Wake(Put(s, id, s.ops[id].(output := out)), path)
            == Put(Wake(s, path), id, Wake(s, path).ops[id].(output := out))
  {
  }

  lemma PutSame<Id>(s: Sys<Id>, id: Id)
    requires id in s.ops
    ensures Put(s, id, s.ops[id]) == s
  {
  }

  lemma PutTwice<Id>(s: Sys<Id>, id: Id, o: Op, o': Op)
    ensures Put(Put(s, id, o), id, o') == Put(s, id, o')
  {
  }

  function HandleWriteSteps<Id>(s: Sys<Id>, id: Id, n: nat): Sys<Id>
    requires id in s.ops && n <= |s.ops[id].output.buf|
  {
    var s2 := Sent(s, id, n);
    var o := s2.ops[id];
    if o.output.buf != [] then s2
    else
      var s3 := Put(s2, id, o.(output := o.output.(on := false)));
      if o.output.end then FdModel.ClearFd(s3, id) else s3
  }

  lemma HandleWriteInSteps<Id>(s: Sys<Id>, id: Id, n: nat)
    requires id in s.ops && n <= |s.ops[id].output.buf|
    ensures FdModel.HandleWrite(s, id, n) == HandleWriteSteps(s, id, n)
  {
    var o := s.ops[id];
    var rest := o.output.buf[n..];
    var mid := o.(output := o.output.(buf := rest));
    var out := mid.output.(on := false);
    if rest == [] {
      PutTwice(s, id, mid, mid.(output := out));
      WakePut(Put(s, id, mid), id, o.path, out);
      if n == 0 { assert mid == o; PutSame(s, id); }
    } else if n == 0 {
      assert mid == o;
      PutSame(s, id);
    }
  }

  class FdOperator {
    var outputBuffer: seq<byte>
    var inputBuffer: seq<byte>
    var readEvent: bool
    var writeEvent: bool
    var fdMode: Mode
    var fileReadFinishCb: bool
    var fileReadEof: bool
    var fileWriteEnd: bool
    var registeredToPoll: bool
    var filePath: string
    var fileReadLength: nat
    /** Whether the kernel has closed the descriptor. */
    var fdClosed: bool
    ghost var paused: bool

    constructor ()
      ensures Unopened()
    {
      inputBuffer, outputBuffer := [], [];
      readEvent, writeEvent := false, false;
      fileReadEof, fileWriteEnd, registeredToPoll, fileReadFinishCb := false, false, false, false;
      fileReadLength, filePath, fdMode := 0, "", ReadMode;
      fdClosed, paused := false, false;
    }

    ghost function View(): Op
      reads this
    {
      Op(filePath, fdMode,
         Inbound(inputBuffer, readEvent, paused, fileReadEof, if fileReadFinishCb then Some(fileReadLength) else None),
         Outbound(outputBuffer, writeEvent, fileWriteEnd), registeredToPoll, fdClosed)
    }

    method EnableReading()
      modifies this`readEvent, this`paused
      ensures View() == FdModel.EnableReading(old(View()))
    {
      readEvent := true;
      paused := false;
    }

    /** `full` is the reason: the buffer reached the high-water mark. */
    method DisableReading(ghost full: bool)
      modifies this`readEvent, this`paused
      ensures !readEvent && paused == full
    {
      readEvent := false;
      paused := full;
    }

    /** StringBuffer::readBuffer on the input buffer. */
    method TakeInput(size: nat) returns (data: seq<byte>)
      modifies this`inputBuffer
      ensures data == Upto(old(inputBuffer), size) && inputBuffer == old(inputBuffer)[|data|..]
    {
      data := Upto(inputBuffer, size);
      inputBuffer := inputBuffer[|data|..];
    }

    /** What the constructor leaves. */
    ghost predicate Unopened()
      reads this
    {
      && !readEvent && !writeEvent && inputBuffer == outputBuffer == []
      && !fileReadEof && !fileWriteEnd && !registeredToPoll && !fileReadFinishCb && !fdClosed && !paused
    }

    /** fd is what `open` returned. */
    method OpenFd(m: FdOperatorManager, path: string, mode: Mode, fd: int, ghost all: set<FdOperator>) returns (ok: bool)
      requires m.RegistersOnly(all) && this !in all && Unopened()
      modifies this, m
      ensures ok <==> fd > 0
      ensures ok ==> m.RegistersOnly(all + {this})
                     && m.Abs(all + {this}) == FdModel.OpenFd(old(m.Abs(all)), this, path, mode)
      ensures !ok ==> m.RegistersOnly(all) && m.Abs(all) == old(m.Abs(all)) && View() == old(View())
    {
      ok := fd > 0;
      if ok {
        ghost var s := m.Abs(all);
        Enter(m, path, mode);
        OneAdded(s, m.Abs(all + {this}), this, path, mode);
      }
    }

    /** An open operator registers on its side and waits for its event. */
    method Enter(m: FdOperatorManager, path: string, mode: Mode)
      requires Unopened()
      modifies this, m
      ensures View() == Fresh(path, mode)
      ensures m.readFdopMap == if mode.ReadMode? then Insert(old(m.readFdopMap), path, this) else old(m.readFdopMap)
      ensures m.writeFdopMap == if mode.ReadMode? then old(m.writeFdopMap) else Insert(old(m.writeFdopMap), path, this)
    {
      filePath := path;
      fdMode := mode;
      if mode == WriteMode || mode == WriteAppend {
        writeEvent := true;
        m.InsertWriteFdop(path, this);
      } else {
        EnableReading();
        m.InsertReadFdop(path, this);
      }
    }

    method RegisterFd(ghost m: FdOperatorManager, ghost all: set<FdOperator>)
      requires m.RegistersOnly(all) && this in all
      modifies this`registeredToPoll
      ensures m.RegistersOnly(all)
      ensures m.Abs(all) == Put(old(m.Abs(all)), this, old(View()).(registered := true))
    {
      ghost var s := m.Abs(all);
      registeredToPoll := true;
      OneChanged(s, m.Abs(all), this);
    }

    method ReadFd(length: nat, ghost m: FdOperatorManager, ghost all: set<FdOperator>) returns (d: Delivery)
      requires m.RegistersOnly(all) && this in all
      modifies this
      ensures m.RegistersOnly(all) && (m.Abs(all), d) == FdModel.ReadFd(old(m.Abs(all)), this, length)
    {
      ghost var s := m.Abs(all);
      d := ReadNow(length);
      OneChanged(s, m.Abs(all), this);
    }

    /** The closure of readFd, which the loop runs once the operator is registered. */
    method ReadNow(length: nat) returns (d: Delivery)
      modifies this
      ensures var (i, delivery) := ReadFdIn(old(View()).input, length);
              View() == old(View()).(input := i) && d == delivery
    {
      var fileContent := TakeInput(length);
      if fileReadEof {
        d := Deliver(fileContent, |inputBuffer| == 0);
      } else if |fileContent| != 0 {
        d := Deliver(fileContent, false);
      } else {
        fileReadLength := length;
        fileReadFinishCb := true;
        d := Silent;
      }
      if |inputBuffer| >= HIGH_WATER {
        EnableReading();
      }
    }

    /** `said` is what the write callback is called with, if it is called. */
    method WriteFd(data: seq<byte>, hasCallback: bool, ghost m: FdOperatorManager, ghost all: set<FdOperator>)
      returns (said: Option<bool>)
      requires m.RegistersOnly(all) && this in all
      modifies this
      ensures m.RegistersOnly(all) && m.Abs(all) == FdModel.WriteFd(old(m.Abs(all)), this, data)
      ensures said == if hasCallback && |old(outputBuffer)| < HIGH_WATER then Some(true) else None
    {
      ghost var s := m.Abs(all);
      said := WriteNow(data, hasCallback);
      OneChanged(s, m.Abs(all), this);
    }

    /** The closure of writeFd. */
    method WriteNow(data: seq<byte>, hasCallback: bool) returns (said: Option<bool>)
      modifies this
      ensures View() == old(View()).(output := WriteFdOut(old(View()).output, data))
      ensures said == if hasCallback && |old(outputBuffer)| < HIGH_WATER then Some(true) else None
    {
      said := None;
      if |outputBuffer| < HIGH_WATER {
        outputBuffer := outputBuffer + data;
        if hasCallback { said := Some(true); }
      }
      if |outputBuffer| > 0 {
        writeEvent := true;
      }
    }

    method HandleRead(m: FdOperatorManager, chunk: seq<byte>, ghost all: set<FdOperator>) returns (d: Delivery)
      requires m.RegistersOnly(all) && this in all
      modifies this
      ensures m.RegistersOnly(all) && (m.Abs(all), d) == FdModel.HandleRead(old(m.Abs(all)), this, chunk)
    {
      ghost var s := m.Abs(all);
      d := ReadEvent(m, chunk);
      OneChanged(s, m.Abs(all), this);
    }

    /** What handleRead does to its own operator. */
    method ReadEvent(m: FdOperatorManager, chunk: seq<byte>) returns (d: Delivery)
      modifies this
      ensures var (i, delivery) := HandleReadIn(old(View()).input, chunk, old(filePath in m.writeFdopMap));
              View() == old(View()).(input := i) && d == delivery
    {
      d := Silent;
      if |inputBuffer| < HIGH_WATER {
        if |chunk| == 0 {
          DisableReading(false);
          var waiting := m.WaitToWrite(filePath);
          if waiting {
            return;
          }
          fileReadEof := true;
        } else {
          Fill(chunk);
        }
        d := FinishRead();
      }
    }

    method Fill(chunk: seq<byte>)
      modifies this
      ensures View() == old(View()).(input := Filled(old(View()).input, chunk))
    {
      inputBuffer := inputBuffer + chunk;
      if |inputBuffer| >= HIGH_WATER {
        DisableReading(true);
      }
    }

    /** The end of handleRead: a waiting callback is called, and forgotten. */
    method FinishRead() returns (d: Delivery)
      modifies this
      ensures var (i, delivery) := FireRead(old(View()).input);
              View() == old(View()).(input := i) && d == delivery
    {
      d := Silent;
      if fileReadFinishCb {
        var fileContent := TakeInput(fileReadLength);
        d := Deliver(fileContent, fileReadEof);
        fileReadFinishCb := false;
      }
    }

    method CloseFd(m: FdOperatorManager, ghost all: set<FdOperator>)
      requires m.RegistersOnly(all) && this in all
      modifies this, m, all
      ensures m.RegistersOnly(all)
      ensures m.Abs(all) == FdModel.CloseFd(old(m.Abs(all)), this)
    {
      if fdMode == WriteMode || fdMode == WriteAppend {
        if |outputBuffer| == 0 {
          ClearFd(m, all);
        } else {
          ghost var s := m.Abs(all);
          fileWriteEnd := true;
          OneChanged(s, m.Abs(all), this);
        }
      } else {
        ClearFd(m, all);
      }
    }

    method ClearFd(m: FdOperatorManager, ghost all: set<FdOperator>)
      requires m.RegistersOnly(all) && this in all
      modifies this, m, all
      ensures m.RegistersOnly(all)
      ensures m.Abs(all) == FdModel.ClearFd(old(m.Abs(all)), this)
    {
      ghost var s := m.Abs(all);
      if fdMode == ReadMode {
        m.EraseReadFdop(filePath, this, all);
        assert m.Abs(all) == s.(readers := Erase(s.readers, s.ops[this].path, this));
      } else {
        m.EraseWriteFdop(filePath, this, all);
        assert m.Abs(all) == FdModel.EraseWriteFdop(s, s.ops[this].path, this);
      }
      ghost var s1 := m.Abs(all);
      Close();
      OneChanged(s1, m.Abs(all), this);
    }

    /** close(fd_), and leaving the poll map. */
    method Close()
      modifies this`fdClosed
      ensures View() == old(View()).(closed := true)
    {
      fdClosed := true;
    }

    /** The output half of handleWrite, first part: what `write` took leaves the buffer. */
    method RetrieveOutput(n: nat)
      requires n <= |outputBuffer|
      modifies this`outputBuffer
      ensures View() == old(View()).(output := old(View()).output.(buf := old(outputBuffer)[n..]))
    {
      outputBuffer := outputBuffer[n..];
    }

    method DisableWriting()
      modifies this`writeEvent
      ensures View() == old(View()).(output := old(View()).output.(on := false))
    {
      writeEvent := false;
    }

    method HandleWrite(m: FdOperatorManager, n: nat, ghost all: set<FdOperator>)
      requires m.RegistersOnly(all) && this in all && n <= |outputBuffer|
      modifies this, m, all
      ensures m.RegistersOnly(all)
      ensures m.Abs(all) == FdModel.HandleWrite(old(m.Abs(all)), this, n)
    {
      ghost var s0 := m.Abs(all);
      if n > 0 {
        RetrieveOutput(n);
        ghost var s1 := m.Abs(all);
        OneChanged(s0, s1, this);
        m.TrigReadEvent(filePath, all);
      }
      ghost var s2 := m.Abs(all);
      assert s2 == Sent(s0, this, n);
      if |outputBuffer| == 0 {
        DisableWriting();
        OneChanged(s2, m.Abs(all), this);
        if fileWriteEnd {
          ClearFd(m, all);
        }
      }
      HandleWriteInSteps(s0, this, n);
    }
  }

  class FdOperatorManager {
    var readFdopMap: map<string, set<FdOperator>>
    var writeFdopMap: map<string, set<FdOperator>>

    constructor ()
      ensures RegistersOnly({}) && Abs({}) == Sys(map[], map[], map[])
    {
      readFdopMap, writeFdopMap := map[], map[];
    }

    ghost predicate RegistersOnly(all: set<FdOperator>)
      reads this
    {
      && (forall p :: p in readFdopMap ==> readFdopMap[p] <= all)
      && (forall p :: p in writeFdopMap ==> writeFdopMap[p] <= all)
    }

    /** The program state of the model: all operators ever opened, and the two maps. */
    ghost function Abs(all: set<FdOperator>): Sys<FdOperator>
      reads this, all
    {
      Sys(map o | o in all :: o.View(), readFdopMap, writeFdopMap)
    }

    method InsertWriteFdop(path: string, op: FdOperator)
      modifies this`writeFdopMap
      ensures writeFdopMap == Insert(old(writeFdopMap), path, op)
    {
      writeFdopMap := Insert(writeFdopMap, path, op);
    }

    method InsertReadFdop(path: string, op: FdOperator)
      modifies this`readFdopMap
      ensures readFdopMap == Insert(old(readFdopMap), path, op)
    {
      readFdopMap := Insert(readFdopMap, path, op);
    }

    method WaitToWrite(path: string) returns (waiting: bool)
      ensures waiting == (path in writeFdopMap)
    {
      waiting := path in writeFdopMap;
    }

    /** The loop of both trigReadEvent and eraseWriteFdop. */
    method TrigReadEvent(path: string, ghost all: set<FdOperator>)
      requires RegistersOnly(all)
      modifies all`readEvent, all`paused
      ensures Abs(all) == Wake(old(Abs(all)), path)
    {
      if path in readFdopMap {
        var todo := readFdopMap[path];
        while todo != {}
          invariant todo <= readFdopMap[path]
          invariant forall o :: o in all ==>
            o.View() == if o in readFdopMap[path] && o !in todo then FdModel.EnableReading(old(o.View())) else old(o.View())
        {
          var item :| item in todo;
          item.EnableReading();
          todo := todo - {item};
        }
      }
    }

    method EraseWriteFdop(path: string, op: FdOperator, ghost all: set<FdOperator>)
      requires RegistersOnly(all)
      modifies this`writeFdopMap, all`readEvent, all`paused
      ensures RegistersOnly(all)
      ensures Abs(all) == FdModel.EraseWriteFdop(old(Abs(all)), path, op)
    {
      ghost var s := Abs(all);
      if path in writeFdopMap {
        writeFdopMap := writeFdopMap[path := writeFdopMap[path] - {op}];
        if writeFdopMap[path] == {} {
          writeFdopMap := writeFdopMap - {path};
          assert writeFdopMap == Erase(s.writers, path, op);
          assert Abs(all) == s.(writers := writeFdopMap);
          TrigReadEvent(path, all);
        } else {
          assert Abs(all) == s.(writers := Erase(s.writers, path, op));
        }
      }
    }

    method EraseReadFdop(path: string, op: FdOperator, ghost all: set<FdOperator>)
      requires RegistersOnly(all)
      modifies this`readFdopMap
      ensures RegistersOnly(all)
      ensures readFdopMap == Erase(old(readFdopMap), path, op)
    {
      if path in readFdopMap {
        readFdopMap := readFdopMap[path := readFdopMap[path] - {op}];
        if |readFdopMap[path]| == 0 {
          readFdopMap := readFdopMap - {path};
        }
      }
    }
  }
}
