/**
 TcpConnection's sending half as an object over its write buffer.  Each method is proved to do
 what module TcpModel says; `sent` and `accepted` are what the buffer consumed and was given.
 */
module TcpConnections {
  import opened Common
  import opened StringBuffers
  import opened TcpModel

  class TcpConnection {
    const writeBuffer: StringBuffer
    /** Write interest of `trantor_pipe_ptr_`. */
    var writing: bool
    var shutdownWriteCallback: Option<Action>
    ghost var ran: seq<Ran>
    /** The number of requests so far, and the one whose action is in the slot. */
    ghost var asked: nat
    ghost var waiting: nat

    ghost predicate Valid()
      reads this, writeBuffer, writeBuffer.buffer
    {
      writeBuffer.Valid() && TcpModel.Valid(View())
    }

    ghost function View(): Conn
      reads this, writeBuffer, writeBuffer.buffer
      requires writeBuffer.Valid()
    {
      Conn(writeBuffer.written, writeBuffer.consumed, writeBuffer.Contents(), writing, Waiting(), ran, asked)
    }

    ghost function Waiting(): Option<Asked>
      reads this
    {
      match shutdownWriteCallback
      case None => None
      case Some(a) => Some(Asked(a, waiting))
    }

    constructor ()
      ensures Valid() && View() == Start && fresh(writeBuffer) && fresh(writeBuffer.buffer)
    {
      writeBuffer := new StringBuffer();
      writing, shutdownWriteCallback := false, None;
      ran, asked, waiting := [], 0, 0;
    }

    method Write(data: seq<byte>)
      requires Valid()
      modifies this, writeBuffer, writeBuffer.buffer
      ensures Valid() && View() == TcpModel.Write(old(View()), data)
      ensures writeBuffer.buffer == old(writeBuffer.buffer) || fresh(writeBuffer.buffer)
    {
      ApplyValid(View(), Accept(data));
      writeBuffer.WriteBuffer(data);
      writing := true;
    }

    /** The socket takes n bytes of the buffer. */
    method WriteCallback(n: nat)
      requires Valid() && writing && n <= |writeBuffer.Contents()|
      modifies this, writeBuffer
      ensures Valid() && View() == TcpModel.WriteCallback(old(View()), n)
    {
      ApplyValid(View(), Writable(n));
      writeBuffer.Retrieve(n);
      if writeBuffer.GetReadableBytes() <= 0 {
        writing := false;
        if shutdownWriteCallback.Some? {
          Perform(shutdownWriteCallback.value, waiting);
          shutdownWriteCallback := None;
        }
      }
    }

    /** The action itself is seen only in the record of what ran. */
    method Perform(a: Action, ghost number: nat)
      requires writeBuffer.Valid()
      modifies this`ran
      ensures View() == TcpModel.Perform(old(View()), Asked(a, number))
    {
      ran := ran + [Ran(Asked(a, number), writeBuffer.written, writeBuffer.consumed)];
    }

    method ShutdownWriteInLoop()
      requires Valid()
      modifies this
      ensures Valid() && View() == Request(old(View()), ShutdownWrite)
    {
      ApplyValid(View(), Ask(ShutdownWrite));
      asked := asked + 1;
      if writeBuffer.GetReadableBytes() > 0 {
        shutdownWriteCallback := Some(ShutdownWrite);
        waiting := asked - 1;
      } else {
        Perform(ShutdownWrite, asked - 1);
      }
    }

    method ForceCloseInLoop()
      requires Valid()
      modifies this
      ensures Valid() && View() == Request(old(View()), Closed)
    {
      ApplyValid(View(), Ask(Closed));
      asked := asked + 1;
      if writeBuffer.GetReadableBytes() > 0 {
        shutdownWriteCallback := Some(Closed);
        waiting := asked - 1;
      } else {
        Perform(Closed, asked - 1);
      }
    }
  }
}
