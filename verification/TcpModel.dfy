/**
 The sending half of TcpConnection as a state: bytes wait in the write buffer while write
 interest is on, and a shutdown or close asked for meanwhile waits until they are sent.
 */
module TcpModel {
  import opened Common

  /** What `shutdown_write_callback_` does: shut the socket's write side, or report the close. */
  datatype Action = ShutdownWrite | Closed

  /** A request for an action; the numbers tell requests for the same action apart. */
  datatype Asked = Asked(action: Action, number: nat)

  /** A request that was carried out, with the bytes accepted and sent by then. */
  datatype Ran = Ran(asked: Asked, accepted: seq<byte>, sent: seq<byte>)

  datatype Conn = Conn(
    accepted: seq<byte>,
    sent: seq<byte>,
    /** The readable bytes of the write buffer. */
    buffer: seq<byte>,
    /** Write interest of the pipe. */
    writing: bool,
    /** `shutdown_write_callback_` */
    pending: Option<Asked>,
    ran: seq<Ran>,
    /** The number of requests so far. */
    asked: nat)

  const Start := Conn([], [], [], false, None, [], 0)

  /** write */
  function Write(c: Conn, data: seq<byte>): Conn {
    c.(accepted := c.accepted + data, buffer := c.buffer + data, writing := true)
  }

  function Perform(c: Conn, q: Asked): Conn {
    c.(ran := c.ran + [Ran(q, c.accepted, c.sent)])
  }

  /** writeCallback, when the socket takes n bytes. */
  function WriteCallback(c: Conn, n: nat): Conn
    requires n <= |c.buffer|
  {
    var d := c.(sent := c.sent + c.buffer[..n], buffer := c.buffer[n..]);
    if d.buffer != [] then d
    else match d.pending
      case None => d.(writing := false)
      case Some(q) => Perform(d.(writing := false), q).(pending := None)
  }

  /** shutdownWriteInLoop and forceCloseInLoop, which share the pending slot. */
  function Request(c: Conn, a: Action): Conn {
    var q, d := Asked(a, c.asked), c.(asked := c.asked + 1);
    if c.buffer != [] then d.(pending := Some(q)) else Perform(d, q)
  }

  datatype Op = Accept(data: seq<byte>) | Writable(n: nat) | Ask(action: Action)

  /** A write event comes only with write interest on. */
  predicate Enabled(c: Conn, op: Op) {
    op.Writable? ==> c.writing && op.n <= |c.buffer|
  }

  function Apply(c: Conn, op: Op): Conn
    requires Enabled(c, op)
  {
    match op
    case Accept(data) => Write(c, data)
    case Writable(n) => WriteCallback(c, n)
    case Ask(a) => Request(c, a)
  }

  predicate Legal(c: Conn, ops: seq<Op>)
    decreases |ops|
  {
    ops == [] || (Enabled(c, ops[0]) && Legal(Apply(c, ops[0]), ops[1..]))
  }

  function Run(c: Conn, ops: seq<Op>): Conn
    requires Legal(c, ops)
    decreases |ops|
  {
    if ops == [] then c else Run(Apply(c, ops[0]), ops[1..])
  }

  /** An action ran only when everything accepted so far had been sent. */
  predicate Drained(ran: seq<Ran>) {
    forall k :: 0 <= k < |ran| ==> ran[k].sent == ran[k].accepted
  }

  /** Requests are carried out in the order of their numbers, each at most once. */
  predicate Numbered(c: Conn) {
    && (forall j, k :: 0 <= j < k < |c.ran| ==> c.ran[j].asked.number < c.ran[k].asked.number)
    && (forall k :: 0 <= k < |c.ran| ==> c.ran[k].asked.number < if c.pending.Some? then c.pending.value.number else c.asked)
    && (c.pending.Some? ==> c.pending.value.number < c.asked)
  }

  predicate Valid(c: Conn) {
    && c.sent + c.buffer == c.accepted
    && (c.buffer != [] ==> c.writing)
    && (c.pending.Some? ==> c.buffer != [])
    && Drained(c.ran) && Numbered(c)
  }

  lemma ApplyValid(c: Conn, op: Op)
    requires Valid(c) && Enabled(c, op)
    ensures Valid(Apply(c, op)) && c.sent <= Apply(c, op).sent && c.accepted <= Apply(c, op).accepted
  {
    if op.Writable? {
      assert c.sent + c.buffer[..op.n] + c.buffer[op.n..] == c.sent + c.buffer;
    }
  }

  /** Over every run: no byte lost or reordered, no drain left without write interest, no early close. */
  lemma {:induction false} RunValid(c: Conn, ops: seq<Op>)
    requires Valid(c) && Legal(c, ops)
    ensures Valid(Run(c, ops)) && c.sent <= Run(c, ops).sent && c.accepted <= Run(c, ops).accepted
    decreases |ops|
  {
    if ops != [] {
      ApplyValid(c, ops[0]);
      RunValid(Apply(c, ops[0]), ops[1..]);
    }
  }

  // --- The bytes the caller gave ------------------------------------------------------------------

  /** The bytes a run gives to write, by its operations alone. */
  function Data(ops: seq<Op>): seq<byte> {
    if ops == [] then [] else (if ops[0].Accept? then ops[0].data else []) + Data(ops[1..])
  }

  /** The bytes the write events of a run send. */
  function Sent(ops: seq<Op>): nat {
    if ops == [] then 0 else (if ops[0].Writable? then ops[0].n else 0) + Sent(ops[1..])
  }

  lemma {:induction false} RunBytes(c: Conn, ops: seq<Op>)
    requires Legal(c, ops)
    ensures Run(c, ops).accepted == c.accepted + Data(ops) && |Run(c, ops).sent| == |c.sent| + Sent(ops)
    decreases |ops|
  {
    if ops != [] {
      RunBytes(Apply(c, ops[0]), ops[1..]);
      if ops[0].Accept? { Regroup(c.accepted, ops[0].data, Data(ops[1..])); }
    }
  }

  /** In every run all that was given to write is sent or waits, in order: the write events have sent the front of it. */
  lemma AllData(ops: seq<Op>)
    requires Legal(Start, ops)
    ensures var c := Run(Start, ops);
            && Sent(ops) <= |Data(ops)|
            && c.sent == Data(ops)[..Sent(ops)] && c.buffer == Data(ops)[Sent(ops)..]
  {
    FromStart(ops);
    var c := Run(Start, ops);
    assert (c.sent + c.buffer)[..|c.sent|] == c.sent && (c.sent + c.buffer)[|c.sent|..] == c.buffer;
  }

  lemma FromStart(ops: seq<Op>)
    requires Legal(Start, ops)
    ensures var c := Run(Start, ops); Valid(c) && c.accepted == Data(ops) && |c.sent| == Sent(ops)
  {
    RunBytes(Start, ops);
    RunValid(Start, ops);
    assert [] + Data(ops) == Data(ops);
  }

  /**
   In every run an operation carries out a request only when everything given to write up to then
   has been sent.
   */
  lemma RanAfterData(ops: seq<Op>, op: Op)
    requires Legal(Start, ops) && Enabled(Run(Start, ops), op)
    ensures var c, d := Run(Start, ops), Apply(Run(Start, ops), op);
            |d.ran| != |c.ran| ==>
              d.buffer == [] && d.sent == Data(ops) && d.ran == c.ran + [Ran(d.ran[|c.ran|].asked, Data(ops), Data(ops))]
  {
    FromStart(ops);
    var c, d := Run(Start, ops), Apply(Run(Start, ops), op);
    ApplyValid(c, op);
    assert d.buffer == [] ==> d.sent == d.sent + d.buffer;
  }

  // --- What becomes of a request -----------------------------------------------------------------

  predicate Done(c: Conn, q: Asked) {
    exists k :: 0 <= k < |c.ran| && c.ran[k].asked == q
  }

  /** It waits in the slot, or has been carried out. */
  predicate Served(c: Conn, q: Asked) {
    c.pending == Some(q) || Done(c, q)
  }

  /** A waiting request is discarded by a step exactly if that step is another request. */
  lemma DiscardedIff(c: Conn, op: Op, q: Asked)
    requires Valid(c) && c.pending == Some(q) && Enabled(c, op)
    ensures !Served(Apply(c, op), q) <==> op.Ask?
  {
    var d := Apply(c, op);
    ApplyValid(c, op);
    if op.Writable? && d.pending == None {
      assert d.ran[|c.ran|].asked == q;
    }
    if op.Ask? {
      assert forall k :: 0 <= k < |d.ran| ==> d.ran[k].asked.number < d.pending.value.number;
      assert !Done(c, q);
    }
  }

  /** By the action alone: what the slot holds is lost exactly if the other action is asked for. */
  lemma ActionLostIff(c: Conn, op: Op)
    requires Valid(c) && c.pending.Some? && Enabled(c, op)
    ensures var d := Apply(c, op);
            d.ran == c.ran && (d.pending.None? || d.pending.value.action != c.pending.value.action)
            <==> op.Ask? && op.action != c.pending.value.action
  {
    if op.Writable? { assert |WriteCallback(c, op.n).ran| == |c.ran| + if op.n == |c.buffer| then 1 else 0; }
  }

  /** Another request comes before the first state with an empty buffer. */
  predicate Overtaken(c: Conn, ops: seq<Op>)
    requires Legal(c, ops)
    decreases |ops|
  {
    ops != [] && c.buffer != [] && (ops[0].Ask? || Overtaken(Apply(c, ops[0]), ops[1..]))
  }

  lemma {:induction false} OvertakenIff(c: Conn, ops: seq<Op>)
    requires Legal(c, ops)
    ensures Overtaken(c, ops) <==>
              exists k :: 0 <= k < |ops| && ops[k].Ask? && forall j :: 0 <= j <= k ==> Legal(c, ops[..j]) && Run(c, ops[..j]).buffer != []
    decreases |ops|
  {
    if ops != [] {
      var d, rest := Apply(c, ops[0]), ops[1..];
      OvertakenIff(d, rest);
      assert forall j :: 0 <= j <= |rest| ==> ops[..j + 1][1..] == rest[..j];
      if Overtaken(c, ops) {
        if ops[0].Ask? {
          assert ops[..0] == [];
        } else {
          var k :| 0 <= k < |rest| && rest[k].Ask? && forall j :: 0 <= j <= k ==> Legal(d, rest[..j]) && Run(d, rest[..j]).buffer != [];
          forall j | 0 <= j <= k + 1 ensures Legal(c, ops[..j]) && Run(c, ops[..j]).buffer != [] {
            if j > 0 { assert ops[..j][1..] == rest[..j - 1]; }
          }
          assert ops[k + 1].Ask?;
        }
      }
      if k :| 0 <= k < |ops| && ops[k].Ask? && forall j :: 0 <= j <= k ==> Legal(c, ops[..j]) && Run(c, ops[..j]).buffer != [] {
        assert Run(c, ops[..0]) == c;
        if k > 0 {
          assert rest[k - 1].Ask?;
          forall j | 0 <= j <= k - 1 ensures Legal(d, rest[..j]) && Run(d, rest[..j]).buffer != [] {
            assert ops[..j + 1][1..] == rest[..j];
            assert Legal(c, ops[..j + 1]) && Run(c, ops[..j + 1]).buffer != [];
          }
        }
      }
    }
  }

  lemma DoneStays(c: Conn, op: Op, q: Asked)
    requires Enabled(c, op) && Done(c, q)
    ensures Done(Apply(c, op), q)
  {
    var k :| 0 <= k < |c.ran| && c.ran[k].asked == q;
    assert Apply(c, op).ran[k] == c.ran[k];
  }

  lemma {:induction false} DoneForGood(c: Conn, ops: seq<Op>, q: Asked)
    requires Legal(c, ops) && Done(c, q)
    ensures Done(Run(c, ops), q)
    decreases |ops|
  {
    if ops != [] {
      DoneStays(c, ops[0], q);
      DoneForGood(Apply(c, ops[0]), ops[1..], q);
    }
  }

  lemma GoneStays(c: Conn, op: Op, q: Asked)
    requires Valid(c) && Enabled(c, op) && q.number < c.asked && !Served(c, q)
    ensures !Served(Apply(c, op), q) && q.number < Apply(c, op).asked
  {
    var d := Apply(c, op);
    forall k | 0 <= k < |d.ran| ensures d.ran[k].asked != q {
      if k < |c.ran| { assert d.ran[k] == c.ran[k]; }
    }
  }

  lemma {:induction false} GoneForGood(c: Conn, ops: seq<Op>, q: Asked)
    requires Valid(c) && Legal(c, ops) && q.number < c.asked && !Served(c, q)
    ensures !Served(Run(c, ops), q)
    decreases |ops|
  {
    if ops != [] {
      ApplyValid(c, ops[0]);
      GoneStays(c, ops[0], q);
      GoneForGood(Apply(c, ops[0]), ops[1..], q);
    }
  }

  /**
   Over every run a waiting request is carried out, or still waits, exactly if no other request
   comes before the first state with an empty buffer.
   */
  lemma {:induction false} WaitingServedIff(c: Conn, ops: seq<Op>, q: Asked)
    requires Valid(c) && c.pending == Some(q) && Legal(c, ops)
    ensures Served(Run(c, ops), q) <==> !Overtaken(c, ops)
    decreases |ops|
  {
    if ops != [] {
      var d := Apply(c, ops[0]);
      ApplyValid(c, ops[0]);
      DiscardedIff(c, ops[0], q);
      if ops[0].Ask? {
        GoneForGood(d, ops[1..], q);
      } else if d.pending == Some(q) {
        WaitingServedIff(d, ops[1..], q);
      } else {
        DoneForGood(d, ops[1..], q);
      }
    }
  }

  /**
   So a request is lost exactly if it had to wait and another comes before the buffer is empty;
   and whatever waits at the end of a run waits for bytes.
   */
  lemma RequestServedIff(c: Conn, a: Action, ops: seq<Op>)
    requires Valid(c) && Legal(Request(c, a), ops)
    ensures var d := Run(Request(c, a), ops);
            && (Served(d, Asked(a, c.asked)) <==> c.buffer == [] || !Overtaken(Request(c, a), ops))
            && (d.pending.Some? ==> d.buffer != [])
  {
    var d, q := Request(c, a), Asked(a, c.asked);
    ApplyValid(c, Ask(a));
    RunValid(d, ops);
    if c.buffer == [] {
      assert d.ran[|c.ran|].asked == q;
      DoneForGood(d, ops, q);
    } else {
      WaitingServedIff(d, ops, q);
    }
  }

  /** It happens: a shutdown waits for a byte, a close takes its place, and only the close is reported. */
  lemma LostWitness(data: byte)
    ensures var ops := [Accept([data]), Ask(ShutdownWrite), Ask(Closed), Writable(1)];
            && Legal(Start, ops) && Run(Start, ops).ran == [Ran(Asked(Closed, 1), [data], [data])]
            && !Served(Run(Start, ops), Asked(ShutdownWrite, 0))
  {
    var ops := [Accept([data]), Ask(ShutdownWrite), Ask(Closed), Writable(1)];
    var c1 := Conn([data], [], [data], true, None, [], 0);
    var c2 := c1.(pending := Some(Asked(ShutdownWrite, 0)), asked := 1);
    var c3 := c1.(pending := Some(Asked(Closed, 1)), asked := 2);
    var c4 := Conn([data], [data], [], false, None, [Ran(Asked(Closed, 1), [data], [data])], 2);
    assert Apply(Start, ops[0]) == c1 && Apply(c1, ops[1]) == c2 && Apply(c2, ops[2]) == c3;
    assert [data][..1] == [data] && Apply(c3, ops[3]) == c4;
    OneOp(c3, ops[3], [], c4);
    OneOp(c2, ops[2], [ops[3]], c4);
    OneOp(c1, ops[1], [ops[2], ops[3]], c4);
    OneOp(Start, ops[0], [ops[1], ops[2], ops[3]], c4);
    assert ops == [ops[0]] + [ops[1], ops[2], ops[3]] && [ops[3]] + [] == [ops[3]];
    assert [ops[1]] + [ops[2], ops[3]] == [ops[1], ops[2], ops[3]] && [ops[2]] + [ops[3]] == [ops[2], ops[3]];
  }

  lemma OneOp(c: Conn, op: Op, ops: seq<Op>, end: Conn)
    requires Enabled(c, op) && Legal(Apply(c, op), ops) && Run(Apply(c, op), ops) == end
    ensures Legal(c, [op] + ops) && Run(c, [op] + ops) == end
  {
    assert ([op] + ops)[1..] == ops;
  }

  /** No request is carried out twice. */
  lemma AtMostOnce(c: Conn, ops: seq<Op>, j: nat, k: nat)
    requires Valid(c) && Legal(c, ops) && j < |Run(c, ops).ran| && k < |Run(c, ops).ran|
    requires Run(c, ops).ran[j].asked == Run(c, ops).ran[k].asked
    ensures j == k
  {
    RunValid(c, ops);
  }

  // --- Draining ----------------------------------------------------------------------------------

  /** How many write events of a run send something. */
  function Writes(ops: seq<Op>): nat {
    if ops == [] then 0 else (if ops[0].Writable? && ops[0].n > 0 then 1 else 0) + Writes(ops[1..])
  }

  lemma DrainStep(c: Conn, op: Op)
    requires Enabled(c, op) && !op.Accept?
    ensures var d, n := Apply(c, op), Sent([op]);
            && n <= |c.buffer| && d.buffer == c.buffer[n..] && d.accepted == c.accepted
            && (c.buffer != [] && d.buffer == [] ==> !d.writing) && (!c.writing ==> !d.writing)
  {
    assert [op][1..] == [] && Sent([]) == 0;
  }

  lemma {:induction false} WritesSend(ops: seq<Op>)
    ensures Writes(ops) <= Sent(ops)
  {
    if ops != [] { WritesSend(ops[1..]); }
  }

  /**
   Once input stops, whatever is requested and however little each write event sends: the buffer
   shrinks from the front by exactly what they send, so at most as many of them send something as
   it has bytes; and when it is empty everything accepted has been sent, no request waits, and
   write interest is off if there was anything to send.
   */
  lemma {:induction false} DrainEnds(c: Conn, ops: seq<Op>)
    requires Valid(c) && Legal(c, ops) && forall k :: 0 <= k < |ops| ==> !ops[k].Accept?
    ensures Writes(ops) <= Sent(ops) <= |c.buffer|
    ensures var d := Run(c, ops);
            && d.buffer == c.buffer[Sent(ops)..] && d.accepted == c.accepted
            && (d.buffer == [] ==> d.sent == c.accepted && d.pending == None)
            && (d.buffer == [] && (c.buffer != [] || !c.writing) ==> !d.writing)
    decreases |ops|
  {
    WritesSend(ops);
    if ops != [] {
      var d := Apply(c, ops[0]);
      assert [ops[0]][1..] == [] && Sent([ops[0]]) == if ops[0].Writable? then ops[0].n else 0;
      DrainStep(c, ops[0]);
      ApplyValid(c, ops[0]);
      DrainEnds(d, ops[1..]);
    }
  }

  /** And it can go on: while bytes wait a write event is possible, for any number of them. */
  lemma CanDrain(c: Conn, n: nat)
    requires Valid(c) && c.buffer != [] && n <= |c.buffer|
    ensures Enabled(c, Writable(n))
  {
  }
}
