/** Asynchronous transmission: a 4096-byte circular buffer that behaves as a byte queue of
    capacity 4095, drained into the transmit FIFO, with a priority character that jumps the queue.
 */
module AsyncQueue {
  import opened Cyclic
  import opened RxRing

  const XMIT_SIZE: nat := 4096

  /** What goes into the transmit FIFO. */
  datatype Out = Data(b: byte) | Priority(x: byte)

  /** The queue, the pending priority character (0 for none), and the history: the data accepted,
      the priority characters asked for and not overwritten by a later request, and what has gone
      into the FIFO. */
  datatype Queue = Queue(items: seq<byte>, xchar: byte, accepted: seq<byte>, asked: seq<byte>, emitted: seq<Out>)

  function Room(q: Queue): int {
    XMIT_SIZE - |q.items| - 1
  }

  function Min(a: int, b: int): int {
    if a < b then a else b
  }

  function Append(q: Queue, bytes: seq<byte>): Queue {
    q.(items := q.items + bytes, accepted := q.accepted + bytes)
  }

  /** Appending in pieces is appending the whole. */
  lemma AppendMore(q: Queue, bytes: seq<byte>, k: nat, c: nat)
    requires k + c <= |bytes|
    ensures Append(Append(q, bytes[..k]), bytes[k..k + c]) == Append(q, bytes[..k + c])
  {
    assert bytes[..k] + bytes[k..k + c] == bytes[..k + c];
  }

  /** A write takes as many bytes as there is room for. */
  function Accept(q: Queue, bytes: seq<byte>): Queue
    requires Room(q) >= 0
  {
    Append(q, bytes[..Min(|bytes|, Room(q))])
  }

  function Outs(bytes: seq<byte>): (o: seq<Out>)
    ensures |o| == |bytes| && forall i :: 0 <= i < |o| ==> o[i] == Data(bytes[i])
  {
    seq(|bytes|, i requires 0 <= i < |bytes| => Data(bytes[i]))
  }

  function Emit(q: Queue, k: nat): Queue
    requires k <= |q.items|
  {
    q.(items := q.items[k..], emitted := q.emitted + Outs(q.items[..k]))
  }

  function One(x: byte): seq<byte> {
    if x != 0 then [x] else []
  }

  /** A request for a priority character. One that is still pending is overwritten; 0 takes it back. */
  function AskPriority(q: Queue, x: byte): Queue {
    var before := if q.xchar != 0 && q.asked != [] then q.asked[..|q.asked| - 1] else q.asked;
    q.(xchar := x, asked := before + One(x))
  }

  /** One turn of the FIFO loading loop, with `room` free FIFO places. */
  function LoadOnce(q: Queue, room: nat): Queue
    requires room > 0 && q.items != []
  {
    if |q.items| > 1 && room > 1 && q.xchar == 0 then Emit(q, 2)
    else if q.xchar != 0 then q.(xchar := 0, emitted := q.emitted + [Priority(q.xchar)])
    else Emit(q, 1)
  }

  /** The FIFO loading loop; `rooms` are the successive readings of free FIFO places. */
  function LoadFifo(q: Queue, rooms: seq<nat>): Queue
    decreases |rooms|
  {
    if rooms == [] || rooms[0] == 0 || q.items == [] then q
    else LoadFifo(LoadOnce(q, rooms[0]), rooms[1..])
  }

  // ----- every run between flushes -----

  datatype Action = PutChar(ch: byte) | WriteBytes(bytes: seq<byte>) | SendXchar(x: byte) | FifoIrq(rooms: seq<nat>)

  function Step(q: Queue, a: Action): Queue
    requires Room(q) >= 0
  {
    match a
    case PutChar(ch) => Accept(q, [ch])
    case WriteBytes(bytes) => Accept(q, bytes)
    case SendXchar(x) => AskPriority(q, x)
    case FifoIrq(rooms) => LoadFifo(q, rooms)
  }

  /** The emitted stream without its priority characters. */
  function DataOf(outs: seq<Out>): seq<byte> {
    if outs == [] then []
    else
      var last := outs[|outs| - 1];
      DataOf(outs[..|outs| - 1]) + if last.Data? then [last.b] else []
  }

  /** The priority characters of the emitted stream. */
  function PriorityOf(outs: seq<Out>): seq<byte> {
    if outs == [] then []
    else
      var last := outs[|outs| - 1];
      PriorityOf(outs[..|outs| - 1]) + if last.Priority? then [last.x] else []
  }

  /** Accepted data is emitted data, then the queue; priority characters asked for are those
      emitted, then the pending one. */
  ghost predicate Inv(q: Queue) {
    && Room(q) >= 0
    && q.accepted == DataOf(q.emitted) + q.items
    && q.asked == PriorityOf(q.emitted) + One(q.xchar)
  }

  lemma {:induction false} DataOfOuts(outs: seq<Out>, bytes: seq<byte>)
    ensures DataOf(outs + Outs(bytes)) == DataOf(outs) + bytes
    decreases |bytes|
  {
    var all := outs + Outs(bytes);
    if bytes == [] {
      assert all == outs;
    } else {
      var k := |bytes| - 1;
      assert all[..|all| - 1] == outs + Outs(bytes[..k]);
      DataOfOuts(outs, bytes[..k]);
    }
  }

  lemma {:induction false} PriorityOfOuts(outs: seq<Out>, bytes: seq<byte>)
    ensures PriorityOf(outs + Outs(bytes)) == PriorityOf(outs)
    decreases |bytes|
  {
    var all := outs + Outs(bytes);
    if bytes == [] {
      assert all == outs;
    } else {
      var k := |bytes| - 1;
      assert all[..|all| - 1] == outs + Outs(bytes[..k]);
      PriorityOfOuts(outs, bytes[..k]);
    }
  }

  lemma EmitKeeps(q: Queue, k: nat)
    requires Inv(q) && k <= |q.items|
    ensures Inv(Emit(q, k))
  {
    DataOfOuts(q.emitted, q.items[..k]);
    PriorityOfOuts(q.emitted, q.items[..k]);
  }

  lemma PriorityKeeps(q: Queue)
    requires Inv(q) && q.xchar != 0
    ensures Inv(q.(xchar := 0, emitted := q.emitted + [Priority(q.xchar)]))
  {
    var all := q.emitted + [Priority(q.xchar)];
    assert all[..|all| - 1] == q.emitted;
    assert q.asked + [] == q.asked;
  }

  lemma AskKeeps(q: Queue, x: byte)
    requires Inv(q)
    ensures Inv(AskPriority(q, x))
  {
    if q.xchar != 0 { assert q.asked[..|q.asked| - 1] == PriorityOf(q.emitted); }
  }

  lemma {:induction false} LoadKeeps(q: Queue, rooms: seq<nat>)
    requires Inv(q)
    ensures Inv(LoadFifo(q, rooms))
    decreases |rooms|
  {
    if rooms != [] && rooms[0] != 0 && q.items != [] {
      var q' := LoadOnce(q, rooms[0]);
      if |q.items| > 1 && rooms[0] > 1 && q.xchar == 0 { EmitKeeps(q, 2); }
      else if q.xchar != 0 { PriorityKeeps(q); }
      else { EmitKeeps(q, 1); }
      LoadKeeps(q', rooms[1..]);
    }
  }

  lemma StepKeeps(q: Queue, a: Action)
    requires Inv(q)
    ensures Inv(Step(q, a))
  {
    match a
    case FifoIrq(rooms) => LoadKeeps(q, rooms);
    case SendXchar(x) => AskKeeps(q, x);
    case PutChar(_) =>
    case WriteBytes(_) =>
  }

  ghost function Run(q: Queue, actions: seq<Action>): (q': Queue)
    requires Inv(q)
    ensures Inv(q')
    decreases |actions|
  {
    if actions == [] then q
    else
      StepKeeps(q, actions[0]);
      Run(Step(q, actions[0]), actions[1..])
  }

  /** Over any run between flushes the emitted data is a prefix of the accepted data, what
      separates them is what the queue holds, and that is never more than 4095 bytes. The priority
      characters emitted are exactly those asked for and not overwritten, but for a pending one. */
  lemma EmittedIsPrefix(q: Queue, actions: seq<Action>)
    requires q.items == [] && q.accepted == [] && q.emitted == [] && q.xchar == 0 && q.asked == []
    ensures Inv(q)
    ensures var q' := Run(q, actions);
            && DataOf(q'.emitted) <= q'.accepted && |q'.items| <= XMIT_SIZE - 1
            && q'.accepted[|DataOf(q'.emitted)|..] == q'.items
            && q'.asked == PriorityOf(q'.emitted) + if q'.xchar != 0 then [q'.xchar] else []
  {
  }

  // ----- what single steps do -----

  /** A write or a put character adds as much as there is room for, and touches nothing else. */
  lemma AcceptEffect(q: Queue, bytes: seq<byte>)
    requires |q.items| <= 4095
    ensures var q' := Step(q, WriteBytes(bytes));
            var k := if |bytes| <= 4095 - |q.items| then |bytes| else 4095 - |q.items|;
            && q'.items == q.items + bytes[..k] && q'.accepted == q.accepted + bytes[..k]
            && q'.emitted == q.emitted && q'.xchar == q.xchar && q'.asked == q.asked
    ensures |bytes| == 1 ==> Step(q, PutChar(bytes[0])) == Step(q, WriteBytes(bytes))
  {
    if |bytes| == 1 { assert bytes == [bytes[0]]; }
  }

  /** A request makes the character the pending one. */
  lemma AskEffect(q: Queue, x: byte)
    requires Room(q) >= 0
    ensures var q' := Step(q, SendXchar(x)); q'.xchar == x && q'.items == q.items && q'.emitted == q.emitted
  {
  }

  lemma {:induction false} LoadAppends(q: Queue, rooms: seq<nat>)
    ensures q.emitted <= LoadFifo(q, rooms).emitted
    ensures q.xchar == 0 ==> LoadFifo(q, rooms).xchar == 0
    decreases |rooms|
  {
    if rooms != [] && rooms[0] != 0 && q.items != [] { LoadAppends(LoadOnce(q, rooms[0]), rooms[1..]); }
  }

  /** A pending priority character goes out before any data as soon as the FIFO has a place, if
      data is queued. */
  lemma PriorityFirst(q: Queue, rooms: seq<nat>)
    requires q.xchar != 0 && q.items != [] && rooms != [] && rooms[0] > 0
    ensures var q' := LoadFifo(q, rooms);
            && |q'.emitted| > |q.emitted| && q.emitted <= q'.emitted
            && q'.emitted[|q.emitted|] == Priority(q.xchar) && q'.xchar == 0
  {
    LoadAppends(LoadOnce(q, rooms[0]), rooms[1..]);
  }

  /** With no data queued it is not sent at all. */
  lemma PriorityWaitsForData(q: Queue, rooms: seq<nat>)
    requires q.items == []
    ensures LoadFifo(q, rooms) == q
  {
  }

  /** Otherwise one reading of free places sends two bytes if there are two of both, and one if not. */
  lemma OneReading(q: Queue, room: nat)
    requires q.xchar == 0 && q.items != [] && room > 0
    ensures var q', k := LoadFifo(q, [room]), if |q.items| >= 2 && room >= 2 then 2 else 1;
            q'.items == q.items[k..] && q'.emitted == q.emitted + Outs(q.items[..k])
  {
    assert [room][1..] == [];
  }

  /** The loop stops early only when the FIFO is full or the queue empty: as many readings above 0
      as there are bytes, and one more for the priority character, empty the queue. */
  lemma {:induction false} LoadDrains(q: Queue, rooms: seq<nat>)
    requires |rooms| >= |q.items| + |One(q.xchar)| && forall i :: 0 <= i < |rooms| ==> rooms[i] > 0
    ensures LoadFifo(q, rooms).items == []
    decreases |rooms|
  {
    if q.items != [] { LoadDrains(LoadOnce(q, rooms[0]), rooms[1..]); }
  }

  // ----- the circular buffer -----

  class AsyncTransmitter {
    const buf: array<byte>
    var head: nat
    var tail: nat
    var cnt: nat
    var xchar: byte
    ghost var accepted: seq<byte>
    ghost var asked: seq<byte>
    ghost var emitted: seq<Out>

    /** The head is always the tail plus the count, modulo the buffer size. */
    ghost predicate Valid()
      reads this
    {
      && buf.Length == XMIT_SIZE && tail < XMIT_SIZE && cnt < XMIT_SIZE
      && head == At(tail, cnt, XMIT_SIZE)
    }

    ghost function Contents(): (s: seq<byte>)
      requires Valid()
      reads this, buf
      ensures |s| == cnt
    {
      seq(cnt, k requires 0 <= k < cnt && Valid() reads this, buf =>
        buf[At(tail, k, XMIT_SIZE)])
    }

    ghost function State(): Queue
      requires Valid()
      reads this, buf
    {
      Queue(Contents(), xchar, accepted, asked, emitted)
    }

    constructor ()
      ensures Valid() && fresh(buf) && State() == Queue([], 0, [], [], [])
    {
      buf := new byte[XMIT_SIZE](_ => 0);
      head, tail, cnt, xchar := 0, 0, 0, 0;
      accepted, asked, emitted := [], [], [];
    }

    method PutChar(ch: byte) returns (ret: nat)
      requires Valid()
      modifies this, buf
      ensures Valid() && State() == Accept(old(State()), [ch])
      ensures ret == Min(1, Room(old(State())))
    {
      ret := 0;
      if cnt < XMIT_SIZE - 1 {
        buf[head] := ch;
        head := (head + 1) % XMIT_SIZE;
        cnt := cnt + 1;
        accepted := accepted + [ch];
        ret := 1;
      }
      assert Contents() == old(Contents()) + [ch][..ret];
    }

    /** Copies at most up to the end of the buffer. */
    method CopyIn(bytes: seq<byte>)
      requires Valid() && |bytes| <= XMIT_SIZE - cnt - 1 && |bytes| <= XMIT_SIZE - head
      modifies this, buf
      ensures Valid() && State() == Append(old(State()), bytes)
    {
      var c := |bytes|;
      forall i | 0 <= i < c {
        buf[head + i] := bytes[i];
      }
      head := (head + c) % XMIT_SIZE;
      cnt := cnt + c;
      accepted := accepted + bytes;
      assert Contents() == old(Contents()) + bytes;
    }

    /** The asynchronous write loop: it accepts exactly as many bytes as there is room for. */
    method Write(bytes: seq<byte>) returns (ret: nat)
      requires Valid()
      modifies this, buf
      ensures Valid() && State() == Accept(old(State()), bytes)
      ensures ret == Min(|bytes|, Room(old(State())))
    {
      ret := 0;
      ghost var q := State();
      while true
        invariant Valid() && ret <= |bytes| && ret <= Room(q)
        invariant State() == Append(q, bytes[..ret])
        decreases |bytes| - ret
      {
        var c := Min(|bytes| - ret, Min(XMIT_SIZE - cnt - 1, XMIT_SIZE - head));
        if c <= 0 { break; }
        CopyIn(bytes[ret..ret + c]);
        AppendMore(q, bytes, ret, c);
        ret := ret + c;
      }
    }

    /** Asks for a priority character, or with 0 takes the request back. */
    method SendXchar(ch: byte)
      requires Valid()
      modifies `xchar, `asked
      ensures Valid() && State() == AskPriority(old(State()), ch) && xchar == ch
    {
      asked := AskPriority(State(), ch).asked;
      xchar := ch;
    }

    /** Takes one byte from the tail. */
    method TakeByte() returns (b: byte)
      requires Valid() && cnt > 0
      modifies `tail, `cnt, `emitted
      ensures Valid() && State() == Emit(old(State()), 1) && b == old(Contents())[0]
    {
      b := buf[tail];
      tail := (tail + 1) % XMIT_SIZE;
      cnt := cnt - 1;
      emitted := emitted + Outs([b]);
      assert Contents() == old(Contents())[1..];
      assert old(Contents())[..1] == [b];
    }

    method LoadTxFifo(rooms: seq<nat>)
      requires Valid()
      modifies `tail, `cnt, `xchar, `emitted
      ensures Valid() && State() == LoadFifo(old(State()), rooms)
    {
      var i := 0;
      ghost var q := State();
      while i < |rooms| && rooms[i] != 0 && cnt != 0
        invariant Valid() && i <= |rooms|
        invariant LoadFifo(State(), rooms[i..]) == LoadFifo(q, rooms)
      {
        ghost var before := State();
        if cnt > 1 && rooms[i] > 1 && xchar == 0 {
          var b0 := TakeByte();
          var b1 := TakeByte();
          EmitTwo(before);
        } else if xchar != 0 {
          emitted := emitted + [Priority(xchar)];
          xchar := 0;
        } else {
          var b := TakeByte();
        }
        assert State() == LoadOnce(before, rooms[i]);
        assert rooms[i..][1..] == rooms[i + 1..];
        i := i + 1;
      }
    }
  }

  lemma EmitTwo(q: Queue)
    requires |q.items| > 1
    ensures Emit(Emit(q, 1), 1) == Emit(q, 2)
  {
    assert q.items[1..][1..] == q.items[2..];
    assert Outs(q.items[..1]) + Outs(q.items[1..][..1]) == Outs(q.items[..2]);
  }
}
