/** A frame loaded into the transmit ring, sent, received and extracted comes back unchanged. */
module RoundTrip {
  import opened Cyclic
  import opened RxRing
  import opened RxRuns
  import opened RxInvariant
  import opened TxRing
  import opened Layout
  import opened TxLinks

  /** Bytes of `bytes` from `at` on, handed over by the device one buffer at a time. */
  function Extends(bytes: seq<byte>, at: nat): (actions: seq<Action>)
    requires at <= |bytes|
    decreases |bytes| - at
  {
    if at == |bytes| then []
    else if |bytes| - at <= BUFFER_SIZE then [Extend(bytes[at..])]
    else [Extend(bytes[at..at + BUFFER_SIZE])] + Extends(bytes, at + BUFFER_SIZE)
  }

  /** The device steps by which one frame arrives. */
  function Arrival(bytes: seq<byte>, status: bv16): seq<Action> {
    var first := if |bytes| <= BUFFER_SIZE then |bytes| else BUFFER_SIZE;
    [Begin(bytes[..first])] + Extends(bytes, first) + [End(status)]
  }

  lemma {:induction false} RunAppend(w: World, a: seq<Action>, b: seq<Action>, p: Params)
    requires w.rx.Ok()
    ensures Run(w, a + b, p) == Run(Run(w, a, p), b, p)
    decreases |a|
  {
    if a == [] {
      assert a + b == b;
    } else {
      assert (a + b)[1..] == a[1..] + b;
      RunAppend(Step(w, a[0], p), a[1..], b, p);
    }
  }

  /** The ring is empty but for the first `at` bytes of the frame that is arriving. */
  ghost predicate Arriving(w: World, bytes: seq<byte>, at: nat, p: Params) {
    && Inv(w, p) && Waiting(w) == [] && w.rx.dma.phase.InFrame?
    && at <= |bytes| <= RCLR_VALUE && w.open == Some(bytes[..at])
    && Blocks(|bytes|) <= |w.rx.view|
  }

  lemma {:induction false} FullBuffers(len: nat, total: nat)
    requires 0 < len < total && len % 4096 == 0
    ensures Filled(len) == BUFFER_SIZE && Blocks(len) < Blocks(total)
  {
    if len > BUFFER_SIZE { FullBuffers(len - BUFFER_SIZE, total - BUFFER_SIZE); }
  }

  lemma ExtendArrives(w: World, bytes: seq<byte>, at: nat, next: nat, p: Params)
    requires Arriving(w, bytes, at, p) && 0 < at < next <= |bytes| && at % 4096 == 0 && next <= at + BUFFER_SIZE
    ensures Arriving(Step(w, Extend(bytes[at..next]), p), bytes, next, p)
    ensures Step(w, Extend(bytes[at..next]), p).wire == w.wire
  {
    FullBuffers(at, |bytes|);
    StepKeeps(w, Extend(bytes[at..next]), p);
    var k := Blocks(at);
    OffsetAt(w.rx.cur, k - 1, |w.rx.view|);
    OffsetAt(w.rx.cur, k, |w.rx.view|);
    assert Free(w.rx.view[k]);
    assert bytes[..at] + bytes[at..next] == bytes[..next];
  }

  lemma {:induction false} ExtendsArrive(w: World, bytes: seq<byte>, at: nat, p: Params)
    requires Arriving(w, bytes, at, p) && (at == |bytes| || (0 < at && at % 4096 == 0))
    ensures Arriving(Run(w, Extends(bytes, at), p), bytes, |bytes|, p)
    ensures Run(w, Extends(bytes, at), p).wire == w.wire
    decreases |bytes| - at
  {
    if at < |bytes| {
      var next := if |bytes| - at <= BUFFER_SIZE then |bytes| else at + BUFFER_SIZE;
      var a, rest := Extend(bytes[at..next]), Extends(bytes, at)[1..];
      assert Extends(bytes, at)[0] == a;
      ExtendArrives(w, bytes, at, next, p);
      assert rest == if next == |bytes| then [] else Extends(bytes, next);
      ExtendsArrive(Step(w, a, p), bytes, next, p);
    }
  }

  ghost predicate Empty(w: World, p: Params) {
    Inv(w, p) && Waiting(w) == [] && w.open.None? && w.rx.dma.phase.Hunting?
  }

  /** The first entry of an empty ring is free for a frame to begin in. */
  lemma BeginClaims(w: World, bs: seq<byte>, p: Params)
    requires Empty(w, p) && |bs| <= BUFFER_SIZE
    ensures var w' := Step(w, Begin(bs), p);
            && w'.rx.dma.phase.InFrame? && w'.open == Some(bs) && |w'.rx.view| == |w.rx.view|
            && w'.wire == w.wire && w'.fates == w.fates
  {
    FirstFree(w, p);
    assert Step(w, Begin(bs), p) == Claim(w, w.rx.cur, [], bs);
    var v := ClaimFree(w, w.rx.cur, 0, [], bs);
    assert [] + bs == bs;
  }

  lemma FirstFree(w: World, p: Params)
    requires Empty(w, p)
    ensures Free(w.rx.view[0]) && w.rx.dma.entry == w.rx.cur && Offset(w.rx.cur, w.rx.cur, |w.rx.view|) == 0
  {
  }

  lemma BeginArrives(w: World, bytes: seq<byte>, first: nat, p: Params)
    requires Empty(w, p) && |bytes| <= RCLR_VALUE && Blocks(|bytes|) <= |w.rx.view|
    requires first <= |bytes| && first <= BUFFER_SIZE
    ensures Arriving(Step(w, Begin(bytes[..first]), p), bytes, first, p)
  {
    StepKeeps(w, Begin(bytes[..first]), p);
    BeginClaims(w, bytes[..first], p);
  }

  lemma EndArrives(w: World, bytes: seq<byte>, status: bv16, p: Params)
    requires Arriving(w, bytes, |bytes|, p) && status != 0
    ensures var w' := Step(w, End(status), p); Inv(w', p) && Waiting(w') == [Ended(bytes, status)]
  {
    StepKeeps(w, End(status), p);
    assert bytes[..|bytes|] == bytes;
  }

  lemma RunOne(w: World, a: Action, p: Params)
    requires w.rx.Ok()
    ensures Run(w, [a], p) == Step(w, a, p)
  {
    assert [a][1..] == [];
  }

  /** An arrival is its start, its middle and its end. */
  lemma ArrivalRuns(w: World, begin: Action, rest: seq<Action>, end: Action, p: Params)
    requires w.rx.Ok()
    ensures Run(w, [begin] + rest + [end], p) == Step(Run(Step(w, begin, p), rest, p), end, p)
  {
    RunAppend(w, [begin] + rest, [end], p);
    RunAppend(w, [begin], rest, p);
    RunOne(w, begin, p);
    RunOne(Run(Step(w, begin, p), rest, p), end, p);
  }

  /** A frame that fits the empty ring is stored and waits there, whatever index the ring stands at. */
  lemma FrameArrives(w: World, bytes: seq<byte>, status: bv16, p: Params)
    requires Empty(w, p) && |bytes| <= RCLR_VALUE && Blocks(|bytes|) <= |w.rx.view| && status != 0
    ensures var w' := Run(w, Arrival(bytes, status), p);
            Inv(w', p) && Waiting(w') == [Ended(bytes, status)]
  {
    var first := if |bytes| <= BUFFER_SIZE then |bytes| else BUFFER_SIZE;
    var begin := Begin(bytes[..first]);
    BeginArrives(w, bytes, first, p);
    ExtendsArrive(Step(w, begin, p), bytes, first, p);
    EndArrives(Run(Step(w, begin, p), Extends(bytes, first), p), bytes, status, p);
    ArrivalRuns(w, begin, Extends(bytes, first), End(status), p);
  }

  /** The CRC bytes the hardware appends to a frame. */
  function LineCrc(p: Params): nat {
    if p.crcType & 0x00ff == CRC_16 then 2 else if p.crcType & 0x00ff == CRC_32 then 4 else 0
  }

  lemma EarnsWhole(buf: seq<byte>, crc: seq<byte>, status: bv16, p: Params)
    requires 0 < |buf| && |crc| == LineCrc(p) && |buf| + |crc| <= RCLR_VALUE
    requires p.crcType == 0 || p.crcType == CRC_16 || p.crcType == CRC_32 || ReturnsEx(p)
    requires Clean(status)
    requires |buf| + (if ReturnsEx(p) then |crc| + 1 else 0) <= p.maxFrame
    ensures Earned(Ended(buf + crc, status), p) == Some(if ReturnsEx(p) then buf + crc + [0] else buf)
  {
    var bytes := buf + crc;
    assert bytes[..|bytes|] == bytes && bytes[..|buf|] == buf && buf + [] == buf;
  }

  lemma ArrivalDelivered(w: World, bytes: seq<byte>, status: bv16, p: Params)
    requires Empty(w, p) && |bytes| <= RCLR_VALUE && Blocks(|bytes|) <= |w.rx.view| && status != 0
    ensures GetFrame(Run(w, Arrival(bytes, status), p).rx, p).delivered == Earned(Ended(bytes, status), p)
  {
    FrameArrives(w, bytes, status, p);
    ScanFinds(Run(w, Arrival(bytes, status), p).rx, Ended(bytes, status), p);
  }

  /** What is sent with its CRC into an empty ring is handed over by one extraction. */
  lemma LineRoundTrip(sent: seq<byte>, crc: seq<byte>, bytes: seq<byte>, w: World, status: bv16, p: Params)
    requires bytes == sent + crc && |bytes| <= RCLR_VALUE && Blocks(|bytes|) <= |w.rx.view|
    requires 0 < |sent| && Empty(w, p) && |crc| == LineCrc(p)
    requires p.crcType == 0 || p.crcType == CRC_16 || p.crcType == CRC_32 || ReturnsEx(p)
    requires Clean(status) && |sent| + (if ReturnsEx(p) then |crc| + 1 else 0) <= p.maxFrame
    ensures GetFrame(Run(w, Arrival(bytes, status), p).rx, p).delivered ==
            Some(if ReturnsEx(p) then bytes + [0] else sent)
  {
    ArrivalDelivered(w, bytes, status, p);
    EarnsWhole(sent, crc, status, p);
  }

  lemma SentReturns(sent: seq<byte>, buf: seq<byte>, crc: seq<byte>, w: World, status: bv16, p: Params)
    requires sent == buf && 0 < |buf| && Empty(w, p) && |crc| == LineCrc(p)
    requires |buf| + |crc| <= RCLR_VALUE && Blocks(|buf| + |crc|) <= |w.rx.view|
    requires p.crcType == 0 || p.crcType == CRC_16 || p.crcType == CRC_32 || ReturnsEx(p)
    requires Clean(status) && |buf| + (if ReturnsEx(p) then |crc| + 1 else 0) <= p.maxFrame
    ensures GetFrame(Run(w, Arrival(sent + crc, status), p).rx, p).delivered ==
            Some(if ReturnsEx(p) then buf + crc + [0] else buf)
  {
    LineRoundTrip(buf, crc, buf + crc, w, status, p);
  }

  /** Load a frame anywhere in any transmit ring, let the device follow the links and append its
      CRC, let it arrive in an empty receive ring standing at any index: one extraction hands over
      the same bytes (with CRC and status byte in extended mode). */
  lemma FrameRoundTrip(l: Lists, rx: nat, t: Tx, buf: seq<byte>, crc: seq<byte>,
                       w: World, status: bv16, p: Params)
    requires Loadable(t, buf) && 0 < |buf| && Linked(l, rx, |t.list|)
    requires Empty(w, p) && |crc| == LineCrc(p) && |buf| + |crc| <= RCLR_VALUE
    requires Blocks(|buf| + |crc|) <= |w.rx.view|
    requires p.crcType == 0 || p.crcType == CRC_16 || p.crcType == CRC_32 || ReturnsEx(p)
    requires Clean(status)
    requires |buf| + (if ReturnsEx(p) then |crc| + 1 else 0) <= p.maxFrame
    ensures var sent := Transmitted(l, rx, Load(t, buf));
            var w' := Run(w, Arrival(sent + crc, status), p);
            GetFrame(w'.rx, p).delivered == Some(if ReturnsEx(p) then buf + crc + [0] else buf)
  {
    SentByLinks(l, rx, t, buf);
    SentReturns(Transmitted(l, rx, Load(t, buf)), buf, crc, w, status, p);
  }
}
