/** Every run of the receive ring: device steps interleaved with frame extraction,
    overrun recovery, restarts and interrupt service.
 */
module RxRuns {
  import opened Cyclic
  import opened RxRing

  /** A frame as it came off the line, CRC bytes included, with the status and the count the
      device leaves in its last entry. */
  datatype Frame = Frame(bytes: seq<byte>, status: bv16, rcc: nat)

  /** A frame the count register can count; it ends at the start value less the length. */
  predicate FrameOk(f: Frame) {
    f.status != 0 && |f.bytes| <= RCLR_VALUE && f.rcc == RCLR_VALUE - |f.bytes|
  }

  /** A frame that ended with `status`, as HDLC mode counts it. */
  function Ended(bytes: seq<byte>, status: bv16): (f: Frame)
    requires |bytes| <= RCLR_VALUE
    ensures status != 0 ==> FrameOk(f)
  {
    Frame(bytes, status, RCLR_VALUE - |bytes|)
  }

  /** What became of a completed frame: extracted by the driver, or discarded with the whole ring. */
  datatype Fate = Taken | Lost

  /** The receiver with its history: the frames the device completed, the fate of those no
      longer in the ring, the bytes of an unfinished run still in the ring, what the
      line discipline was given, and how often the whole ring was reset. */
  datatype World = World(rx: Rx, open: Option<seq<byte>>, wire: seq<Frame>, fates: seq<Fate>,
                         delivered: seq<seq<byte>>, resets: nat)

  /** The completed frames still in the ring. */
  function Waiting(w: World): seq<Frame>
    requires |w.fates| <= |w.wire|
  {
    w.wire[|w.fates|..]
  }

  // ----- what a well-formed ring contains -----

  /** Entries needed by a frame: the device claims one when the frame starts and another
      each time more data arrives for a full buffer. */
  function Blocks(len: nat): (b: nat)
    ensures b >= 1
  {
    if len <= BUFFER_SIZE then 1 else 1 + Blocks(len - BUFFER_SIZE)
  }

  /** The entries from `k` on are in use and hold `bytes`, 4096 to an entry. */
  ghost predicate Holds(v: seq<Entry>, k: nat, bytes: seq<byte>)
    decreases |bytes|
  {
    && k < |v|
    && v[k].count == 0
    && EntryOk(v[k])
    && if |bytes| <= BUFFER_SIZE then
         v[k].data[..|bytes|] == bytes
       else
         v[k].data == bytes[..BUFFER_SIZE] && Holds(v, k + 1, bytes[BUFFER_SIZE..])
  }

  /** An unfinished run at `k`: data, but no status anywhere. */
  ghost predicate OpenAt(v: seq<Entry>, k: nat, bytes: seq<byte>) {
    && k + Blocks(|bytes|) <= |v|
    && Holds(v, k, bytes)
    && forall i :: k <= i < k + Blocks(|bytes|) ==> v[i].status == 0
  }

  /** A complete frame at `k`: status and remaining count in its last entry only. */
  ghost predicate FrameAt(v: seq<Entry>, k: nat, f: Frame) {
    var last := k + Blocks(|f.bytes|) - 1;
    && last < |v|
    && f.status != 0
    && Holds(v, k, f.bytes)
    && (forall i :: k <= i < last ==> v[i].status == 0)
    && v[last].status == f.status
    && v[last].rcc == f.rcc
  }

  function Used(q: seq<Frame>): nat {
    if q == [] then 0 else Blocks(|q[0].bytes|) + Used(q[1..])
  }

  ghost predicate FramesAt(v: seq<Entry>, k: nat, q: seq<Frame>)
    decreases |q|
  {
    q == [] || (FrameAt(v, k, q[0]) && FramesAt(v, k + Blocks(|q[0].bytes|), q[1..]))
  }

  ghost predicate FreeFrom(v: seq<Entry>, k: nat) {
    forall i :: k <= i < |v| ==> Free(v[i])
  }

  /** Complete frames, then at most one unfinished run, then free entries. */
  ghost predicate Laid(v: seq<Entry>, q: seq<Frame>, open: Option<seq<byte>>) {
    && Used(q) + OpenBlocks(open) <= |v|
    && FramesAt(v, 0, q)
    && (open.Some? ==> OpenAt(v, Used(q), open.value))
    && FreeFrom(v, Used(q) + OpenBlocks(open))
  }

  function OpenBlocks(open: Option<seq<byte>>): nat {
    if open.Some? then Blocks(|open.value|) else 0
  }

  /** Where the device stands relative to the contents of the ring. */
  ghost predicate DeviceInPlace(r: Rx, q: seq<Frame>, open: Option<seq<byte>>)
    requires r.cur < |r.view| && Used(q) + OpenBlocks(open) <= |r.view|
  {
    match r.dma.phase
    case Halted => r.dma.entry < |r.view|
    case InFrame => open.Some? && r.dma.entry == At(r.cur, Used(q) + OpenBlocks(open) - 1, |r.view|)
    case _ => open.None? && r.dma.entry == At(r.cur, Used(q), |r.view|)
  }

  // ----- what the line discipline should have been given -----

  /** The delivery a frame earns, stated on the frame alone. */
  function Earned(f: Frame, p: Params): (d: Option<seq<byte>>)
    requires |f.bytes| <= RCLR_VALUE
  {
    if Acceptable(f.status, p) && CrcBytes(p) < |f.bytes| && FitsFrame(|f.bytes| - CrcBytes(p), p)
    then Some(f.bytes[..|f.bytes| - CrcBytes(p)] + StatusByte(f.status, p))
    else None
  }

  /** Which frames the line discipline is to be given: no error at all, or in extended mode a CRC
      error alone, with something left after the CRC and no more than the frame limit. */
  predicate Deliverable(f: Frame, p: Params) {
    var ex, rest := p.crcType & 0x8000 != 0, |f.bytes| - CrcLength(p);
    && (f.status & 0x010e == 0 || (ex && f.status & 0x010e == 0x0008))
    && 0 < rest && rest + (if ex then 1 else 0) <= p.maxFrame
  }

  /** The CRC bytes that are cut off: none in extended mode. */
  function CrcLength(p: Params): nat {
    if p.crcType == 1 then 2 else if p.crcType == 2 then 4 else 0
  }

  /** `d` is what is to be handed over for `f`: its bytes and, in extended mode, a byte that is 1
      exactly when the CRC was wrong. */
  ghost predicate HandedOver(f: Frame, p: Params, d: seq<byte>) {
    && Deliverable(f, p)
    && (p.crcType & 0x8000 == 0 ==> d == f.bytes[..|f.bytes| - CrcLength(p)])
    && (p.crcType & 0x8000 != 0 ==>
          |d| == |f.bytes| + 1 && d[..|f.bytes|] == f.bytes &&
          (d[|f.bytes|] == 1 <==> f.status & 0x0008 != 0) && d[|f.bytes|] <= 1)
  }

  function Opt(d: Option<seq<byte>>): seq<seq<byte>> {
    if d.Some? then [d.value] else []
  }

  /** The deliveries earned by the frames that were taken, in wire order. */
  function Due(wire: seq<Frame>, fates: seq<Fate>, p: Params): seq<seq<byte>>
    requires |fates| <= |wire| && forall i :: 0 <= i < |wire| ==> |wire[i].bytes| <= RCLR_VALUE
  {
    if fates == [] then []
    else
      var k := |fates| - 1;
      Due(wire, fates[..k], p) + if fates[k].Taken? then Opt(Earned(wire[k], p)) else []
  }

  ghost predicate WireOk(wire: seq<Frame>) {
    forall i :: 0 <= i < |wire| ==> FrameOk(wire[i])
  }

  /** The ring is well formed and the device stands where it should. */
  ghost predicate Shape(r: Rx, q: seq<Frame>, open: Option<seq<byte>>) {
    r.Ok() && Laid(r.view, q, open) && DeviceInPlace(r, q, open)
  }

  /** The line discipline has been given exactly what the taken frames earn. */
  ghost predicate Honest(w: World, p: Params) {
    && WireOk(w.wire)
    && |w.fates| <= |w.wire|
    && w.delivered == Due(w.wire, w.fates, p)
    && p.maxFrame <= RCLR_VALUE
  }

  ghost predicate Inv(w: World, p: Params) {
    Honest(w, p) && Shape(w.rx, Waiting(w), w.open)
  }

  // ----- steps -----

  datatype Action =
    | Begin(bs: seq<byte>)       // device: a frame starts
    | Extend(more: seq<byte>)    // device: more bytes of the frame
    | End(status: bv16)          // device: the frame ends
    | Resume                     // device: a paused channel carries on
    | DmaIrq                     // ISR for the receive DMA channel
    | UnderrunIrq                // ISR for a count underrun
    | OverrunIrq                 // ISR for a FIFO overrun
    | Extract                    // one frame extraction by the bottom half
    | RestartUnderrun            // the bottom half's answer to an underrun
    | Enable
    | Disable

  /** The device writes `bs` at offset `at` of a buffer. */
  function Store(data: seq<byte>, at: nat, bs: seq<byte>): (d: seq<byte>)
    requires at + |bs| <= |data|
    ensures |d| == |data|
  {
    data[..at] + bs + data[at + |bs|..]
  }

  /** The device reaches an entry that is still in use: it stops and asks for service. */
  function HaltAtEnd(w: World): World {
    w.(rx := w.rx.(dma := w.rx.dma.(phase := Halted, irq := true, eol := true)))
  }

  /** The device moves to entry `i`, marks it used and writes its first bytes. */
  function Claim(w: World, i: nat, sofar: seq<byte>, bs: seq<byte>): (w': World)
    requires w.rx.Ok() && i < |w.rx.view| && |bs| <= BUFFER_SIZE
    ensures w'.rx.Ok()
  {
    var k := Offset(w.rx.cur, i, |w.rx.view|);
    var e := w.rx.view[k];
    assert EntryOk(e);
    if e.count == 0 then HaltAtEnd(w)
    else
      w.(rx := w.rx.(view := w.rx.view[k := e.(count := 0, data := Store(e.data, 0, bs))],
                     dma := w.rx.dma.(phase := InFrame, entry := i)),
         open := Some(sofar + bs))
  }

  /** The history of a whole-ring reset. */
  function Forget(w: World): World {
    var left := if |w.fates| <= |w.wire| then |w.wire| - |w.fates| else 0;
    w.(fates := w.fates + seq(left, _ => Lost), open := None, resets := w.resets + 1)
  }

  /** Bytes already in the buffer being filled. */
  function Filled(len: nat): (r: nat)
    ensures r <= len && r <= BUFFER_SIZE && (len > 0 ==> r > 0)
  {
    if len <= BUFFER_SIZE then len else Filled(len - BUFFER_SIZE)
  }

  /** More bytes arrive: they go into the buffer being filled, or into the next entry. */
  function Grow(w: World, bs: seq<byte>): (w': World)
    requires w.rx.Ok()
    ensures w'.rx.Ok()
  {
    if w.rx.dma.phase.InFrame? && w.open.Some? && w.rx.dma.entry < |w.rx.view| && 1 <= |bs| <= BUFFER_SIZE then
      var at := Filled(|w.open.value|);
      if at == BUFFER_SIZE then Claim(w, Next(w.rx.dma.entry, |w.rx.view|), w.open.value, bs)
      else if at + |bs| <= BUFFER_SIZE then
        var k := Offset(w.rx.cur, w.rx.dma.entry, |w.rx.view|);
        var e := w.rx.view[k];
        assert EntryOk(e);
        w.(rx := w.rx.(view := w.rx.view[k := e.(data := Store(e.data, at, bs))]),
           open := Some(w.open.value + bs))
      else w
    else w
  }

  /** The frame ends: status and remaining count go into the entry being filled. */
  function Close(w: World, status: bv16, rcc: nat): (w': World)
    requires w.rx.Ok() && rcc <= RCLR_VALUE
    ensures w'.rx.Ok()
  {
    if w.rx.dma.phase.InFrame? && w.open.Some? && w.rx.dma.entry < |w.rx.view| && status != 0 then
      var k := Offset(w.rx.cur, w.rx.dma.entry, |w.rx.view|);
      w.(rx := w.rx.(view := w.rx.view[k := w.rx.view[k].(status := status, rcc := rcc)],
                     dma := w.rx.dma.(phase := Hunting, entry := Next(w.rx.dma.entry, |w.rx.view|),
                                      irq := true)),
         open := None, wire := w.wire + [Frame(w.open.value, status, rcc)])
    else w
  }

  /** Bytes of the frame now arriving. */
  function Arrived(w: World): nat {
    if w.open.Some? then |w.open.value| else 0
  }

  /** The device in HDLC mode, where a frame the count register cannot count does not end: the
      count underrun stops the receiver. */
  function DeviceStep(w: World, a: Action): (w': World)
    requires w.rx.Ok()
    ensures w'.rx.Ok()
  {
    match a
    case Begin(bs) =>
      if w.rx.dma.phase.Hunting? && w.open.None? && w.rx.dma.entry < |w.rx.view| && |bs| <= BUFFER_SIZE
      then Claim(w, w.rx.dma.entry, [], bs) else w
    case Extend(bs) => if Arrived(w) + |bs| <= RCLR_VALUE then Grow(w, bs) else w
    case End(status) => if Arrived(w) <= RCLR_VALUE then Close(w, status, RCLR_VALUE - Arrived(w)) else w
    case Resume =>
      if w.rx.dma.phase.Paused? then w.(rx := w.rx.(dma := w.rx.dma.(phase := Hunting))) else w
    case _ => w
  }

  /** Whether one extraction resets the whole ring. */
  predicate Restarts(r: Rx) {
    r.enabled && (r.overflow || ScanFrom(r.view, 0).Exhausted?)
  }

  function ExtractStep(w: World, p: Params): (w': World)
    requires w.rx.Ok()
    ensures w'.rx.Ok() && w'.rx == GetFrame(w.rx, p).rx && (w'.rx.dma.irq ==> w.rx.dma.irq)
  {
    var g := GetFrame(w.rx, p);
    var next := w.(rx := g.rx, delivered := w.delivered + Opt(g.delivered),
                   fates := w.fates + if g.more then [Taken] else []);
    if Restarts(w.rx) then Forget(next) else next
  }

  function RecoverStep(w: World): (w': World)
    requires w.rx.Ok()
    ensures w'.rx.Ok() && w'.wire == w.wire
    ensures w'.rx.enabled == w.rx.enabled && w'.rx.dma.irq == w.rx.dma.irq
    ensures w'.fates == w.fates || |w'.fates| >= |w.wire|
  {
    var next := w.(rx := RecoverOverrun(w.rx));
    var e := FirstUnused(w.rx.view, 0);
    if e == |w.rx.view| then Forget(next)
    else if RunStart(w.rx.view, e) < e then next.(open := None)
    else next
  }

  function Restart(w: World): (w': World)
    requires w.rx.Ok()
    ensures w'.rx.Ok() && w'.rx == StartReceiver(w.rx)
  {
    Forget(w.(rx := StartReceiver(w.rx)))
  }

  function Step(w: World, a: Action, p: Params): (w': World)
    requires w.rx.Ok()
    ensures w'.rx.Ok()
  {
    match a
    case DmaIrq => if w.rx.dma.irq then w.(rx := ServiceDma(w.rx)) else w
    case UnderrunIrq =>
      if w.rx.dma.phase.InFrame? then w.(rx := ServiceUnderrun(w.rx)) else w
    case OverrunIrq => RecoverStep(w)
    case Extract => ExtractStep(w, p)
    case RestartUnderrun => if w.rx.underrun then Restart(w) else w
    case Enable => if w.rx.enabled then w else Restart(w)
    case Disable => if w.rx.enabled then w.(rx := StopReceiver(w.rx)) else w
    case _ => DeviceStep(w, a)
  }

  function Run(w: World, actions: seq<Action>, p: Params): (w': World)
    requires w.rx.Ok()
    ensures w'.rx.Ok()
    decreases |actions|
  {
    if actions == [] then w else Run(Step(w, actions[0], p), actions[1..], p)
  }

  /** The ring as allocated: every entry free, receiver off. */
  predicate Initial(w: World) {
    && |w.rx.view| > 0
    && w.rx.cur == 0
    && (forall i :: 0 <= i < |w.rx.view| ==> EntryOk(w.rx.view[i]) && Free(w.rx.view[i]))
    && w.rx.dma.phase.Halted? && w.rx.dma.entry == 0
    && w.open.None? && w.wire == [] && w.fates == [] && w.delivered == [] && w.resets == 0
  }

  // ----- the shape of a stored frame -----

  lemma {:induction false} HoldsUses(v: seq<Entry>, k: nat, bytes: seq<byte>)
    requires Holds(v, k, bytes)
    ensures k + Blocks(|bytes|) <= |v|
    ensures forall i :: k <= i < k + Blocks(|bytes|) ==> v[i].count == 0 && EntryOk(v[i])
    decreases |bytes|
  {
    if |bytes| > BUFFER_SIZE { HoldsUses(v, k + 1, bytes[BUFFER_SIZE..]); }
  }

  /** The copy loop reads back any prefix of the stored bytes. */
  lemma {:induction false} CopyHeld(v: seq<Entry>, k: nat, bytes: seq<byte>, size: nat)
    requires k < |v| && forall i :: 0 <= i < |v| ==> EntryOk(v[i])
    requires Holds(v, k, bytes) && size <= |bytes|
    ensures CopyOut(v, k, size) == bytes[..size]
    decreases size
  {
    if size > BUFFER_SIZE {
      CopyHeld(v, k + 1, bytes[BUFFER_SIZE..], size - BUFFER_SIZE);
      assert bytes[..size] == bytes[..BUFFER_SIZE] + bytes[BUFFER_SIZE..][..size - BUFFER_SIZE];
    } else if |bytes| <= BUFFER_SIZE {
      assert v[k].data[..size] == v[k].data[..|bytes|][..size];
    } else {
      assert v[k].data[..size] == bytes[..BUFFER_SIZE][..size];
    }
  }
}
