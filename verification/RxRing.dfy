/** The receive DMA ring and what each driver function does to it.

    The ring is described by its *view*: the entries read cyclically from
    `current_rx_buffer`. Every driver function starts at that index, so on the view
    there is no wrap-around. `RxDriver` shows that the index loops compute these functions.
 */
module RxRing {
  import opened Cyclic

  newtype byte = x: int | 0 <= x < 256

  /** Size of a DMA buffer. Products, quotients and remainders write it out as 4096. */
  const BUFFER_SIZE: nat := 4096
  const RCLR_VALUE: nat := 0xffff

  const STATUS_SHORT: bv16 := 0x0100
  const STATUS_CRC: bv16 := 0x0008
  const STATUS_ABORT: bv16 := 0x0004
  const STATUS_OVERRUN: bv16 := 0x0002

  const CRC_16: bv16 := 1
  const CRC_32: bv16 := 2
  const CRC_RETURN_EX: bv16 := 0x8000

  /** A buffer entry with the 4096-byte buffer it points to. */
  datatype Entry = Entry(count: nat, status: bv16, rcc: nat, data: seq<byte>)

  predicate EntryOk(e: Entry) {
    |e.data| == BUFFER_SIZE && e.rcc <= RCLR_VALUE
  }

  /** The one 32-bit store of 4096 over `count` and `status`. */
  function Freed(e: Entry): Entry {
    e.(count := BUFFER_SIZE, status := 0)
  }

  predicate Free(e: Entry) {
    e.count == BUFFER_SIZE && e.status == 0
  }

  function FreeAll(es: seq<Entry>): (r: seq<Entry>)
    ensures |r| == |es|
    ensures forall i :: 0 <= i < |es| ==> r[i] == Freed(es[i])
  {
    seq(|es|, i requires 0 <= i < |es| => Freed(es[i]))
  }

  /** What the receive DMA channel is doing. `Paused` is the state after a pause command
      that the driver does not follow by a start command. */
  datatype Phase = Halted | Paused | Hunting | InFrame

  /** The receive DMA channel: the entry it will claim (or, inside a frame, is filling),
      its interrupt request and its end-of-list bit. */
  datatype Dma = Dma(phase: Phase, entry: nat, irq: bool, eol: bool)

  /** The receive side of the driver, ring included. */
  datatype Rx = Rx(view: seq<Entry>, cur: nat, enabled: bool, overflow: bool, underrun: bool, dma: Dma)
  {
    predicate Ok() {
      cur < |view| && forall i :: 0 <= i < |view| ==> EntryOk(view[i])
    }
  }

  datatype Params = Params(crcType: bv16, maxFrame: nat)

  datatype Option<T> = None | Some(value: T)

  // ----- resetting and freeing -----

  /** The entries in index order. */
  function Home(r: Rx): (s: seq<Entry>)
    requires r.cur < |r.view|
    ensures |s| == |r.view|
  {
    Rotate(r.view, |r.view| - r.cur)
  }

  function ResetRing(r: Rx): (r': Rx)
    requires r.Ok()
    ensures r'.Ok() && |r'.view| == |r.view|
  {
    r.(view := FreeAll(Home(r)), cur := 0)
  }

  /** Stopping the receiver resets the DMA channel and leaves the ring alone. */
  function StopReceiver(r: Rx): Rx {
    r.(enabled := false, overflow := false, underrun := false,
       dma := Dma(Halted, r.dma.entry, false, false))
  }

  /** Starting the receiver resets the ring and points the DMA channel at entry 0. */
  function StartReceiver(r: Rx): (r': Rx)
    requires r.Ok()
    ensures r'.Ok() && |r'.view| == |r.view|
  {
    StopReceiver(ResetRing(r)).(enabled := true, dma := Dma(Hunting, 0, false, false))
  }

  function FreeFront(r: Rx, k: nat): (r': Rx)
    requires r.Ok() && k <= |r.view|
    ensures r'.Ok() && |r'.view| == |r.view|
  {
    r.(view := r.view[k..] + FreeAll(r.view[..k]), cur := At(r.cur, k, |r.view|))
  }

  // ----- extracting a frame -----

  datatype Scan = Found(last: nat) | Unused(at: nat) | Exhausted

  function ScanFrom(view: seq<Entry>, k: nat): (s: Scan)
    requires k <= |view|
    ensures s.Found? ==> k <= s.last < |view| && view[s.last].status != 0
    ensures s.Unused? ==> k <= s.at < |view| && view[s.at].status == 0 && view[s.at].count != 0
    decreases |view| - k
  {
    if k == |view| then Exhausted
    else if view[k].status != 0 then Found(k)
    else if view[k].count != 0 then Unused(k)
    else ScanFrom(view, k + 1)
  }

  function Sub32(a: nat, b: nat): nat
    requires a < 0x1_0000_0000 && b < 0x1_0000_0000
  {
    if b <= a then a - b else a + 0x1_0000_0000 - b
  }

  predicate ReturnsEx(p: Params) {
    p.crcType & CRC_RETURN_EX != 0
  }

  /** Error bits keep a frame from being returned, except that extended mode returns frames whose only error is the CRC. */
  predicate Acceptable(status: bv16, p: Params) {
    || status & (STATUS_SHORT | STATUS_OVERRUN | STATUS_CRC | STATUS_ABORT) == 0
    || (status & (STATUS_SHORT | STATUS_ABORT | STATUS_OVERRUN) == 0 && ReturnsEx(p))
  }

  /** The status of a frame that ended without any error. */
  predicate Clean(status: bv16) {
    status != 0 && status & (STATUS_SHORT | STATUS_OVERRUN | STATUS_CRC | STATUS_ABORT) == 0
  }

  function CrcBytes(p: Params): nat {
    if p.crcType == CRC_16 then 2 else if p.crcType == CRC_32 then 4 else 0
  }

  /** The `framesize` the driver computes from a frame's last entry, in 32-bit arithmetic. */
  function FrameSize(status: bv16, rcc: nat, p: Params): (size: nat)
    requires rcc <= RCLR_VALUE
  {
    if Acceptable(status, p) then Sub32(RCLR_VALUE - rcc, CrcBytes(p)) else 0
  }

  predicate FitsFrame(size: nat, p: Params) {
    0 < size <= p.maxFrame && (ReturnsEx(p) ==> size + 1 <= p.maxFrame)
  }

  /** The copy loop, entry by entry with wrap-around. */
  function CopyOut(view: seq<Entry>, k: nat, size: nat): (b: seq<byte>)
    requires k < |view| && forall i :: 0 <= i < |view| ==> EntryOk(view[i])
    ensures |b| == size
    decreases size
  {
    assert EntryOk(view[k]);
    if size == 0 then []
    else if size <= BUFFER_SIZE then view[k].data[..size]
    else view[k].data + CopyOut(view, Next(k, |view|), size - BUFFER_SIZE)
  }

  function StatusByte(status: bv16, p: Params): seq<byte> {
    if ReturnsEx(p) then [if status & STATUS_CRC != 0 then 1 else 0] else []
  }

  /** What is handed to the line discipline for the frame ending in view entry `last`. */
  function Delivery(r: Rx, last: nat, p: Params): (d: Option<seq<byte>>)
    requires r.Ok() && last < |r.view|
    ensures d.Some? ==> |d.value| <= p.maxFrame
  {
    var e := r.view[last];
    var size := FrameSize(e.status, e.rcc, p);
    if FitsFrame(size, p) then Some(CopyOut(r.view, 0, size) + StatusByte(e.status, p)) else None
  }

  datatype Got = Got(rx: Rx, delivered: Option<seq<byte>>, more: bool)

  function RestartIfOverflow(r: Rx): (r': Rx)
    requires r.Ok()
    ensures r'.Ok() && |r'.view| == |r.view|
  {
    if r.enabled && r.overflow then StartReceiver(r) else r
  }

  /** One call of the HDLC frame extraction. A call made with the receiver enabled and overflow
      set ends with overflow cleared, every entry free and the ring restarted at entry 0,
      whichever way the scan ends. */
  function GetFrame(r: Rx, p: Params): (g: Got)
    requires r.Ok()
    ensures g.rx.Ok() && |g.rx.view| == |r.view|
    ensures g.delivered.Some? ==> g.more && |g.delivered.value| <= p.maxFrame
    ensures g.rx.dma.irq ==> r.dma.irq
    ensures r.enabled && r.overflow ==>
              !g.rx.overflow && g.rx.cur == 0 && g.rx.dma == Dma(Hunting, 0, false, false) &&
              forall i :: 0 <= i < |r.view| ==> Free(g.rx.view[i])
  {
    match ScanFrom(r.view, 0)
    case Found(last) =>
      Got(RestartIfOverflow(FreeFront(r, last + 1)), Delivery(r, last, p), true)
    case Unused(_) =>
      Got(RestartIfOverflow(r), None, false)
    case Exhausted =>
      Got(if r.enabled then StartReceiver(r) else r, None, false)
  }

  // ----- overrun recovery -----

  /** The first entry at or after `k` that the device has not used, or the length of the view. */
  function FirstUnused(view: seq<Entry>, k: nat): (e: nat)
    requires k <= |view|
    ensures k <= e <= |view|
    ensures forall i :: k <= i < e ==> view[i].count == 0
    ensures e < |view| ==> view[e].count != 0
    decreases |view| - k
  {
    if k == |view| || view[k].count != 0 then k else FirstUnused(view, k + 1)
  }

  /** The first entry of the run before `e` that no status terminates; `e` when there is no such run. */
  function RunStart(view: seq<Entry>, e: nat): (s: nat)
    requires e <= |view|
    ensures s <= e
    ensures forall i :: s <= i < e ==> view[i].status == 0
    ensures s > 0 ==> view[s - 1].status != 0
  {
    if e == 0 then 0
    else if view[e - 1].status != 0 then e
    else RunStart(view, e - 1)
  }

  function Replace(view: seq<Entry>, s: nat, e: nat): (r: seq<Entry>)
    requires s <= e <= |view|
    ensures |r| == |view|
    ensures forall i :: 0 <= i < |view| ==> r[i] == if s <= i < e then Freed(view[i]) else view[i]
  {
    view[..s] + FreeAll(view[s..e]) + view[e..]
  }

  /** The first unused entry is at `e`; the run before it without a status starts at `s`. */
  function RecoverRun(r: Rx, s: nat, e: nat): (r': Rx)
    requires r.Ok() && s <= e < |r.view|
    ensures r'.Ok() && |r'.view| == |r.view|
  {
    if s < e then
      r.(view := Replace(r.view, s, e),
         dma := r.dma.(phase := Hunting, entry := At(r.cur, s, |r.view|)))
    else
      r.(dma := r.dma.(phase := if r.dma.phase.Hunting? then Paused else r.dma.phase))
  }

  function RecoverOverrun(r: Rx): (r': Rx)
    requires r.Ok()
    ensures r'.Ok() && |r'.view| == |r.view|
  {
    var e := FirstUnused(r.view, 0);
    if e == |r.view| then
      ResetRing(r).(dma := r.dma.(phase := Hunting, entry := 0))
    else
      RecoverRun(r, RunStart(r.view, e), e)
  }

  // ----- interrupt service -----

  /** The receive DMA interrupt: acknowledge, and note an end-of-list as overflow. */
  function ServiceDma(r: Rx): Rx {
    r.(overflow := r.overflow || r.dma.eol, dma := r.dma.(irq := false, eol := false))
  }

  /** The count-register underrun interrupt (HDLC mode): the channel is reset and a restart requested. */
  function ServiceUnderrun(r: Rx): Rx {
    r.(underrun := true, dma := Dma(Halted, r.dma.entry, false, false))
  }
}
