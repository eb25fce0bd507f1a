/** Every run of the receive ring in raw mode, where buffers are handed over one at a time while
    the frame they belong to is still arriving.
 */
module RawRuns {
  import opened RxRing
  import opened RxRuns
  import opened RxInvariant
  import opened RawReceive

  /** The receiver with its raw-mode history. In `w`, `open` is every byte of the frame now
      arriving, `wire` the frames that ended (or were discarded unfinished, with status 0), and
      `delivered` what was handed over of each frame that left the ring. `part` is what was
      handed over of the frame in front, `handed` all bytes handed over so far. */
  datatype Raw = Raw(w: World, part: seq<byte>, handed: seq<byte>)

  // ----- steps -----

  /** The count register after a frame of `len` bytes; it stops at 0. */
  function RawCount(len: nat): (rcc: nat)
    ensures rcc <= RCLR_VALUE
  {
    if len >= RCLR_VALUE then 0 else RCLR_VALUE - len
  }

  /** Complete frames still in the ring. */
  function Left(w: World): seq<Frame> {
    if |w.fates| <= |w.wire| then w.wire[|w.fates|..] else []
  }

  /** The frame now arriving is given up. It joins the history if bytes of it were handed over. */
  function GiveUp(s: Raw): Raw {
    if Left(s.w) != [] || s.w.open.None? then s.(w := s.w.(open := None))
    else
      s.(w := s.w.(open := None, wire := s.w.wire + [Frame(s.w.open.value, 0, 0)],
                   fates := s.w.fates + [Lost], delivered := s.w.delivered + [s.part],
                   resets := s.w.resets + 1),
         part := [])
  }

  /** The complete frames in the ring are given up. */
  function LoseWaiting(s: Raw): Raw {
    var n := |Left(s.w)|;
    if n == 0 then s
    else
      s.(w := s.w.(fates := s.w.fates + seq(n, _ => Lost),
                   delivered := s.w.delivered + [s.part] + seq(n - 1, _ => []),
                   resets := s.w.resets + 1),
         part := [])
  }

  /** The history of a whole-ring reset. */
  function LoseAll(s: Raw): Raw {
    LoseWaiting(GiveUp(s))
  }

  /** A buffer is handed over; it is the last of its frame if its entry has a status. */
  function HandOver(s: Raw, chunk: seq<byte>, last: bool): Raw {
    if last then
      s.(w := s.w.(fates := s.w.fates + [Taken], delivered := s.w.delivered + [s.part + chunk]),
         part := [], handed := s.handed + chunk)
    else s.(part := s.part + chunk, handed := s.handed + chunk)
  }

  function Bytes(d: Option<seq<byte>>): seq<byte> {
    if d.Some? then d.value else []
  }

  /** Whether one extraction resets the whole ring. */
  predicate RawRestarts(r: Rx)
    requires r.Ok()
  {
    r.enabled && r.overflow && (GetRaw(r).more || r.view[0].count != 0)
  }

  function RawExtract(s: Raw): (s': Raw)
    requires s.w.rx.Ok()
    ensures s'.w.rx.Ok()
  {
    var r := s.w.rx;
    var g := GetRaw(r);
    var next := (if g.more then HandOver(s, Bytes(g.delivered), r.view[0].status != 0) else s);
    var freed := next.(w := next.w.(rx := g.rx));
    if RawRestarts(r) then LoseAll(freed) else freed
  }

  function RawRestart(s: Raw): (s': Raw)
    requires s.w.rx.Ok()
    ensures s'.w.rx.Ok()
  {
    LoseAll(s.(w := s.w.(rx := StartReceiver(s.w.rx))))
  }

  function RawRecover(s: Raw): (s': Raw)
    requires s.w.rx.Ok()
    ensures s'.w.rx.Ok()
  {
    var v := s.w.rx.view;
    var next := s.(w := s.w.(rx := RecoverOverrun(s.w.rx)));
    var e := FirstUnused(v, 0);
    if e == |v| then LoseAll(next)
    else if RunStart(v, e) < e then GiveUp(next)
    else next
  }

  /** Raw mode: frames of any length, no count-underrun service, extraction by buffer. */
  function RawStep(s: Raw, a: Action): (s': Raw)
    requires s.w.rx.Ok()
    ensures s'.w.rx.Ok()
  {
    match a
    case Begin(_) => s.(w := DeviceStep(s.w, a))
    case Extend(bs) => s.(w := Grow(s.w, bs))
    case End(status) => s.(w := Close(s.w, status, RawCount(Arrived(s.w))))
    case Resume => s.(w := DeviceStep(s.w, a))
    case DmaIrq => if s.w.rx.dma.irq then s.(w := s.w.(rx := ServiceDma(s.w.rx))) else s
    case OverrunIrq => RawRecover(s)
    case Extract => RawExtract(s)
    case Enable => if s.w.rx.enabled then s else RawRestart(s)
    case Disable => if s.w.rx.enabled then s.(w := s.w.(rx := StopReceiver(s.w.rx))) else s
    case UnderrunIrq => s
    case RestartUnderrun => s
  }

  function RawRun(s: Raw, actions: seq<Action>): (s': Raw)
    requires s.w.rx.Ok()
    ensures s'.w.rx.Ok()
    decreases |actions|
  {
    if actions == [] then s else RawRun(RawStep(s, actions[0]), actions[1..])
  }

  // ----- what should have been handed over -----

  predicate Erroneous(status: bv16) {
    status & 0x010e != 0
  }

  /** What a frame that was taken out of the ring gave, stated on the frame alone: an error costs
      the last buffer, so does a length that fills it (unless it is the only one), and a frame
      beyond the count register gives its last buffer in full, whatever lies behind its bytes. */
  ghost predicate Gave(f: Frame, out: seq<byte>) {
    var l := |f.bytes|;
    var before := l - Filled(l);
    if Erroneous(f.status) then out == f.bytes[..before]
    else if l >= RCLR_VALUE then |out| == before + BUFFER_SIZE && f.bytes <= out
    else if l > BUFFER_SIZE && Filled(l) == BUFFER_SIZE then out == f.bytes[..before]
    else out == f.bytes
  }

  /** When a frame comes out whole. */
  predicate ComesWhole(f: Frame) {
    var l := |f.bytes|;
    || l == 0
    || (!Erroneous(f.status) && if l >= RCLR_VALUE then l % 4096 == 0 else l <= BUFFER_SIZE || l % 4096 != 0)
  }

  /** A whole number of buffers. */
  predicate Whole(len: nat) {
    len == 0 || (len >= BUFFER_SIZE && Whole(len - BUFFER_SIZE))
  }

  /** Whole buffers from the front of `bytes`. */
  ghost predicate WholeBuffers(part: seq<byte>, bytes: seq<byte>) {
    part <= bytes && Whole(|part|)
  }

  ghost predicate Accounted(f: Frame, fate: Fate, out: seq<byte>) {
    if fate.Taken? then Gave(f, out) else WholeBuffers(out, f.bytes)
  }

  function Joined(outs: seq<seq<byte>>): seq<byte> {
    if outs == [] then [] else Joined(outs[..|outs| - 1]) + outs[|outs| - 1]
  }

  /** The bytes so far of the frame in front. */
  function Front(w: World): seq<byte> {
    if Left(w) != [] then Left(w)[0].bytes else if w.open.Some? then w.open.value else []
  }

  /** Everything handed over is accounted for: frame by frame what those that left the ring give,
      then whole buffers of the frame in front. */
  ghost predicate Faithful(s: Raw) {
    && |s.w.delivered| == |s.w.fates| <= |s.w.wire|
    && s.handed == Joined(s.w.delivered) + s.part
    && (forall i :: 0 <= i < |s.w.fates| ==> Accounted(s.w.wire[i], s.w.fates[i], s.w.delivered[i]))
    && WholeBuffers(s.part, Front(s.w))
  }

  // ----- the ring -----

  /** What is left of a frame after `k` bytes. */
  function After(f: Frame, k: nat): Frame {
    f.(bytes := Drop(f.bytes, k))
  }

  function Drop(b: seq<byte>, k: nat): seq<byte> {
    if k <= |b| then b[k..] else []
  }

  /** The complete frames as far as they are still in the ring. */
  function Stored(s: Raw): seq<Frame> {
    var q := Left(s.w);
    if q == [] then [] else [After(q[0], |s.part|)] + q[1..]
  }

  /** The unfinished frame as far as it is still in the ring. */
  function StoredOpen(s: Raw): Option<seq<byte>> {
    if s.w.open.Some? && Left(s.w) == [] then Some(Drop(s.w.open.value, |s.part|)) else s.w.open
  }

  predicate CountedOk(f: Frame) {
    f.status != 0 && f.rcc == RawCount(|f.bytes|)
  }

  /** The frame in front is not used up, and the frames in the ring were counted as raw mode does. */
  ghost predicate InHand(s: Raw) {
    && (s.part != [] ==> |s.part| < |Front(s.w)|)
    && forall i :: |s.w.fates| <= i < |s.w.wire| ==> CountedOk(s.w.wire[i])
  }

  ghost predicate RawShape(s: Raw) {
    Shape(s.w.rx, Stored(s), StoredOpen(s)) && |s.w.rx.view| >= 2
  }

  ghost predicate RawInv(s: Raw) {
    Faithful(s) && InHand(s) && RawShape(s)
  }

  // ----- device steps -----

  /** Buffers handed over do not change how far the buffer being filled is filled. */
  lemma {:induction false} FilledAfter(len: nat, k: nat)
    requires Whole(k) && (k == 0 || k < len)
    ensures Filled(len - k) == Filled(len)
    decreases k
  {
    if k > 0 { FilledAfter(len - BUFFER_SIZE, k - BUFFER_SIZE); }
  }

  lemma {:induction false} WholeNext(k: nat)
    requires Whole(k)
    ensures Whole(k + BUFFER_SIZE)
  {
  }

  /** The last buffer is filled to the length modulo the buffer size, a full one counting as 0. */
  lemma {:induction false} FilledModulo(len: nat)
    ensures len % 4096 == if Filled(len) == BUFFER_SIZE then 0 else Filled(len)
  {
    if len > BUFFER_SIZE {
      FilledModulo(len - BUFFER_SIZE);
      var q, r := (len - BUFFER_SIZE) / 4096, (len - BUFFER_SIZE) % 4096;
      assert len == (q + 1) * 4096 + r;
    }
  }

  /** The device goes by how far its buffer is filled, not by what was handed over before. */
  lemma GrowAlike(w: World, rest: seq<byte>, bs: seq<byte>)
    requires w.rx.Ok() && w.open.Some? && Filled(|rest|) == Filled(|w.open.value|)
    ensures var w', v' := Grow(w, bs), Grow(w.(open := Some(rest)), bs);
            && w' == w.(rx := v'.rx, open := w'.open)
            && if v'.open == Some(rest) then w'.open == w.open
               else w'.open == Some(w.open.value + bs) && v'.open == Some(rest + bs)
  {
  }

  lemma GrowHistory(s: Raw, s': Raw)
    requires Faithful(s) && InHand(s)
    requires s' == s.(w := s.w.(rx := s'.w.rx, open := s'.w.open))
    requires s.w.open.Some? ==> s'.w.open.Some? && s.w.open.value <= s'.w.open.value
    ensures Faithful(s') && InHand(s') && Left(s'.w) == Left(s.w)
  {
  }

  lemma DropGrown(b: seq<byte>, bs: seq<byte>, k: nat)
    ensures k <= |b| ==> Drop(b + bs, k) == Drop(b, k) + bs
  {
  }

  /** Growing seen on what is left in the ring. */
  lemma GrowStored(s: Raw, bs: seq<byte>)
    requires RawInv(s) && s.w.open.Some?
    ensures var s', v' := RawStep(s, Extend(bs)), Grow(s.w.(open := StoredOpen(s)), bs);
            s'.w.rx == v'.rx && Left(s'.w) == Left(s.w) && StoredOpen(s') == v'.open
  {
    var b, s' := s.w.open.value, RawStep(s, Extend(bs));
    if Left(s.w) == [] { FilledAfter(|b|, |s.part|); }
    GrowAlike(s.w, StoredOpen(s).value, bs);
    assert Left(s'.w) == Left(s.w);
    DropGrown(b, bs, |s.part|);
  }

  lemma GrowKeeps(s: Raw, bs: seq<byte>)
    requires RawInv(s)
    ensures RawInv(RawStep(s, Extend(bs)))
  {
    if s.w.open.Some? {
      GrowStored(s, bs);
      GrowShape(s.w.(open := StoredOpen(s)), bs, Stored(s));
      GrowAlike(s.w, s.w.open.value, bs);
      GrowHistory(s, RawStep(s, Extend(bs)));
    }
  }

  lemma BeginHistory(s: Raw, s': Raw)
    requires Faithful(s) && InHand(s) && s.w.open.None?
    requires s' == s.(w := s.w.(rx := s'.w.rx, open := s'.w.open))
    ensures Faithful(s') && InHand(s') && Left(s'.w) == Left(s.w)
    ensures Left(s.w) == [] ==> s.part == []
  {
  }

  lemma RawBeginKeeps(s: Raw, bs: seq<byte>)
    requires RawInv(s)
    ensures RawInv(RawStep(s, Begin(bs)))
  {
    if s.w.open.None? {
      var s' := RawStep(s, Begin(bs));
      BeginHistory(s, s');
      BeginShape(s.w, bs, Stored(s));
      assert s'.w.open.Some? ==> Drop(s'.w.open.value, 0) == s'.w.open.value;
    } else {
      assert RawStep(s, Begin(bs)) == s;
    }
  }

  lemma EndStored(s: Raw, status: bv16, f: Frame)
    requires RawInv(s) && s.w.rx.dma.phase.InFrame? && status != 0
    requires f == Frame(s.w.open.value, status, RawCount(Arrived(s.w)))
    ensures var s' := RawStep(s, End(status)); Left(s'.w) == Left(s.w) + [f] && RawShape(s')
  {
    var s', rest := RawStep(s, End(status)), StoredOpen(s).value;
    CloseShape(s.w.(open := Some(rest)), status, f.rcc, Stored(s));
    assert Left(s'.w) == Left(s.w) + [f];
    assert Stored(s') == Stored(s) + [Frame(rest, status, f.rcc)];
  }

  lemma EndHistory(s: Raw, f: Frame, s': Raw)
    requires Faithful(s) && InHand(s) && CountedOk(f) && s.w.open == Some(f.bytes)
    requires s' == s.(w := s.w.(rx := s'.w.rx, open := None, wire := s.w.wire + [f]))
    ensures Faithful(s') && InHand(s')
  {
    assert Left(s'.w) == Left(s.w) + [f];
  }

  lemma RawEndKeeps(s: Raw, status: bv16)
    requires RawInv(s)
    ensures RawInv(RawStep(s, End(status)))
  {
    if s.w.rx.dma.phase.InFrame? && status != 0 {
      var f := Frame(s.w.open.value, status, RawCount(Arrived(s.w)));
      EndStored(s, status, f);
      EndHistory(s, f, RawStep(s, End(status)));
    }
  }

  // ----- extraction -----

  /** The first entry is freed and `current` moves past it; everything else stays in place. */
  lemma FreedOne(r: Rx, q: seq<Frame>, open: Option<seq<byte>>, q': seq<Frame>, open': Option<seq<byte>>)
    requires Shape(r, q, open) && |r.view| > 0
    requires Used(q) + OpenBlocks(open) == Used(q') + OpenBlocks(open') + 1
    requires open.Some? <==> open'.Some?
    requires Laid(FreeFront(r, 1).view, q', open')
    ensures Shape(FreeFront(r, 1), q', open')
  {
  }

  lemma {:induction false} FramesShortened(v: seq<Entry>, q: seq<Frame>, v': seq<Entry>, q': seq<Frame>)
    requires FramesAt(v, 0, q) && q != [] && |q[0].bytes| > BUFFER_SIZE && Same(v, 1, |v|, v', -1)
    requires q' == [After(q[0], BUFFER_SIZE)] + q[1..]
    ensures FramesAt(v', 0, q') && Used(q') + 1 == Used(q)
  {
    FramesUse(v, 0, q);
    FrameShortened(v, q[0], v');
    assert q'[1..] == q[1..];
    FramesMoved(v, Blocks(|q[0].bytes|), q[1..], v', -1);
  }

  lemma LaidShortened(v: seq<Entry>, q: seq<Frame>, open: Option<seq<byte>>, v': seq<Entry>, q': seq<Frame>)
    requires Laid(v, q, open) && q != [] && |q[0].bytes| > BUFFER_SIZE
    requires |v| == |v'| && Same(v, 1, |v|, v', -1) && FreeFrom(v', |v| - 1)
    requires q' == [After(q[0], BUFFER_SIZE)] + q[1..]
    ensures Laid(v', q', open) && Used(q') + 1 == Used(q)
  {
    FramesShortened(v, q, v', q');
    if open.Some? { OpenMoved(v, Used(q), open.value, v', -1); }
    FreeMoved(v, Used(q) + OpenBlocks(open), v');
  }

  /** The first of a frame's buffers is freed. */
  lemma FrontShortened(r: Rx, q: seq<Frame>, open: Option<seq<byte>>)
    requires Shape(r, q, open) && q != [] && |q[0].bytes| > BUFFER_SIZE
    ensures Shape(FreeFront(r, 1), [After(q[0], BUFFER_SIZE)] + q[1..], open)
    ensures Used([After(q[0], BUFFER_SIZE)] + q[1..]) + 1 == Used(q)
  {
    var q' := [After(q[0], BUFFER_SIZE)] + q[1..];
    FreedFront(r.view, 1);
    LaidShortened(r.view, q, open, FreeFront(r, 1).view, q');
    FreedOne(r, q, open, q', open);
  }

  lemma FrameShortened(v: seq<Entry>, f: Frame, v': seq<Entry>)
    requires FrameAt(v, 0, f) && |f.bytes| > BUFFER_SIZE && Same(v, 1, |v|, v', -1)
    ensures FrameAt(v', 0, After(f, BUFFER_SIZE))
  {
    var last := Blocks(|f.bytes|) - 1;
    HoldsMoved(v, 1, f.bytes[BUFFER_SIZE..], v', -1);
    assert v'[last + -1] == v[last];
    forall i | 0 <= i < last - 1 ensures v'[i].status == 0 {
      assert v'[(i + 1) + -1] == v[i + 1];
    }
  }

  lemma FreeMoved(v: seq<Entry>, k: nat, v': seq<Entry>)
    requires FreeFrom(v, k) && 0 < k <= |v| == |v'| && Same(v, 1, |v|, v', -1) && FreeFrom(v', |v| - 1)
    ensures FreeFrom(v', k - 1)
  {
    forall i | k - 1 <= i < |v| ensures Free(v'[i]) {
      if i + 1 < |v| { assert v'[(i + 1) + -1] == v[i + 1]; }
    }
  }

  /** The first buffer of the unfinished run is freed. */
  lemma OpenShortened(r: Rx, b: seq<byte>)
    requires Shape(r, [], Some(b)) && |b| > BUFFER_SIZE
    ensures Shape(FreeFront(r, 1), [], Some(b[BUFFER_SIZE..]))
  {
    var v, v' := r.view, FreeFront(r, 1).view;
    FreedFront(v, 1);
    HoldsMoved(v, 1, b[BUFFER_SIZE..], v', -1);
    forall i | 0 <= i < Blocks(|b|) - 1 ensures v'[i].status == 0 {
      assert v'[(i + 1) + -1] == v[i + 1];
    }
    FreeMoved(v, Blocks(|b|), v');
    FreedOne(r, [], Some(b), [], Some(b[BUFFER_SIZE..]));
  }

  /** The last of a frame's buffers is freed. */
  lemma FrontTaken(r: Rx, q: seq<Frame>, open: Option<seq<byte>>)
    requires Shape(r, q, open) && q != [] && |q[0].bytes| <= BUFFER_SIZE
    ensures Shape(FreeFront(r, 1), q[1..], open)
  {
    TakeShape(r, q, open, 1);
  }

  /** Buffers that are complete and still in the ring. */
  function Complete(s: Raw): nat {
    Used(Stored(s)) + if StoredOpen(s).Some? then Blocks(|StoredOpen(s).value|) - 1 else 0
  }

  /** What is still in the ring of the frame in front. */
  function FrontRest(s: Raw): seq<byte> {
    Drop(Front(s.w), |s.part|)
  }

  /** A buffer that is not the last of its frame so far is handed over whole. */
  lemma MiddleBuffer(r: Rx, q: seq<Frame>, open: Option<seq<byte>>, rest: seq<byte>)
    requires Shape(r, q, open) && |rest| > BUFFER_SIZE
    requires if q != [] then rest == q[0].bytes else open == Some(rest)
    ensures GetRaw(r) == Got(RestartIfOverflow(FreeFront(r, 1)), Some(rest[..BUFFER_SIZE]), true)
    ensures r.view[0].status == 0
  {
    assert Holds(r.view, 0, rest) && Holds(r.view, 1, rest[BUFFER_SIZE..]);
    assert EntryOk(r.view[0]);
    assert r.view[0].data[..BUFFER_SIZE] == r.view[0].data;
  }

  /** How many bytes the driver takes from a frame's last buffer, of which `rest` is the contents. */
  lemma LastSize(e: Entry, f: Frame, k: nat, rest: nat)
    requires EntryOk(e) && CountedOk(f) && e.status == f.status && e.rcc == f.rcc
    requires |f.bytes| == k + rest && rest <= BUFFER_SIZE && Whole(k) && (k > 0 ==> rest > 0)
    ensures Filled(|f.bytes|) == rest
    ensures RawSize(e) == if Erroneous(f.status) then 0
                          else if |f.bytes| >= RCLR_VALUE then BUFFER_SIZE
                          else if |f.bytes| > BUFFER_SIZE && rest == BUFFER_SIZE then 0
                          else rest
  {
    FilledAfter(|f.bytes|, k);
    FilledModulo(|f.bytes|);
    CountedSize(e, |f.bytes|);
  }

  lemma CountedSize(e: Entry, len: nat)
    requires EntryOk(e) && e.status != 0 && e.rcc == RawCount(len)
    ensures RawSize(e) == if Erroneous(e.status) then 0
                          else if len >= RCLR_VALUE then BUFFER_SIZE
                          else if len > BUFFER_SIZE then len % 4096 else len
  {
  }

  lemma LastGives(e: Entry, f: Frame, part: seq<byte>, rest: seq<byte>)
    requires EntryOk(e) && CountedOk(f) && e.status == f.status && e.rcc == f.rcc
    requires f.bytes == part + rest && |rest| <= BUFFER_SIZE && Whole(|part|) && (part != [] ==> rest != [])
    requires e.data[..|rest|] == rest
    ensures Gave(f, part + e.data[..RawSize(e)])
  {
    LastSize(e, f, |part|, |rest|);
    Pieces(part, rest, e.data);
    GaveAs(f, part, part + e.data[..RawSize(e)]);
  }

  /** `Gave` in terms of the bytes before the last buffer. */
  lemma GaveAs(f: Frame, part: seq<byte>, out: seq<byte>)
    requires |part| == |f.bytes| - Filled(|f.bytes|) && part <= f.bytes
    requires if Erroneous(f.status) then out == part
             else if |f.bytes| >= RCLR_VALUE then |out| == |part| + BUFFER_SIZE && f.bytes <= out
             else if |f.bytes| > BUFFER_SIZE && Filled(|f.bytes|) == BUFFER_SIZE then out == part
             else out == f.bytes
    ensures Gave(f, out)
  {
  }

  lemma Pieces(part: seq<byte>, rest: seq<byte>, data: seq<byte>)
    requires |rest| <= |data| == BUFFER_SIZE && data[..|rest|] == rest
    ensures (part + rest)[..|part|] == part == part + data[..0]
    ensures part + rest <= part + data[..BUFFER_SIZE]
  {
    assert data == rest + data[|rest|..];
  }

  /** With a status in the first entry the last buffer of the frame in front is handed over. */
  lemma LastBuffer(s: Raw)
    requires RawInv(s) && Left(s.w) != [] && |FrontRest(s)| <= BUFFER_SIZE
    ensures var r, g, f := s.w.rx, GetRaw(s.w.rx), Left(s.w)[0];
            && r.view[0].status != 0 && g.more && g.rx == RestartIfOverflow(FreeFront(r, 1))
            && Gave(f, s.part + Bytes(g.delivered))
  {
    var f, e := Left(s.w)[0], s.w.rx.view[0];
    StoredFront(s);
    LastGives(e, f, s.part, FrontRest(s));
    TakenBytes(s.w.rx);
  }

  lemma StoredFront(s: Raw)
    requires RawInv(s) && Left(s.w) != [] && |FrontRest(s)| <= BUFFER_SIZE
    ensures var f, e, rest := Left(s.w)[0], s.w.rx.view[0], FrontRest(s);
            && EntryOk(e) && CountedOk(f) && e.status == f.status && e.rcc == f.rcc
            && f.bytes == s.part + rest && (s.part != [] ==> rest != []) && e.data[..|rest|] == rest
  {
    FrontStored(s);
    OnlyBuffer(s.w.rx.view, After(Left(s.w)[0], |s.part|));
  }

  lemma FrontStored(s: Raw)
    requires RawInv(s) && Left(s.w) != []
    ensures FrameAt(s.w.rx.view, 0, After(Left(s.w)[0], |s.part|)) && CountedOk(Left(s.w)[0])
  {
    assert CountedOk(s.w.wire[|s.w.fates|]);
  }

  lemma OnlyBuffer(v: seq<Entry>, f: Frame)
    requires FrameAt(v, 0, f) && |f.bytes| <= BUFFER_SIZE
    ensures EntryOk(v[0]) && v[0].status == f.status && v[0].rcc == f.rcc && v[0].data[..|f.bytes|] == f.bytes
  {
  }

  lemma TakenBytes(r: Rx)
    requires r.Ok() && r.view[0].status != 0
    ensures EntryOk(r.view[0]) && Bytes(GetRaw(r).delivered) == r.view[0].data[..RawSize(r.view[0])]
    ensures GetRaw(r).more && GetRaw(r).rx == RestartIfOverflow(FreeFront(r, 1))
  {
  }

  /** Otherwise nothing is handed over: with two entries or more, the entry behind the one being
      filled is free. */
  lemma NothingYet(r: Rx, open: Option<seq<byte>>)
    requires Shape(r, [], open) && |r.view| >= 2 && (open.Some? ==> |open.value| <= BUFFER_SIZE)
    ensures GetRaw(r) == Got(if open.None? then RestartIfOverflow(r) else r, None, false)
    ensures open.None? <==> r.view[0].count != 0
  {
    assert Free(r.view[1]);
  }

  // ----- the history of an extraction and of a loss -----

  lemma {:induction false} JoinedEmpties(outs: seq<seq<byte>>, n: nat)
    ensures Joined(outs + seq(n, _ => [])) == Joined(outs)
    decreases n
  {
    var all := outs + seq(n, _ => []);
    if n == 0 {
      assert all == outs;
    } else {
      assert all[..|all| - 1] == outs + seq(n - 1, _ => []);
      JoinedEmpties(outs, n - 1);
    }
  }

  lemma JoinedNext(outs: seq<seq<byte>>, b: seq<byte>)
    ensures Joined(outs + [b]) == Joined(outs) + b
  {
    assert (outs + [b])[..|outs|] == outs;
  }

  lemma {:induction false} GiveUpHistory(s: Raw)
    requires Faithful(s) && InHand(s)
    ensures Faithful(GiveUp(s)) && InHand(GiveUp(s)) && Left(GiveUp(s).w) == Left(s.w)
  {
    JoinedNext(s.w.delivered, s.part);
    assert Left(GiveUp(s).w) == Left(s.w);
  }

  lemma LostAccounted(s: Raw)
    requires Faithful(s) && Left(s.w) != []
    ensures var w' := LoseWaiting(s).w;
            && |w'.delivered| == |w'.fates| == |w'.wire|
            && forall i :: 0 <= i < |w'.fates| ==> Accounted(w'.wire[i], w'.fates[i], w'.delivered[i])
  {
    var w, w' := s.w, LoseWaiting(s).w;
    forall i | 0 <= i < |w'.fates| ensures Accounted(w'.wire[i], w'.fates[i], w'.delivered[i]) {
      if i < |w.fates| { assert Accounted(w.wire[i], w.fates[i], w.delivered[i]); }
    }
  }

  lemma LostJoined(s: Raw)
    requires s.handed == Joined(s.w.delivered) + s.part && Left(s.w) != []
    ensures LoseWaiting(s).handed == Joined(LoseWaiting(s).w.delivered) + []
  {
    JoinedNext(s.w.delivered, s.part);
    JoinedEmpties(s.w.delivered + [s.part], |Left(s.w)| - 1);
  }

  lemma LoseWaitingHistory(s: Raw)
    requires Faithful(s) && InHand(s) && s.w.open.None?
    ensures var s' := LoseWaiting(s); Faithful(s') && InHand(s') && Left(s'.w) == [] && s'.part == []
  {
    if Left(s.w) != [] {
      LostAccounted(s);
      LostJoined(s);
    }
  }

  /** After a whole-ring reset. */
  lemma LoseAllKeeps(s: Raw)
    requires Faithful(s) && InHand(s)
    requires Shape(s.w.rx, [], None) && |s.w.rx.view| >= 2
    ensures RawInv(LoseAll(s))
  {
    GiveUpHistory(s);
    LoseWaitingHistory(GiveUp(s));
  }

  /** The receiver itself is no part of the history. */
  lemma HistoryOnly(s: Raw, rx: Rx)
    requires Faithful(s) && InHand(s)
    ensures var s' := s.(w := s.w.(rx := rx)); Faithful(s') && InHand(s') && Left(s'.w) == Left(s.w)
  {
  }

  lemma MiddleHistory(s: Raw)
    requires Faithful(s) && InHand(s) && |FrontRest(s)| > BUFFER_SIZE
    ensures var s' := HandOver(s, FrontRest(s)[..BUFFER_SIZE], false);
            Faithful(s') && InHand(s') && FrontRest(s') == FrontRest(s)[BUFFER_SIZE..]
  {
    WholeNext(|s.part|);
  }

  lemma AccountedNext(wire: seq<Frame>, fates: seq<Fate>, outs: seq<seq<byte>>, out: seq<byte>)
    requires |outs| == |fates| < |wire| && Gave(wire[|fates|], out)
    requires forall i :: 0 <= i < |fates| ==> Accounted(wire[i], fates[i], outs[i])
    ensures forall i :: 0 <= i <= |fates| ==> Accounted(wire[i], (fates + [Taken])[i], (outs + [out])[i])
  {
  }

  lemma LastJoined(s: Raw, chunk: seq<byte>)
    requires s.handed == Joined(s.w.delivered) + s.part
    ensures var s' := HandOver(s, chunk, true); s'.handed == Joined(s'.w.delivered) + s'.part
  {
    JoinedNext(s.w.delivered, s.part + chunk);
    assert HandOver(s, chunk, true).handed == Joined(s.w.delivered) + (s.part + chunk) + [];
  }

  lemma LastHistory(s: Raw, chunk: seq<byte>)
    requires Faithful(s) && InHand(s) && Left(s.w) != [] && Gave(Left(s.w)[0], s.part + chunk)
    ensures var s' := HandOver(s, chunk, true);
            Faithful(s') && InHand(s') && Left(s'.w) == Left(s.w)[1..]
  {
    LastJoined(s, chunk);
    AccountedNext(s.w.wire, s.w.fates, s.w.delivered, s.part + chunk);
    assert Left(HandOver(s, chunk, true).w) == Left(s.w)[1..];
  }

  // ----- driver steps -----

  /** One buffer goes: the history moves on and the rest of the ring stays in place. */
  lemma MiddleKeeps(s: Raw, s': Raw)
    requires RawInv(s) && |FrontRest(s)| > BUFFER_SIZE
    requires var h := HandOver(s, FrontRest(s)[..BUFFER_SIZE], false);
             s' == h.(w := h.w.(rx := FreeFront(s.w.rx, 1)))
    ensures RawInv(s') && Complete(s') + 1 == Complete(s)
  {
    var h := HandOver(s, FrontRest(s)[..BUFFER_SIZE], false);
    MiddleHistory(s);
    HistoryOnly(h, FreeFront(s.w.rx, 1));
    if Left(s.w) != [] {
      FrontShortened(s.w.rx, Stored(s), StoredOpen(s));
      assert Stored(s') == [After(Stored(s)[0], BUFFER_SIZE)] + Stored(s)[1..];
    } else {
      OpenShortened(s.w.rx, FrontRest(s));
    }
  }

  lemma LastKeeps(s: Raw, chunk: seq<byte>, s': Raw)
    requires RawInv(s) && Left(s.w) != [] && |FrontRest(s)| <= BUFFER_SIZE
    requires Gave(Left(s.w)[0], s.part + chunk)
    requires var h := HandOver(s, chunk, true);
             s' == h.(w := h.w.(rx := FreeFront(s.w.rx, 1)))
    ensures RawInv(s') && Complete(s') + 1 == Complete(s)
  {
    var h := HandOver(s, chunk, true);
    LastHistory(s, chunk);
    HistoryOnly(h, FreeFront(s.w.rx, 1));
    FrontTaken(s.w.rx, Stored(s), StoredOpen(s));
    NextInFront(s, s');
  }

  /** Once the frame in front is gone the next one is whole. */
  lemma NextInFront(s: Raw, s': Raw)
    requires Left(s.w) != [] && Left(s'.w) == Left(s.w)[1..] && s'.w.open == s.w.open && s'.part == []
    ensures Stored(s') == Stored(s)[1..] && StoredOpen(s') == StoredOpen(s)
  {
    var q := Left(s'.w);
    if q != [] {
      assert After(q[0], 0) == q[0];
      assert [q[0]] + q[1..] == q;
    } else if s'.w.open.Some? {
      assert Drop(s'.w.open.value, 0) == s'.w.open.value;
    }
  }

  lemma RestartedShape(r: Rx)
    requires r.Ok()
    ensures Shape(StartReceiver(r), [], None)
  {
  }

  /** The restart that an overflow asks for. */
  lemma OverflowKeeps(s: Raw, s': Raw)
    requires RawInv(s)
    requires s' == if s.w.rx.enabled && s.w.rx.overflow then LoseAll(s.(w := s.w.(rx := StartReceiver(s.w.rx)))) else s
    ensures RawInv(s')
  {
    if s.w.rx.enabled && s.w.rx.overflow { RawRestartKeeps(s); }
  }

  lemma RawRestartKeeps(s: Raw)
    requires RawInv(s)
    ensures RawInv(RawRestart(s))
  {
    HistoryOnly(s, StartReceiver(s.w.rx));
    RestartedShape(s.w.rx);
    LoseAllKeeps(s.(w := s.w.(rx := StartReceiver(s.w.rx))));
  }

  lemma RawExtractKeeps(s: Raw)
    requires RawInv(s)
    ensures RawInv(RawExtract(s))
    ensures GetRaw(s.w.rx).more <==> Left(s.w) != [] || |FrontRest(s)| > BUFFER_SIZE
  {
    var r := s.w.rx;
    if |FrontRest(s)| > BUFFER_SIZE {
      MiddleBuffer(r, Stored(s), StoredOpen(s), FrontRest(s));
      var h := HandOver(s, FrontRest(s)[..BUFFER_SIZE], false);
      var s' := h.(w := h.w.(rx := FreeFront(r, 1)));
      MiddleKeeps(s, s');
      OverflowKeeps(s', RawExtract(s));
    } else if Left(s.w) != [] {
      LastBuffer(s);
      var chunk := Bytes(GetRaw(r).delivered);
      var h := HandOver(s, chunk, true);
      var s' := h.(w := h.w.(rx := FreeFront(r, 1)));
      LastKeeps(s, chunk, s');
      OverflowKeeps(s', RawExtract(s));
    } else {
      NothingYet(r, StoredOpen(s));
      if s.w.open.None? { OverflowKeeps(s, RawExtract(s)); }
    }
  }

  /** Recovery that gives up at most the unfinished frame. */
  lemma GivenUpShape(s: Raw, rx: Rx)
    requires RawInv(s) && Shape(rx, Stored(s), None) && |rx.view| >= 2
    ensures RawShape(GiveUp(s.(w := s.w.(rx := rx))))
  {
    var s' := GiveUp(s.(w := s.w.(rx := rx)));
    assert Left(s'.w) == Left(s.w);
  }

  lemma RecoverIsGiveUp(s: Raw)
    requires RawInv(s) && Used(Stored(s)) + OpenBlocks(StoredOpen(s)) < |s.w.rx.view|
    ensures RawRecover(s) == GiveUp(s.(w := s.w.(rx := RecoverOverrun(s.w.rx))))
  {
    RecoveryScan(s.w.rx.view, Stored(s), StoredOpen(s));
  }

  lemma RawRecoverKeeps(s: Raw)
    requires RawInv(s)
    ensures RawInv(RawRecover(s))
  {
    var r, q, open := s.w.rx, Stored(s), StoredOpen(s);
    var next := s.(w := s.w.(rx := RecoverOverrun(r)));
    HistoryOnly(s, RecoverOverrun(r));
    if Used(q) + OpenBlocks(open) == |r.view| {
      RecoveryScan(r.view, q, open);
      RecoveryResets(r, q, open);
      LoseAllKeeps(next);
    } else {
      RecoverIsGiveUp(s);
      RecoverPart(r, q, open);
      GivenUpShape(s, RecoverOverrun(r));
      GiveUpHistory(next);
    }
  }

  /** Acknowledging, stopping or resuming leaves the ring alone. */
  lemma QuietShape(r: Rx, r': Rx, q: seq<Frame>, open: Option<seq<byte>>)
    requires Shape(r, q, open) && r'.view == r.view && r'.cur == r.cur && r'.dma.entry == r.dma.entry
    requires r'.dma.phase.Halted? || r'.dma.phase == r.dma.phase || (r.dma.phase.Paused? && r'.dma.phase.Hunting?)
    ensures Shape(r', q, open)
  {
  }

  lemma RawQuietKeeps(s: Raw, a: Action)
    requires RawInv(s) && (a.Resume? || a.DmaIrq? || a.Disable?)
    ensures RawInv(RawStep(s, a))
  {
    var r' := RawStep(s, a).w.rx;
    assert RawStep(s, a) == s.(w := s.w.(rx := r'));
    HistoryOnly(s, r');
    QuietShape(s.w.rx, r', Stored(s), StoredOpen(s));
  }

  lemma DriverSteps(s: Raw)
    requires s.w.rx.Ok()
    ensures RawStep(s, Extract) == RawExtract(s) && RawStep(s, OverrunIrq) == RawRecover(s)
    ensures RawStep(s, Enable) == if s.w.rx.enabled then s else RawRestart(s)
  {
  }

  lemma RawEnableKeeps(s: Raw)
    requires RawInv(s)
    ensures RawInv(RawStep(s, Enable))
  {
    DriverSteps(s);
    if !s.w.rx.enabled { RawRestartKeeps(s); }
  }

  lemma RawExtractStepKeeps(s: Raw)
    requires RawInv(s)
    ensures RawInv(RawStep(s, Extract))
  {
    DriverSteps(s);
    RawExtractKeeps(s);
  }

  lemma RawRecoverStepKeeps(s: Raw)
    requires RawInv(s)
    ensures RawInv(RawStep(s, OverrunIrq))
  {
    DriverSteps(s);
    RawRecoverKeeps(s);
  }

  /** Every step in raw mode keeps the account and the ring, frames of any length arriving while
      their buffers are handed over. */
  lemma RawStepKeeps(s: Raw, a: Action)
    requires RawInv(s)
    ensures RawInv(RawStep(s, a))
  {
    if a.Begin? {
      RawBeginKeeps(s, a.bs);
    } else if a.Extend? {
      GrowKeeps(s, a.more);
    } else if a.End? {
      RawEndKeeps(s, a.status);
    } else if a.Extract? {
      RawExtractStepKeeps(s);
    } else if a.OverrunIrq? {
      RawRecoverStepKeeps(s);
    } else if a.Enable? {
      RawEnableKeeps(s);
    } else if a.Resume? || a.DmaIrq? || a.Disable? {
      RawQuietKeeps(s, a);
    }
  }

  lemma {:induction false} RawRunKeeps(s: Raw, actions: seq<Action>)
    requires RawInv(s)
    ensures RawInv(RawRun(s, actions))
    decreases |actions|
  {
    if actions != [] {
      RawStepKeeps(s, actions[0]);
      RawRunKeeps(RawStep(s, actions[0]), actions[1..]);
    }
  }

  // ----- whole runs -----

  predicate RawInitial(s: Raw) {
    Initial(s.w) && s.part == [] && s.handed == []
  }

  lemma RawInitialHolds(s: Raw)
    requires RawInitial(s)
    ensures s.w.rx.Ok() && Faithful(s) && InHand(s)
    ensures |s.w.rx.view| >= 2 ==> RawInv(s)
  {
  }

  /** A frame that was taken comes out whole exactly when it is empty, or without error and either
      counted and not filling a last buffer of several, or beyond the count register and filling it. */
  lemma GaveWhole(f: Frame, out: seq<byte>)
    requires Gave(f, out)
    ensures out == f.bytes <==> ComesWhole(f)
  {
    FilledModulo(|f.bytes|);
    assert f.bytes[..|f.bytes|] == f.bytes;
  }

  /** Frames are lost only by steps that discard frames. */
  lemma GiveUpGrows(s: Raw)
    ensures Grows(s.w, GiveUp(s).w)
  {
  }

  lemma LoseAllGrows(s: Raw)
    ensures Grows(s.w, LoseAll(s).w)
  {
    GiveUpGrows(s);
    var t := GiveUp(s);
    assert Grows(t.w, LoseWaiting(t).w);
  }

  lemma RawExtractGrows(s: Raw)
    requires s.w.rx.Ok()
    ensures Grows(s.w, RawExtract(s).w)
  {
    var r, g := s.w.rx, GetRaw(s.w.rx);
    var h := if g.more then HandOver(s, Bytes(g.delivered), r.view[0].status != 0) else s;
    assert Grows(s.w, h.w);
    LoseAllGrows(h.(w := h.w.(rx := g.rx)));
  }

  lemma RawRecoverGrows(s: Raw)
    requires s.w.rx.Ok()
    ensures Grows(s.w, RawRecover(s).w)
  {
    var next := s.(w := s.w.(rx := RecoverOverrun(s.w.rx)));
    GiveUpGrows(next);
    LoseAllGrows(next);
  }

  lemma RawStepGrows(s: Raw, a: Action)
    requires s.w.rx.Ok()
    ensures Grows(s.w, RawStep(s, a).w)
  {
    match a
    case Begin(_) =>
    case Extend(_) =>
    case End(_) =>
    case Resume =>
    case DmaIrq =>
    case OverrunIrq => RawRecoverGrows(s);
    case Extract => RawExtractGrows(s);
    case Enable => LoseAllGrows(s.(w := s.w.(rx := StartReceiver(s.w.rx))));
    case Disable =>
    case UnderrunIrq =>
    case RestartUnderrun =>
  }

  lemma {:induction false} RawRunGrows(s: Raw, actions: seq<Action>)
    requires s.w.rx.Ok()
    ensures Grows(s.w, RawRun(s, actions).w)
    decreases |actions|
  {
    if actions != [] {
      RawStepGrows(s, actions[0]);
      RawRunGrows(RawStep(s, actions[0]), actions[1..]);
    }
  }

  /** In every raw-mode run on two entries or more that discards nothing, what was handed over is,
      frame by frame, what the frames taken give, then whole buffers of the frame in front; and a
      taken frame came out whole exactly when its length and status say so. */
  lemma RawStream(s: Raw, actions: seq<Action>)
    requires RawInitial(s) && |s.w.rx.view| >= 2
    ensures s.w.rx.Ok()
    ensures var s' := RawRun(s, actions);
            && Faithful(s')
            && (forall i :: 0 <= i < |s'.w.fates| && s'.w.fates[i].Taken? ==>
                  (s'.w.delivered[i] == s'.w.wire[i].bytes <==> ComesWhole(s'.w.wire[i])))
            && (s'.w.resets == 0 ==> forall i :: 0 <= i < |s'.w.fates| ==> Gave(s'.w.wire[i], s'.w.delivered[i]))
  {
    var s' := RawRun(s, actions);
    RawInitialHolds(s);
    RawRunKeeps(s, actions);
    RawRunGrows(s, actions);
    forall i | 0 <= i < |s'.w.fates| && s'.w.fates[i].Taken?
      ensures s'.w.delivered[i] == s'.w.wire[i].bytes <==> ComesWhole(s'.w.wire[i])
    {
      assert Accounted(s'.w.wire[i], s'.w.fates[i], s'.w.delivered[i]);
      GaveWhole(s'.w.wire[i], s'.w.delivered[i]);
    }
  }

  /** With a single entry the next entry is the same one, so a buffer that has just begun to be
      filled counts as complete: one byte arrives and 4096 are handed over. */
  lemma OneEntryFails(s: Raw)
    requires RawInitial(s) && |s.w.rx.view| == 1 && !s.w.rx.enabled
    ensures s.w.rx.Ok() && !Faithful(RawRun(s, [Enable, Begin([0]), Extract]))
  {
    var s1 := OneEntryStarted(s);
    var s2 := RawStep(s1, Begin([0]));
    OneByteArrives(s1);
    HandedTooMuch(s2);
    var rest := [Begin([0]), Extract];
    assert ([Enable] + rest)[1..] == rest && rest[1..] == [Extract] && [Extract][1..] == [];
    assert [Enable] + rest == [Enable, Begin([0]), Extract];
    assert RawRun(s, [Enable] + rest) == RawRun(s1, rest);
    assert RawRun(s1, rest) == RawRun(s2, [Extract]) == RawStep(s2, Extract);
  }

  lemma OneEntryStarted(s: Raw) returns (s1: Raw)
    requires RawInitial(s) && |s.w.rx.view| == 1 && !s.w.rx.enabled
    ensures s.w.rx.Ok() && s1 == RawStep(s, Enable)
    ensures s1.w.rx == StartReceiver(s.w.rx) && s1.w.open.None? && s1.part == []
    ensures |s1.w.fates| >= |s1.w.wire|
  {
    s1 := RawStep(s, Enable);
  }

  lemma OneByteArrives(s: Raw)
    requires s.w.rx.Ok() && |s.w.rx.view| == 1 && Free(s.w.rx.view[0]) && s.w.rx.cur == 0 && !s.w.rx.overflow
    requires s.w.rx.dma.phase.Hunting? && s.w.rx.dma.entry == 0 && s.w.open.None?
    ensures var s', e := RawStep(s, Begin([0])), RawStep(s, Begin([0])).w.rx.view[0];
            && e.count == 0 && e.status == 0 && s'.w.open == Some([0]) && !s'.w.rx.overflow
            && |s'.w.rx.view| == 1 && s'.part == s.part && s'.w.wire == s.w.wire && s'.w.fates == s.w.fates
  {
    assert [] + [0] == [0];
  }

  lemma HandedTooMuch(s: Raw)
    requires s.w.rx.Ok() && |s.w.rx.view| == 1 && !s.w.rx.overflow && s.w.open == Some([0])
    requires s.w.rx.view[0].count == 0 && s.w.rx.view[0].status == 0
    requires s.part == [] && |s.w.fates| >= |s.w.wire|
    ensures !Faithful(RawStep(s, Extract))
  {
    assert EntryOk(s.w.rx.view[0]);
    var s' := RawStep(s, Extract);
    assert |s'.part| == BUFFER_SIZE && Front(s'.w) == [0];
  }

  /** Raw mode accounts for every byte in every run if and only if the ring has two entries or more. */
  lemma RawExact(s: Raw)
    requires RawInitial(s) && !s.w.rx.enabled
    ensures s.w.rx.Ok()
    ensures (forall actions :: Faithful(RawRun(s, actions))) <==> |s.w.rx.view| >= 2
  {
    RawInitialHolds(s);
    if |s.w.rx.view| >= 2 {
      forall actions ensures Faithful(RawRun(s, actions)) { RawStream(s, actions); }
    } else {
      OneEntryFails(s);
    }
  }

  // ----- nothing complete is withheld -----

  lemma NothingComplete(s: Raw)
    requires RawInv(s)
    ensures Complete(s) == 0 <==> Left(s.w) == [] && |FrontRest(s)| <= BUFFER_SIZE
  {
  }

  /** Without an overflow, an extraction takes one complete buffer if there is one. */
  lemma ExtractTakesOne(s: Raw)
    requires RawInv(s) && Complete(s) > 0 && !(s.w.rx.enabled && s.w.rx.overflow)
    ensures var s' := RawExtract(s);
            && Complete(s') + 1 == Complete(s) && s'.w.open == s.w.open && s'.w.wire == s.w.wire
            && s'.w.rx.enabled == s.w.rx.enabled && s'.w.rx.overflow == s.w.rx.overflow
  {
    var r := s.w.rx;
    NothingComplete(s);
    if |FrontRest(s)| > BUFFER_SIZE {
      MiddleBuffer(r, Stored(s), StoredOpen(s), FrontRest(s));
      MiddleKeeps(s, RawExtract(s));
    } else {
      LastBuffer(s);
      LastKeeps(s, Bytes(GetRaw(r).delivered), RawExtract(s));
    }
  }

  /** A ring that `n` extractions empty of complete buffers. */
  ghost predicate Drainable(s: Raw, n: nat) {
    RawInv(s) && Complete(s) == n && !(s.w.rx.enabled && s.w.rx.overflow)
  }

  /** Nothing but the buffer being filled is left in the ring. */
  ghost predicate Drained(s: Raw) {
    |s.w.fates| == |s.w.wire| && |FrontRest(s)| <= BUFFER_SIZE
  }

  lemma DrainsOne(s: Raw, n: nat)
    requires Drainable(s, n)
    ensures n == 0 ==> Drained(s)
    ensures n > 0 ==> var s' := RawExtract(s); Drainable(s', n - 1) && s'.w.open == s.w.open && s'.w.wire == s.w.wire
  {
    NothingComplete(s);
    if n > 0 {
      RawExtractKeeps(s);
      ExtractTakesOne(s);
    }
  }

  function Iterate<T(!new)>(f: T -> T, s: T, n: nat): T {
    if n == 0 then s else Iterate(f, f(s), n - 1)
  }

  /** A countdown kept by every step has run down after `n` of them. */
  lemma {:induction false} CountsDown<T(!new)>(f: T -> T, inv: (T, nat) -> bool, s: T, n: nat)
    requires inv(s, n) && forall t, k: nat :: k > 0 && inv(t, k) ==> inv(f(t), k - 1)
    ensures inv(Iterate(f, s, n), 0)
    decreases n
  {
    if n > 0 { CountsDown(f, inv, f(s), n - 1); }
  }

  function Extracted(s: Raw): Raw {
    if s.w.rx.Ok() then RawExtract(s) else s
  }

  /** As many extractions as there are complete buffers hand over everything complete: every frame
      that has ended has left the ring, and at most the buffer being filled remains. */
  lemma RawDrains(s: Raw, n: nat)
    requires Drainable(s, n)
    ensures var s' := Iterate(Extracted, s, n); Drained(s') && s'.w.open == s.w.open && s'.w.wire == s.w.wire
  {
    var inv := (t: Raw, k: nat) => Drainable(t, k) && t.w.open == s.w.open && t.w.wire == s.w.wire;
    forall t, k: nat | k > 0 && inv(t, k) ensures inv(Extracted(t), k - 1) {
      DrainsOne(t, k);
    }
    CountsDown(Extracted, inv, s, n);
    DrainsOne(Iterate(Extracted, s, n), 0);
  }

  ghost predicate StartedAfresh(r: Rx) {
    && r.enabled && !r.overflow && r.cur == 0 && r.dma == Dma(Hunting, 0, false, false)
    && forall i :: 0 <= i < |r.view| ==> Free(r.view[i])
  }

  lemma RawRestartsAfresh(r: Rx)
    requires r.Ok() && RawRestarts(r)
    ensures StartedAfresh(GetRaw(r).rx)
  {
  }

  lemma SameReceiver(s: Raw)
    requires s.w.rx.Ok()
    ensures RawExtract(s).w.rx == GetRaw(s.w.rx).rx
  {
  }

  /** With an overflow noted, an extraction that takes a buffer or finds the first entry unused ends
      with the receiver started afresh; one that finds a buffer still being filled changes nothing. */
  lemma RawOverflow(s: Raw)
    requires RawInv(s) && s.w.rx.enabled && s.w.rx.overflow
    ensures if Complete(s) > 0 || s.w.open.None? then StartedAfresh(RawExtract(s).w.rx) else RawExtract(s) == s
  {
    NothingComplete(s);
    SameReceiver(s);
    if Complete(s) > 0 {
      RawExtractKeeps(s);
      RawRestartsAfresh(s.w.rx);
    } else {
      NothingYet(s.w.rx, StoredOpen(s));
      if s.w.open.None? { RawRestartsAfresh(s.w.rx); }
    }
  }

  /** Without one, an extraction leaves every flag alone. */
  lemma RawFlagsKept(s: Raw)
    requires s.w.rx.Ok() && !(s.w.rx.enabled && s.w.rx.overflow)
    ensures var r := RawExtract(s).w.rx;
            r.enabled == s.w.rx.enabled && r.overflow == s.w.rx.overflow && r.underrun == s.w.rx.underrun
  {
  }

  /** Interrupts, recovery, enabling and disabling do to the receiver what they do in HDLC mode. */
  lemma RawReceiverSteps(s: Raw, a: Action, p: Params)
    requires s.w.rx.Ok() && (a.DmaIrq? || a.OverrunIrq? || a.Enable? || a.Disable? || a.Resume? || a.Begin?)
    ensures RawStep(s, a).w.rx == RxRuns.Step(s.w, a, p).rx
  {
  }
}
