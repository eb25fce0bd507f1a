/** The receive ring invariant holds in every run, and what follows from it. */
module RxInvariant {
  import opened Cyclic
  import opened RxRing
  import opened RxRuns

  // ----- reading a well-formed ring -----

  /** Scanning over used, unterminated entries changes nothing. */
  lemma {:induction false} ScanSkips(view: seq<Entry>, k: nat, m: nat)
    requires k <= m <= |view|
    requires forall i :: k <= i < m ==> view[i].status == 0 && view[i].count == 0
    ensures ScanFrom(view, k) == ScanFrom(view, m)
    decreases m - k
  {
    if k < m { ScanSkips(view, k + 1, m); }
  }

  lemma {:induction false} FramesUse(v: seq<Entry>, k: nat, q: seq<Frame>)
    requires FramesAt(v, k, q)
    ensures q != [] ==> k < k + Used(q) <= |v| && v[k + Used(q) - 1].status != 0
    ensures forall i :: k <= i < k + Used(q) ==> v[i].count == 0
    decreases |q|
  {
    if q != [] {
      HoldsUses(v, k, q[0].bytes);
      FramesUse(v, k + Blocks(|q[0].bytes|), q[1..]);
    }
  }

  /** With a complete frame at the front, the scan ends on its last entry and earns its delivery. */
  lemma ScanFinds(r: Rx, f: Frame, p: Params)
    requires r.Ok() && FrameAt(r.view, 0, f) && FrameOk(f) && p.maxFrame <= RCLR_VALUE
    ensures ScanFrom(r.view, 0) == Found(Blocks(|f.bytes|) - 1)
    ensures Delivery(r, Blocks(|f.bytes|) - 1, p) == Earned(f, p)
  {
    var v, last := r.view, Blocks(|f.bytes|) - 1;
    HoldsUses(v, 0, f.bytes);
    ScanSkips(v, 0, last);
    var size := FrameSize(f.status, v[last].rcc, p);
    if FitsFrame(size, p) {
      CopyHeld(v, 0, f.bytes, size);
    }
  }

  /** Without a complete frame the scan fails, and meets an unused entry unless the unfinished run fills the ring. */
  lemma ScanFails(v: seq<Entry>, open: Option<seq<byte>>)
    requires |v| > 0 && Laid(v, [], open)
    ensures ScanFrom(v, 0) == if OpenBlocks(open) < |v| then Unused(OpenBlocks(open)) else Exhausted
  {
    if open.Some? {
      HoldsUses(v, 0, open.value);
      ScanSkips(v, 0, OpenBlocks(open));
    }
  }

  /** Which entries are in use, which are free, and where the last unfinished run starts. */
  lemma RecoveryScan(v: seq<Entry>, q: seq<Frame>, open: Option<seq<byte>>)
    requires Laid(v, q, open)
    ensures FirstUnused(v, 0) == Used(q) + OpenBlocks(open)
    ensures RunStart(v, Used(q) + OpenBlocks(open)) == Used(q)
  {
    FramesUse(v, 0, q);
    if open.Some? { HoldsUses(v, Used(q), open.value); }
    var e := Used(q) + OpenBlocks(open);
    assert forall i :: 0 <= i < e ==> v[i].count == 0;
    assert e < |v| ==> Free(v[e]);
  }

  // ----- which frames are delivered, in terms of their status bits -----

  lemma ErrorBits(status: bv16, ex: bool)
    ensures (status & 0x010e == 0 || (status & 0x0106 == 0 && ex)) <==>
            (status & 0x010e == 0 || (ex && status & 0x010e == 0x0008))
  {
  }

  lemma ExtendedKeepsCrc(crcType: bv16)
    ensures crcType & 0x8000 != 0 ==> crcType != 1 && crcType != 2
  {
  }

  lemma EarnedWhen(f: Frame, p: Params)
    requires |f.bytes| <= RCLR_VALUE
    ensures Earned(f, p).Some? <==> Deliverable(f, p)
  {
    ErrorBits(f.status, ReturnsEx(p));
    assert STATUS_SHORT | STATUS_OVERRUN | STATUS_CRC | STATUS_ABORT == 0x010e;
    assert STATUS_SHORT | STATUS_ABORT | STATUS_OVERRUN == 0x0106;
  }

  /** What a frame earns is what is to be handed over for it, and nothing when it is not deliverable. */
  lemma EarnedExact(f: Frame, p: Params, d: seq<byte>)
    requires |f.bytes| <= RCLR_VALUE
    ensures Earned(f, p) == Some(d) <==> HandedOver(f, p, d)
  {
    EarnedWhen(f, p);
    ExtendedKeepsCrc(p.crcType);
    if Deliverable(f, p) { EarnedIs(f, p, d); }
  }

  lemma EarnedIs(f: Frame, p: Params, d: seq<byte>)
    requires |f.bytes| <= RCLR_VALUE && Earned(f, p).Some? && Deliverable(f, p)
    requires p.crcType & 0x8000 != 0 ==> p.crcType != 1 && p.crcType != 2
    ensures Earned(f, p).value == d <==> HandedOver(f, p, d)
  {
    var e, l := Earned(f, p).value, |f.bytes|;
    if p.crcType & 0x8000 != 0 {
      assert f.bytes[..l] == f.bytes;
      assert e == f.bytes + [if f.status & 0x0008 != 0 then 1 else 0];
      assert HandedOver(f, p, d) ==> d == d[..l] + [d[l]];
    } else {
      assert e == f.bytes[..l - CrcLength(p)];
    }
  }

  /** An extraction with a complete frame in front hands over exactly what its status bits and its
      size allow. */
  lemma FrameHandedOver(r: Rx, f: Frame, p: Params, d: seq<byte>)
    requires r.Ok() && FrameAt(r.view, 0, f) && FrameOk(f) && p.maxFrame <= RCLR_VALUE
    ensures GetFrame(r, p).more
    ensures GetFrame(r, p).delivered == Some(d) <==> HandedOver(f, p, d)
    ensures GetFrame(r, p).delivered.Some? <==> Deliverable(f, p)
  {
    ScanFinds(r, f, p);
    EarnedExact(f, p, d);
    EarnedWhen(f, p);
  }

  // ----- a run kept or moved -----

  /** `v'` has, `d` places further on, what `v` has in `k..m`. */
  ghost predicate Same(v: seq<Entry>, k: nat, m: nat, v': seq<Entry>, d: int) {
    && m <= |v| && 0 <= k + d && m + d <= |v'|
    && forall i :: k <= i < m ==> v'[i + d] == v[i]
  }

  lemma {:induction false} HoldsMoved(v: seq<Entry>, k: nat, bytes: seq<byte>, v': seq<Entry>, d: int)
    requires Holds(v, k, bytes) && Same(v, k, k + Blocks(|bytes|), v', d)
    ensures Holds(v', k + d, bytes)
    decreases |bytes|
  {
    assert v'[k + d] == v[k];
    if |bytes| > BUFFER_SIZE { HoldsMoved(v, k + 1, bytes[BUFFER_SIZE..], v', d); }
  }

  lemma FrameMoved(v: seq<Entry>, k: nat, f: Frame, v': seq<Entry>, d: int)
    requires FrameAt(v, k, f) && Same(v, k, k + Blocks(|f.bytes|), v', d)
    ensures FrameAt(v', k + d, f)
  {
    HoldsMoved(v, k, f.bytes, v', d);
    var last := k + Blocks(|f.bytes|) - 1;
    assert v'[last + d] == v[last];
    forall i | k + d <= i < last + d ensures v'[i].status == 0 {
      assert v'[(i - d) + d] == v[i - d];
    }
  }

  lemma {:induction false} FramesMoved(v: seq<Entry>, k: nat, q: seq<Frame>, v': seq<Entry>, d: int)
    requires FramesAt(v, k, q) && Same(v, k, k + Used(q), v', d)
    ensures FramesAt(v', k + d, q)
    decreases |q|
  {
    if q != [] {
      FrameMoved(v, k, q[0], v', d);
      FramesMoved(v, k + Blocks(|q[0].bytes|), q[1..], v', d);
    }
  }

  lemma OpenMoved(v: seq<Entry>, k: nat, bytes: seq<byte>, v': seq<Entry>, d: int)
    requires OpenAt(v, k, bytes) && Same(v, k, k + Blocks(|bytes|), v', d)
    ensures OpenAt(v', k + d, bytes)
  {
    HoldsMoved(v, k, bytes, v', d);
    forall i | k + d <= i < k + d + Blocks(|bytes|) ensures v'[i].status == 0 {
      assert v'[(i - d) + d] == v[i - d];
    }
  }

  // ----- device steps -----

  lemma {:induction false} HoldsExtended(v: seq<Entry>, k: nat, bytes: seq<byte>, bs: seq<byte>, v': seq<Entry>)
    requires Holds(v, k, bytes) && Filled(|bytes|) + |bs| <= BUFFER_SIZE
    requires var last := k + Blocks(|bytes|) - 1;
             last < |v| && |v[last].data| == BUFFER_SIZE &&
             v' == v[last := v[last].(data := Store(v[last].data, Filled(|bytes|), bs))]
    ensures Holds(v', k, bytes + bs)
    decreases |bytes|
  {
    if |bytes| <= BUFFER_SIZE {
      assert v'[k].data[..|bytes + bs|] == v[k].data[..|bytes|] + bs;
    } else {
      HoldsExtended(v, k + 1, bytes[BUFFER_SIZE..], bs, v');
      assert (bytes + bs)[BUFFER_SIZE..] == bytes[BUFFER_SIZE..] + bs;
      assert (bytes + bs)[..BUFFER_SIZE] == bytes[..BUFFER_SIZE];
    }
  }

  lemma {:induction false} HoldsClaimed(v: seq<Entry>, k: nat, bytes: seq<byte>, bs: seq<byte>, v': seq<Entry>)
    requires Holds(v, k, bytes) && Filled(|bytes|) == BUFFER_SIZE && 1 <= |bs| <= BUFFER_SIZE
    requires var m := k + Blocks(|bytes|);
             m < |v'| && Same(v, k, m, v', 0) && v'[m].count == 0 && EntryOk(v'[m]) && v'[m].data[..|bs|] == bs
    ensures Holds(v', k, bytes + bs)
    decreases |bytes|
  {
    assert v'[k + 0] == v[k];
    if |bytes| <= BUFFER_SIZE {
      assert (bytes + bs)[BUFFER_SIZE..] == bs;
      assert v[k].data[..|bytes|] == v[k].data;
      assert (bytes + bs)[..BUFFER_SIZE] == bytes;
    } else {
      HoldsClaimed(v, k + 1, bytes[BUFFER_SIZE..], bs, v');
      assert (bytes + bs)[BUFFER_SIZE..] == bytes[BUFFER_SIZE..] + bs;
      assert (bytes + bs)[..BUFFER_SIZE] == bytes[..BUFFER_SIZE];
    }
  }

  /** Writing status and count into a run's last entry leaves its data alone. */
  lemma {:induction false} HoldsClosed(v: seq<Entry>, k: nat, bytes: seq<byte>, i: nat, e: Entry)
    requires Holds(v, k, bytes) && i < |v| && EntryOk(e)
    requires e.count == v[i].count && e.data == v[i].data
    ensures Holds(v[i := e], k, bytes)
    decreases |bytes|
  {
    if |bytes| > BUFFER_SIZE { HoldsClosed(v, k + 1, bytes[BUFFER_SIZE..], i, e); }
  }

  lemma {:induction false} FramesAppend(v: seq<Entry>, k: nat, q: seq<Frame>, f: Frame)
    requires FramesAt(v, k, q) && FrameAt(v, k + Used(q), f)
    ensures FramesAt(v, k, q + [f])
    ensures Used(q + [f]) == Used(q) + Blocks(|f.bytes|)
    decreases |q|
  {
    if q == [] {
      assert (q + [f])[1..] == [];
    } else {
      assert (q + [f])[1..] == q[1..] + [f];
      FramesAppend(v, k + Blocks(|q[0].bytes|), q[1..], f);
    }
  }

  lemma {:induction false} BlocksGrow(len: nat, more: nat)
    requires 1 <= more
    ensures Filled(len) <= BUFFER_SIZE
    ensures Filled(len) + more <= BUFFER_SIZE ==> Blocks(len + more) == Blocks(len)
    ensures Filled(len) == BUFFER_SIZE && more <= BUFFER_SIZE ==> Blocks(len + more) == Blocks(len) + 1
  {
    if len > BUFFER_SIZE { BlocksGrow(len - BUFFER_SIZE, more); }
  }

  lemma {:induction false} DueStable(wire: seq<Frame>, fates: seq<Fate>, f: Frame, p: Params)
    requires |fates| <= |wire| && |f.bytes| <= RCLR_VALUE
    requires forall i :: 0 <= i < |wire| ==> |wire[i].bytes| <= RCLR_VALUE
    ensures Due(wire + [f], fates, p) == Due(wire, fates, p)
  {
    if fates != [] { DueStable(wire, fates[..|fates| - 1], f, p); }
  }

  lemma {:induction false} DueLost(wire: seq<Frame>, fates: seq<Fate>, k: nat, p: Params)
    requires |fates| + k <= |wire|
    requires forall i :: 0 <= i < |wire| ==> |wire[i].bytes| <= RCLR_VALUE
    ensures Due(wire, fates + seq(k, _ => Lost), p) == Due(wire, fates, p)
  {
    var all := fates + seq(k, _ => Lost);
    if k == 0 { assert all == fates; }
    else {
      assert all[..|all| - 1] == fates + seq(k - 1, _ => Lost);
      DueLost(wire, fates, k - 1, p);
    }
  }

  /** A frame that starts claims the entry behind the complete ones, or the device stops there. */
  lemma BeginShape(w: World, bs: seq<byte>, q: seq<Frame>)
    requires Shape(w.rx, q, w.open)
    ensures var w' := DeviceStep(w, Begin(bs)); Shape(w'.rx, q, w'.open)
  {
    if w.rx.dma.phase.Hunting? && |bs| <= BUFFER_SIZE {
      var v, u := w.rx.view, Used(q);
      if u == |v| {
        FramesUse(v, 0, q);
        ClaimUsed(w, w.rx.dma.entry, [], bs);
      } else {
        OffsetAt(w.rx.cur, u, |v|);
        var v' := ClaimFree(w, w.rx.dma.entry, u, [], bs);
        LaidBegun(v, q, bs, v');
        ClaimedShape(w.rx, v', q, bs, u);
        assert [] + bs == bs;
      }
    }
  }

  lemma LaidBegun(v: seq<Entry>, q: seq<Frame>, bs: seq<byte>, v': seq<Entry>)
    requires Laid(v, q, None) && |bs| <= BUFFER_SIZE && Used(q) < |v|
    requires var u := Used(q);
             |v[u].data| == BUFFER_SIZE && EntryOk(v[u]) &&
             v' == v[u := v[u].(count := 0, data := Store(v[u].data, 0, bs))]
    ensures Laid(v', q, Some(bs))
  {
    assert v'[Used(q)].data[..|bs|] == bs;
    FramesMoved(v, 0, q, v', 0);
  }

  lemma BeginKeeps(w: World, bs: seq<byte>, p: Params)
    requires Inv(w, p)
    ensures Inv(DeviceStep(w, Begin(bs)), p)
  {
    BeginShape(w, bs, Waiting(w));
  }

  lemma LaidExtended(v: seq<Entry>, q: seq<Frame>, b: seq<byte>, bs: seq<byte>, v': seq<Entry>)
    requires Laid(v, q, Some(b)) && 1 <= |bs| && Filled(|b|) + |bs| <= BUFFER_SIZE
    requires var last := Used(q) + Blocks(|b|) - 1;
             |v[last].data| == BUFFER_SIZE &&
             v' == v[last := v[last].(data := Store(v[last].data, Filled(|b|), bs))]
    ensures Laid(v', q, Some(b + bs)) && Blocks(|b + bs|) == Blocks(|b|)
  {
    BlocksGrow(|b|, |bs|);
    HoldsExtended(v, Used(q), b, bs, v');
    FramesMoved(v, 0, q, v', 0);
  }

  lemma {:induction false} LaidClaimed(v: seq<Entry>, q: seq<Frame>, b: seq<byte>, bs: seq<byte>, v': seq<Entry>)
    requires Laid(v, q, Some(b)) && Filled(|b|) == BUFFER_SIZE && 1 <= |bs| <= BUFFER_SIZE
    requires Used(q) + Blocks(|b|) < |v|
    requires var m := Used(q) + Blocks(|b|);
             |v[m].data| == BUFFER_SIZE && EntryOk(v[m]) &&
             v' == v[m := v[m].(count := 0, data := Store(v[m].data, 0, bs))]
    ensures Laid(v', q, Some(b + bs)) && Blocks(|b + bs|) == Blocks(|b|) + 1
  {
    var m := Used(q) + Blocks(|b|);
    BlocksGrow(|b|, |bs|);
    assert v'[m].data[..|bs|] == bs;
    HoldsClaimed(v, Used(q), b, bs, v');
    FramesMoved(v, 0, q, v', 0);
  }

  lemma LaidClosed(v: seq<Entry>, q: seq<Frame>, f: Frame, v': seq<Entry>)
    requires Laid(v, q, Some(f.bytes)) && f.status != 0 && f.rcc <= RCLR_VALUE
    requires var last := Used(q) + Blocks(|f.bytes|) - 1;
             EntryOk(v[last]) && v' == v[last := v[last].(status := f.status, rcc := f.rcc)]
    ensures Laid(v', q + [f], None)
    ensures Used(q + [f]) == Used(q) + Blocks(|f.bytes|)
  {
    var last := Used(q) + Blocks(|f.bytes|) - 1;
    HoldsClosed(v, Used(q), f.bytes, last, v'[last]);
    FramesMoved(v, 0, q, v', 0);
    FramesAppend(v', 0, q, f);
  }

  lemma {:induction false} LaidAbandoned(v: seq<Entry>, q: seq<Frame>, open: Option<seq<byte>>)
    requires Laid(v, q, open)
    ensures Laid(Replace(v, Used(q), Used(q) + OpenBlocks(open)), q, None)
  {
    var v' := Replace(v, Used(q), Used(q) + OpenBlocks(open));
    assert Same(v, 0, Used(q), v', 0);
    FramesMoved(v, 0, q, v', 0);
    assert FreeFrom(v', Used(q));
  }

  lemma FreedFront(v: seq<Entry>, b: int)
    requires 0 <= b <= |v|
    ensures Same(v, b, |v|, v[b..] + FreeAll(v[..b]), -b)
    ensures FreeFrom(v[b..] + FreeAll(v[..b]), |v| - b)
  {
  }

  lemma FreeTaken(v: seq<Entry>, k: nat, b: int, v': seq<Entry>)
    requires 0 < b <= k <= |v| == |v'| && FreeFrom(v, k) && Same(v, b, |v|, v', -b) && FreeFrom(v', |v| - b)
    ensures FreeFrom(v', k - b)
  {
    forall i | k - b <= i < |v| ensures Free(v'[i]) {
      if i + b < |v| { assert v'[(i + b) + -b] == v[i + b]; }
    }
  }

  lemma {:induction false} OthersMoved(v: seq<Entry>, q: seq<Frame>, b: int, v': seq<Entry>)
    requires FramesAt(v, 0, q) && q != [] && b == Blocks(|q[0].bytes|) && Used(q) <= |v|
    requires Same(v, b, |v|, v', -b)
    ensures FramesAt(v', 0, q[1..])
  {
    FramesMoved(v, b, q[1..], v', -b);
  }

  lemma {:induction false} LaidTaken(v: seq<Entry>, q: seq<Frame>, open: Option<seq<byte>>, v': seq<Entry>)
    requires Laid(v, q, open) && q != [] && Blocks(|q[0].bytes|) <= |v|
    requires var b: int := Blocks(|q[0].bytes|);
             |v'| == |v| && Same(v, b, |v|, v', -b) && FreeFrom(v', |v| - b)
    ensures Laid(v', q[1..], open)
  {
    var b: int, u := Blocks(|q[0].bytes|), Used(q);
    OthersMoved(v, q, b, v');
    if open.Some? { OpenMoved(v, u, open.value, v', -b); }
    FreeTaken(v, u + OpenBlocks(open), b, v');
  }

  lemma GrowShape(w: World, bs: seq<byte>, q: seq<Frame>)
    requires Shape(w.rx, q, w.open)
    ensures Shape(Grow(w, bs).rx, q, Grow(w, bs).open)
  {
    var w' := Grow(w, bs);
    if w' != w {
      var b, v := w.open.value, w.rx.view;
      OffsetAt(w.rx.cur, Used(q) + Blocks(|b|) - 1, |v|);
      BlocksGrow(|b|, |bs|);
      if Filled(|b|) < BUFFER_SIZE {
        LaidExtended(v, q, b, bs, w'.rx.view);
      } else {
        ClaimShape(w, bs, q);
      }
    }
  }

  /** A full buffer in a full ring: the device stops at the next entry, which is used. */
  lemma ClaimFull(w: World, bs: seq<byte>, q: seq<Frame>, i: nat)
    requires Shape(w.rx, q, w.open) && w.open.Some? && Used(q) + Blocks(|w.open.value|) == |w.rx.view|
    requires i == w.rx.cur && |bs| <= BUFFER_SIZE
    ensures var w' := Claim(w, i, w.open.value, bs); Shape(w'.rx, q, w'.open)
  {
    FirstUsed(w.rx.view, q, w.open.value);
    ClaimUsed(w, i, w.open.value, bs);
  }

  /** A full buffer with a free entry behind it, which is claimed. */
  lemma ClaimNext(w: World, bs: seq<byte>, q: seq<Frame>, i: nat, m: nat)
    requires Shape(w.rx, q, w.open) && w.open.Some? && Filled(|w.open.value|) == BUFFER_SIZE
    requires m == Used(q) + Blocks(|w.open.value|) < |w.rx.view| && i == At(w.rx.cur, m, |w.rx.view|)
    requires 1 <= |bs| <= BUFFER_SIZE
    ensures var w' := Claim(w, i, w.open.value, bs); Shape(w'.rx, q, w'.open)
  {
    var b, v := w.open.value, w.rx.view;
    OffsetAt(w.rx.cur, m, |v|);
    var v' := ClaimFree(w, i, m, b, bs);
    LaidClaimed(v, q, b, bs, v');
    ClaimedShape(w.rx, v', q, b + bs, m);
  }

  /** A full buffer: the next entry is claimed, or the device stops at a used one. */
  lemma ClaimShape(w: World, bs: seq<byte>, q: seq<Frame>)
    requires Shape(w.rx, q, w.open) && w.rx.dma.phase.InFrame? && Filled(|w.open.value|) == BUFFER_SIZE
    requires 1 <= |bs| <= BUFFER_SIZE
    ensures var w' := Claim(w, Next(w.rx.dma.entry, |w.rx.view|), w.open.value, bs);
            Shape(w'.rx, q, w'.open)
  {
    var m, i := Used(q) + Blocks(|w.open.value|), Next(w.rx.dma.entry, |w.rx.view|);
    OffsetAt(w.rx.cur, m - 1, |w.rx.view|);
    if m == |w.rx.view| {
      ClaimFull(w, bs, q, i);
    } else {
      ClaimNext(w, bs, q, i, m);
    }
  }

  lemma FirstUsed(v: seq<Entry>, q: seq<Frame>, b: seq<byte>)
    requires Laid(v, q, Some(b))
    ensures |v| > 0 && v[0].count == 0
  {
    HoldsUses(v, Used(q), b);
    FramesUse(v, 0, q);
  }

  lemma ClaimUsed(w: World, i: nat, sofar: seq<byte>, bs: seq<byte>)
    requires w.rx.Ok() && i == w.rx.cur && |bs| <= BUFFER_SIZE && w.rx.view[0].count == 0
    ensures Claim(w, i, sofar, bs) == HaltAtEnd(w)
  {
  }

  lemma ClaimFree(w: World, i: nat, k: nat, sofar: seq<byte>, bs: seq<byte>) returns (v: seq<Entry>)
    requires w.rx.Ok() && i < |w.rx.view| && k == Offset(w.rx.cur, i, |w.rx.view|)
    requires |bs| <= BUFFER_SIZE && Free(w.rx.view[k])
    ensures |w.rx.view[k].data| == BUFFER_SIZE && EntryOk(w.rx.view[k])
    ensures v == w.rx.view[k := w.rx.view[k].(count := 0, data := Store(w.rx.view[k].data, 0, bs))]
    ensures forall j :: 0 <= j < |v| ==> EntryOk(v[j])
    ensures Claim(w, i, sofar, bs) ==
            w.(rx := w.rx.(view := v, dma := w.rx.dma.(phase := InFrame, entry := i)), open := Some(sofar + bs))
  {
    assert EntryOk(w.rx.view[k]);
    v := w.rx.view[k := w.rx.view[k].(count := 0, data := Store(w.rx.view[k].data, 0, bs))];
  }

  lemma ClaimedShape(r: Rx, v: seq<Entry>, q: seq<Frame>, bytes: seq<byte>, m: nat)
    requires r.Ok() && |v| == |r.view| && (forall i :: 0 <= i < |v| ==> EntryOk(v[i]))
    requires Laid(v, q, Some(bytes)) && m == Used(q) + Blocks(|bytes|) - 1
    ensures Shape(r.(view := v, dma := r.dma.(phase := InFrame, entry := At(r.cur, m, |v|))), q, Some(bytes))
  {
  }

  /** The frame that ends joins the complete ones. */
  lemma CloseShape(w: World, status: bv16, rcc: nat, q: seq<Frame>)
    requires Shape(w.rx, q, w.open) && w.rx.dma.phase.InFrame? && status != 0 && rcc <= RCLR_VALUE
    ensures Shape(Close(w, status, rcc).rx, q + [Frame(w.open.value, status, rcc)], None)
  {
    var b, v, w' := w.open.value, w.rx.view, Close(w, status, rcc);
    OffsetAt(w.rx.cur, Used(q) + Blocks(|b|) - 1, |v|);
    LaidClosed(v, q, Frame(b, status, rcc), w'.rx.view);
  }

  lemma EndKeeps(w: World, status: bv16, p: Params)
    requires Inv(w, p)
    ensures Inv(DeviceStep(w, End(status)), p)
  {
    var w' := DeviceStep(w, End(status));
    if w' != w {
      var q, f := Waiting(w), Ended(w.open.value, status);
      CloseShape(w, status, f.rcc, q);
      assert Waiting(w') == q + [f];
      DueStable(w.wire, w.fates, f, p);
    }
  }

  // ----- driver steps -----

  lemma ForgetKeeps(w: World, w': World, p: Params)
    requires w.rx.Ok() && WireOk(w.wire) && |w.fates| <= |w.wire| && p.maxFrame <= RCLR_VALUE
    requires w.delivered == Due(w.wire, w.fates, p)
    requires w.rx.cur == 0 && FreeFrom(w.rx.view, 0) && w.rx.dma.phase.Hunting? && w.rx.dma.entry == 0
    requires w' == Forget(w)
    ensures Inv(w', p) && Waiting(w') == []
  {
    DueLost(w.wire, w.fates, |w.wire| - |w.fates|, p);
  }

  function Take(w: World, p: Params): World
    requires w.rx.Ok() && |w.fates| < |w.wire|
    requires |Waiting(w)[0].bytes| <= RCLR_VALUE && Blocks(|Waiting(w)[0].bytes|) <= |w.rx.view|
  {
    var f := Waiting(w)[0];
    w.(rx := FreeFront(w.rx, Blocks(|f.bytes|)), fates := w.fates + [Taken],
       delivered := w.delivered + Opt(Earned(f, p)))
  }

  /** Taking the first frame leaves the others, the unfinished run and the device where they were. */
  lemma TakeShape(r: Rx, q: seq<Frame>, open: Option<seq<byte>>, b: nat)
    requires Shape(r, q, open) && q != [] && b == Blocks(|q[0].bytes|) <= |r.view|
    ensures Shape(FreeFront(r, b), q[1..], open)
  {
    FreedFront(r.view, b);
    LaidTaken(r.view, q, open, FreeFront(r, b).view);
    DeviceStays(r, q, open, b);
  }

  /** Moving `current` past the first frame, the device keeps its place relative to the rest. */
  lemma {:induction false} DeviceStays(r: Rx, q: seq<Frame>, open: Option<seq<byte>>, b: nat)
    requires r.Ok() && q != [] && b == Blocks(|q[0].bytes|) && Used(q) + OpenBlocks(open) <= |r.view|
    requires DeviceInPlace(r, q, open)
    ensures DeviceInPlace(FreeFront(r, b), q[1..], open)
  {
  }

  lemma TakeKeeps(w: World, p: Params)
    requires Inv(w, p) && Waiting(w) != []
    requires Blocks(|Waiting(w)[0].bytes|) <= |w.rx.view|
    ensures Inv(Take(w, p), p)
  {
    var w', q := Take(w, p), Waiting(w);
    assert Waiting(w') == q[1..];
    TakeShape(w.rx, q, w.open, Blocks(|q[0].bytes|));
    assert w'.fates[..|w.fates|] == w.fates;
  }

  lemma ExtractKeeps(w: World, p: Params)
    requires Inv(w, p)
    ensures Inv(ExtractStep(w, p), p)
    ensures Restarts(w.rx) ==> Waiting(ExtractStep(w, p)) == []
  {
    var q, g, w' := Waiting(w), GetFrame(w.rx, p), ExtractStep(w, p);
    var w1 := w;
    if q != [] {
      ScanFinds(w.rx, q[0], p);
      TakeKeeps(w, p);
      w1 := Take(w, p);
      assert g.delivered == Earned(q[0], p) && g.more;
    } else {
      ScanFails(w.rx.view, w.open);
      assert w.delivered + [] == w.delivered && w.fates + [] == w.fates;
    }
    if Restarts(w.rx) {
      ForgetKeeps(w1.(rx := g.rx), w', p);
    } else {
      assert w' == w1;
    }
  }

  /** Overrun recovery with an unused entry left: complete frames keep their entries and data,
      exactly the unfinished run is freed, and the device is sent to its first entry. */
  lemma {:induction false} RecoveryEffect(r: Rx, q: seq<Frame>, open: Option<seq<byte>>)
    requires r.Ok() && Laid(r.view, q, open) && Used(q) + OpenBlocks(open) < |r.view|
    ensures var n, u, e, r' := |r.view|, Used(q), Used(q) + OpenBlocks(open), RecoverOverrun(r);
            && r'.cur == r.cur && r'.view == Replace(r.view, u, e)
            && (open.Some? ==> r'.dma.phase == Hunting && r'.dma.entry == At(r.cur, u, n))
            && (open.None? ==> r'.dma.entry == r.dma.entry &&
                               r'.dma.phase == if r.dma.phase.Hunting? then Paused else r.dma.phase)
  {
    RecoveryScan(r.view, q, open);
    RecoveredAs(r, Used(q), Used(q) + OpenBlocks(open), open);
  }

  lemma RecoveredAs(r: Rx, u: nat, e: nat, open: Option<seq<byte>>)
    requires r.Ok() && e == FirstUnused(r.view, 0) < |r.view| && u == RunStart(r.view, e)
    requires e == u + OpenBlocks(open)
    ensures var r' := RecoverOverrun(r);
            && r'.cur == r.cur && r'.view == Replace(r.view, u, e)
            && (open.Some? ==> r'.dma.phase == Hunting && r'.dma.entry == At(r.cur, u, |r.view|))
            && (open.None? ==> r'.dma.entry == r.dma.entry &&
                               r'.dma.phase == if r.dma.phase.Hunting? then Paused else r.dma.phase)
  {
    RecoverAt(r, u, e);
  }

  /** Recovery in terms of the first unused entry and the start of the run before it. */
  lemma RecoverAt(r: Rx, s: nat, e: nat)
    requires r.Ok() && e == FirstUnused(r.view, 0) < |r.view| && s == RunStart(r.view, e)
    ensures var r' := RecoverOverrun(r);
            && r'.cur == r.cur && r'.view == Replace(r.view, s, e)
            && (s < e ==> r'.dma.phase == Hunting && r'.dma.entry == At(r.cur, s, |r.view|))
            && (s == e ==> r'.dma.entry == r.dma.entry &&
                           r'.dma.phase == if r.dma.phase.Hunting? then Paused else r.dma.phase)
  {
    assert RecoverOverrun(r) == RecoverRun(r, s, e);
    ReplaceNothing(r.view, s);
  }

  lemma ReplaceNothing(v: seq<Entry>, s: nat)
    requires s <= |v|
    ensures Replace(v, s, s) == v
  {
  }

  /** Overrun recovery with every entry in use frees the whole ring, complete frames included. */
  lemma RecoveryResets(r: Rx, q: seq<Frame>, open: Option<seq<byte>>)
    requires r.Ok() && Laid(r.view, q, open) && Used(q) + OpenBlocks(open) == |r.view|
    ensures var r' := RecoverOverrun(r);
            FreeFrom(r'.view, 0) && r'.cur == 0 && r'.dma.phase == Hunting && r'.dma.entry == 0
  {
    RecoveryScan(r.view, q, open);
  }

  lemma AbandonedShape(r: Rx, r': Rx, q: seq<Frame>, open: Option<seq<byte>>)
    requires Shape(r, q, open) && r'.Ok() && r'.cur == r.cur
    requires r'.view == Replace(r.view, Used(q), Used(q) + OpenBlocks(open))
    requires if open.Some? then r'.dma.phase == Hunting && r'.dma.entry == At(r.cur, Used(q), |r.view|)
             else r'.dma.entry == r.dma.entry && (r'.dma.phase == r.dma.phase || (r.dma.phase == Hunting && r'.dma.phase == Paused))
    ensures Shape(r', q, None)
  {
    LaidAbandoned(r.view, q, open);
  }

  lemma RecoverPart(r: Rx, q: seq<Frame>, open: Option<seq<byte>>)
    requires Shape(r, q, open) && Used(q) + OpenBlocks(open) < |r.view|
    ensures Shape(RecoverOverrun(r), q, None)
  {
    RecoveryEffect(r, q, open);
    AbandonedShape(r, RecoverOverrun(r), q, open);
  }

  lemma RecoverKeeps(w: World, p: Params)
    requires Inv(w, p)
    ensures Inv(RecoverStep(w), p)
  {
    var q, w' := Waiting(w), RecoverStep(w);
    RecoveryScan(w.rx.view, q, w.open);
    if Used(q) + OpenBlocks(w.open) == |w.rx.view| {
      RecoveryResets(w.rx, q, w.open);
      ForgetKeeps(w.(rx := RecoverOverrun(w.rx)), w', p);
    } else {
      RecoverPart(w.rx, q, w.open);
      assert w' == w.(rx := RecoverOverrun(w.rx), open := None);
    }
  }

  lemma RestartKeeps(w: World, p: Params)
    requires Inv(w, p)
    ensures Inv(Restart(w), p)
  {
    ForgetKeeps(w.(rx := StartReceiver(w.rx)), Restart(w), p);
  }

  lemma QuietKeeps(w: World, a: Action, p: Params)
    requires Inv(w, p) && (a.Resume? || a.DmaIrq? || a.UnderrunIrq? || a.Disable?)
    ensures Inv(Step(w, a, p), p)
  {
    assert Waiting(Step(w, a, p)) == Waiting(w);
  }

  /** Every step of the device and of the driver keeps the invariant. */
  lemma StepKeeps(w: World, a: Action, p: Params)
    requires Inv(w, p)
    ensures Inv(Step(w, a, p), p)
  {
    match a
    case Begin(bs) => BeginKeeps(w, bs, p);
    case Extend(bs) => GrowShape(w, bs, Waiting(w));
    case End(status) => EndKeeps(w, status, p);
    case Extract => ExtractKeeps(w, p);
    case OverrunIrq => RecoverKeeps(w, p);
    case RestartUnderrun => RestartKeeps(w, p);
    case Enable => RestartKeeps(w, p);
    case _ => QuietKeeps(w, a, p);
  }

  // ----- whole runs -----

  lemma InitialHolds(w: World, p: Params)
    requires Initial(w) && p.maxFrame <= RCLR_VALUE
    ensures Inv(w, p)
  {
  }

  /** In every run the ring read from `current_rx_buffer` is complete frames, then at most one
      unfinished run, then free entries, and exactly the earned deliveries were made. */
  lemma {:induction false} RunKeeps(w: World, actions: seq<Action>, p: Params)
    requires Inv(w, p)
    ensures Inv(Run(w, actions, p), p)
    decreases |actions|
  {
    if actions != [] {
      StepKeeps(w, actions[0], p);
      RunKeeps(Step(w, actions[0], p), actions[1..], p);
    }
  }

  /** `idx` picks, in strictly rising order, the frames whose deliveries make up `delivered`. */
  ghost predicate Picks(wire: seq<Frame>, idx: seq<nat>, delivered: seq<seq<byte>>, p: Params) {
    && |idx| == |delivered|
    && (forall i, j :: 0 <= i < j < |idx| ==> idx[i] < idx[j])
    && (forall i :: 0 <= i < |idx| ==> idx[i] < |wire|)
    && WireOk(wire)
    && (forall i :: 0 <= i < |idx| ==> Earned(wire[idx[i]], p) == Some(delivered[i]))
  }

  lemma PicksNext(wire: seq<Frame>, idx: seq<nat>, delivered: seq<seq<byte>>, k: nat, p: Params)
    requires Picks(wire, idx, delivered, p) && k < |wire| && Earned(wire[k], p).Some?
    requires forall i :: 0 <= i < |idx| ==> idx[i] < k
    ensures Picks(wire, idx + [k], delivered + Opt(Earned(wire[k], p)), p)
  {
  }

  lemma {:induction false} DuePicks(wire: seq<Frame>, fates: seq<Fate>, p: Params) returns (idx: seq<nat>)
    requires WireOk(wire) && |fates| <= |wire|
    ensures Picks(wire, idx, Due(wire, fates, p), p)
    ensures forall i :: 0 <= i < |idx| ==> idx[i] < |fates| && fates[idx[i]] == Taken
    decreases |fates|
  {
    if fates == [] {
      idx := [];
    } else {
      var k := |fates| - 1;
      idx := DuePicks(wire, fates[..k], p);
      if fates[k].Taken? && Earned(wire[k], p).Some? {
        PicksNext(wire, idx, Due(wire, fates[..k], p), k, p);
        idx := idx + [k];
      }
    }
  }

  /** In every run from the initial ring, the deliveries are an in-order subsequence of the
      frames completed on the wire: exact bytes, none twice. */
  lemma DeliveredInOrder(w: World, actions: seq<Action>, p: Params) returns (idx: seq<nat>)
    requires Initial(w) && p.maxFrame <= RCLR_VALUE
    ensures var w' := Run(w, actions, p);
            && Picks(w'.wire, idx, w'.delivered, p)
            && (forall i :: 0 <= i < |idx| ==> HandedOver(w'.wire[idx[i]], p, w'.delivered[i]))
  {
    InitialHolds(w, p);
    RunKeeps(w, actions, p);
    var w' := Run(w, actions, p);
    idx := DuePicks(w'.wire, w'.fates, p);
    PickedHandedOver(w'.wire, idx, w'.delivered, p);
  }

  lemma PickedHandedOver(wire: seq<Frame>, idx: seq<nat>, delivered: seq<seq<byte>>, p: Params)
    requires Picks(wire, idx, delivered, p)
    ensures forall i :: 0 <= i < |idx| ==> HandedOver(wire[idx[i]], p, delivered[i])
  {
    forall i | 0 <= i < |idx| ensures HandedOver(wire[idx[i]], p, delivered[i]) {
      EarnedExact(wire[idx[i]], p, delivered[i]);
    }
  }

  /** History only grows, and a frame is lost only by a reset of the whole ring. */
  ghost predicate Grows(w: World, w': World) {
    && w.wire <= w'.wire && w.fates <= w'.fates && w.resets <= w'.resets
    && (w'.resets == w.resets ==> forall i :: |w.fates| <= i < |w'.fates| ==> w'.fates[i] == Taken)
  }

  lemma StepGrows(w: World, a: Action, p: Params)
    requires w.rx.Ok()
    ensures Grows(w, Step(w, a, p))
  {
  }

  lemma {:induction false} RunGrows(w: World, actions: seq<Action>, p: Params)
    requires w.rx.Ok()
    ensures Grows(w, Run(w, actions, p))
    decreases |actions|
  {
    if actions != [] {
      StepGrows(w, actions[0], p);
      RunGrows(Step(w, actions[0], p), actions[1..], p);
    }
  }

  /** The deliveries earned by a sequence of frames, none left out. */
  function EarnedAll(q: seq<Frame>, p: Params): seq<seq<byte>>
    requires forall i :: 0 <= i < |q| ==> |q[i].bytes| <= RCLR_VALUE
  {
    if q == [] then [] else EarnedAll(q[..|q| - 1], p) + Opt(Earned(q[|q| - 1], p))
  }

  lemma AppendTwice<T>(a: seq<T>, b: seq<T>, c: seq<T>)
    ensures (a + b) + c == a + (b + c)
  {
  }

  lemma EarnedLast(wire: seq<Frame>, k: nat, m: nat, p: Params)
    requires WireOk(wire) && k <= m < |wire|
    ensures EarnedAll(wire[k..m + 1], p) == EarnedAll(wire[k..m], p) + Opt(Earned(wire[m], p))
  {
    assert wire[k..m + 1][..m - k] == wire[k..m];
  }

  lemma DueLast(wire: seq<Frame>, fates: seq<Fate>, p: Params)
    requires WireOk(wire) && 0 < |fates| <= |wire| && fates[|fates| - 1] == Taken
    ensures Due(wire, fates, p) == Due(wire, fates[..|fates| - 1], p) + Opt(Earned(wire[|fates| - 1], p))
  {
  }

  lemma {:induction false} DueAllTaken(wire: seq<Frame>, fates: seq<Fate>, k: nat, p: Params)
    requires WireOk(wire) && k <= |fates| <= |wire|
    requires forall i :: k <= i < |fates| ==> fates[i] == Taken
    ensures Due(wire, fates, p) == Due(wire, fates[..k], p) + EarnedAll(wire[k..|fates|], p)
    decreases |fates|
  {
    var m := |fates| - 1;
    if k == |fates| {
      assert fates[..k] == fates && wire[k..k] == [];
      assert Due(wire, fates, p) + [] == Due(wire, fates, p);
    } else {
      var due, earned, last := Due(wire, fates[..k], p), EarnedAll(wire[k..m], p), Opt(Earned(wire[m], p));
      assert fates[..m][..k] == fates[..k];
      DueAllTaken(wire, fates[..m], k, p);
      DueLast(wire, fates, p);
      EarnedLast(wire, k, m, p);
      AppendTwice(due, earned, last);
    }
  }

  lemma {:induction false} DuePrefix(wire: seq<Frame>, wire': seq<Frame>, fates: seq<Fate>, p: Params)
    requires wire <= wire' && WireOk(wire') && |fates| <= |wire|
    ensures WireOk(wire) && Due(wire', fates, p) == Due(wire, fates, p)
    decreases |fates|
  {
    if fates != [] { DuePrefix(wire, wire', fates[..|fates| - 1], p); }
  }

  /** Between resets nothing is skipped: every frame that left the ring was delivered, in order, if it earns a delivery. */
  lemma NoneSkippedBetweenResets(w: World, actions: seq<Action>, p: Params)
    requires Inv(w, p) && Run(w, actions, p).resets == w.resets
    ensures var w' := Run(w, actions, p);
            && WireOk(w'.wire) && |w.fates| <= |w'.fates| <= |w'.wire|
            && w'.delivered == w.delivered + EarnedAll(w'.wire[|w.fates|..|w'.fates|], p)
  {
    var w' := Run(w, actions, p);
    RunKeeps(w, actions, p);
    RunGrows(w, actions, p);
    DueAllTaken(w'.wire, w'.fates, |w.fates|, p);
    DuePrefix(w.wire, w'.wire, w.fates, p);
    assert w'.fates[..|w.fates|] == w.fates;
  }
}
