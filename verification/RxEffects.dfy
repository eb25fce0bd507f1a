/** What each single step of the receive side does, stated on the states before and after it. */
module RxEffects {
  import opened Cyclic
  import opened RxRing
  import opened RxRuns
  import opened RxInvariant

  /** Nothing but the flags and the DMA channel differ. */
  ghost predicate RingKept(w: World, w': World) {
    && w'.rx.view == w.rx.view && w'.rx.cur == w.rx.cur
    && w' == w.(rx := w'.rx)
  }

  /** The receiver has just been started: enabled, no fault noted, every entry free, the device at entry 0. */
  ghost predicate Started(w: World) {
    && w.rx.enabled && !w.rx.overflow && !w.rx.underrun && w.rx.cur == 0
    && w.rx.dma == Dma(Hunting, 0, false, false)
    && (forall i :: 0 <= i < |w.rx.view| ==> Free(w.rx.view[i]))
    && w.open.None? && |w.fates| >= |w.wire|
  }

  /** The receive DMA interrupt is acknowledged; an end of list becomes an overflow. */
  lemma DmaIrqEffect(w: World, p: Params)
    requires w.rx.Ok() && w.rx.dma.irq
    ensures var w' := Step(w, DmaIrq, p);
            && RingKept(w, w') && w'.rx.enabled == w.rx.enabled && w'.rx.underrun == w.rx.underrun
            && (w'.rx.overflow <==> w.rx.overflow || w.rx.dma.eol)
            && w'.rx.dma == Dma(w.rx.dma.phase, w.rx.dma.entry, false, false)
  {
  }

  /** A count underrun inside a frame halts the device and asks for a restart. */
  lemma UnderrunEffect(w: World, p: Params)
    requires w.rx.Ok() && w.rx.dma.phase.InFrame?
    ensures var w' := Step(w, UnderrunIrq, p);
            && RingKept(w, w') && w'.rx.enabled == w.rx.enabled && w'.rx.overflow == w.rx.overflow
            && w'.rx.underrun && w'.rx.dma.phase.Halted? && !w'.rx.dma.irq
  {
  }

  lemma RestartStarts(w: World)
    requires w.rx.Ok()
    ensures Started(Restart(w)) && Restart(w).delivered == w.delivered && Restart(w).resets == w.resets + 1
    ensures Restart(w).wire == w.wire && |Restart(w).rx.view| == |w.rx.view|
  {
  }

  /** Enabling starts a receiver that is off and leaves one alone that is on. */
  lemma EnableEffect(w: World, p: Params)
    requires w.rx.Ok()
    ensures var w' := Step(w, Enable, p);
            if w.rx.enabled then w' == w
            else Started(w') && w'.delivered == w.delivered && w'.resets == w.resets + 1
  {
    RestartStarts(w);
  }

  /** Disabling halts the device and clears the flags; the ring stays as it is. */
  lemma DisableEffect(w: World, p: Params)
    requires w.rx.Ok()
    ensures var w' := Step(w, Disable, p);
            && RingKept(w, w') && !w'.rx.enabled
            && (w.rx.enabled ==> !w'.rx.overflow && !w'.rx.underrun && w'.rx.dma.phase.Halted? && !w'.rx.dma.irq)
  {
  }

  /** The bottom half's answer to an underrun starts the receiver. */
  lemma RestartUnderrunEffect(w: World, p: Params)
    requires w.rx.Ok()
    ensures var w' := Step(w, RestartUnderrun, p);
            if w.rx.underrun then Started(w') && w'.delivered == w.delivered && w'.resets == w.resets + 1 else w' == w
  {
    RestartStarts(w);
  }

  /** A FIFO overrun with an unused entry left: complete frames stay, the unfinished one is given up,
      its entries are free and the device is sent to the first of them. */
  lemma OverrunEffect(w: World, p: Params)
    requires Inv(w, p) && Used(Waiting(w)) + OpenBlocks(w.open) < |w.rx.view|
    ensures var w', u := Step(w, OverrunIrq, p), Used(Waiting(w));
            && Waiting(w') == Waiting(w) && w'.open.None? && w'.resets == w.resets && w'.delivered == w.delivered
            && FreeFrom(w'.rx.view, u)
            && (w.open.Some? ==> w'.rx.dma.phase.Hunting? && w'.rx.dma.entry == At(w.rx.cur, u, |w.rx.view|))
  {
    RecoveryScan(w.rx.view, Waiting(w), w.open);
    RecoveryEffect(w.rx, Waiting(w), w.open);
    RecoverKeeps(w, p);
  }

  /** With every entry in use the whole ring is given up. */
  lemma OverrunResets(w: World, p: Params)
    requires Inv(w, p) && Used(Waiting(w)) + OpenBlocks(w.open) == |w.rx.view|
    ensures var w' := Step(w, OverrunIrq, p);
            && FreeFrom(w'.rx.view, 0) && w'.rx.cur == 0 && w'.rx.dma.phase.Hunting? && w'.rx.dma.entry == 0
            && Waiting(w') == [] && w'.open.None? && w'.resets == w.resets + 1 && w'.delivered == w.delivered
  {
    RecoveryScan(w.rx.view, Waiting(w), w.open);
    RecoveryResets(w.rx, Waiting(w), w.open);
    RecoverKeeps(w, p);
  }

  // ----- the device at the end of the list -----

  /** A frame that begins with every entry used stops the device, and the interrupt that follows
      notes an overflow; nothing that is stored changes. */
  lemma FullRingOverflows(w: World, bs: seq<byte>, p: Params)
    requires Inv(w, p) && w.rx.dma.phase.Hunting? && Used(Waiting(w)) == |w.rx.view| && |bs| <= BUFFER_SIZE
    ensures var w1 := Step(w, Begin(bs), p);
            && RingKept(w, w1) && w1.rx.dma.phase.Halted? && w1.rx.dma.irq
            && Step(w1, DmaIrq, p).rx.overflow
  {
    FramesUse(w.rx.view, 0, Waiting(w));
    ClaimUsed(w, w.rx.dma.entry, [], bs);
  }

  /** So does a frame that needs another entry when all are used. */
  lemma FullRingOverflowsInFrame(w: World, bs: seq<byte>, p: Params)
    requires Inv(w, p) && w.rx.dma.phase.InFrame? && Filled(|w.open.value|) == BUFFER_SIZE
    requires Used(Waiting(w)) + Blocks(|w.open.value|) == |w.rx.view|
    requires 1 <= |bs| <= BUFFER_SIZE && |w.open.value| + |bs| <= RCLR_VALUE
    ensures var w1 := Step(w, Extend(bs), p);
            && RingKept(w, w1) && w1.rx.dma.phase.Halted? && w1.rx.dma.irq
            && Step(w1, DmaIrq, p).rx.overflow
  {
    OffsetAt(w.rx.cur, |w.rx.view| - 1, |w.rx.view|);
    FirstUsed(w.rx.view, Waiting(w), w.open.value);
    ClaimUsed(w, w.rx.cur, w.open.value, bs);
  }

  // ----- one extraction -----

  /** An extraction resets the ring exactly when an enabled receiver has overflowed or has one
      unfinished frame in every entry. */
  lemma RestartsWhen(w: World, p: Params)
    requires Inv(w, p)
    ensures Restarts(w.rx) <==> w.rx.enabled && (w.rx.overflow || OpenBlocks(w.open) == |w.rx.view|)
  {
    if Waiting(w) != [] {
      ScanFinds(w.rx, Waiting(w)[0], p);
    } else {
      ScanFails(w.rx.view, w.open);
    }
  }

  /** With a complete frame in front an extraction hands over what it earns; unless the receiver
      restarts, the other frames, the unfinished one and every flag stay. */
  lemma ExtractTakes(w: World, p: Params)
    requires Inv(w, p) && Waiting(w) != []
    ensures var w', f := ExtractStep(w, p), Waiting(w)[0];
            && FrameOk(f) && w'.delivered == w.delivered + Opt(Earned(f, p)) && w'.wire == w.wire
            && (!Restarts(w.rx) ==>
                  && w'.fates == w.fates + [Taken] && w'.open == w.open && w'.resets == w.resets
                  && |w'.rx.view| == |w.rx.view|
                  && w'.rx.enabled == w.rx.enabled && w'.rx.overflow == w.rx.overflow && w'.rx.underrun == w.rx.underrun)
  {
    ScanFinds(w.rx, Waiting(w)[0], p);
  }

  /** Without one it hands over nothing, and changes nothing unless the receiver restarts. */
  lemma ExtractFails(w: World, p: Params)
    requires Inv(w, p) && Waiting(w) == []
    ensures var w' := ExtractStep(w, p);
            && w'.delivered == w.delivered && w'.wire == w.wire
            && (!Restarts(w.rx) ==> w' == w)
  {
    ScanFails(w.rx.view, w.open);
    assert w.delivered + [] == w.delivered && w.fates + [] == w.fates;
  }

  /** An extraction that restarts the receiver leaves it started, one reset later. */
  lemma ExtractRestarts(w: World, p: Params)
    requires Inv(w, p) && Restarts(w.rx)
    ensures Started(ExtractStep(w, p)) && ExtractStep(w, p).resets == w.resets + 1
  {
    ExtractKeeps(w, p);
  }
}
