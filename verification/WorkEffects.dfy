/** What the interrupt handler and the work item achieve: which bit each interrupt sets, which piece
    of work comes first, and that frames waiting in the ring are delivered, not merely gone.
 */
module WorkEffects {
  import opened RxRing
  import opened RxRuns
  import opened RxInvariant
  import opened RxEffects
  import opened BottomHalf

  // ----- the receive loop -----

  /** What `e` gives for each item, joined from the end as `EarnedAll` does. */
  ghost function Joined<S(!new), T(!new)>(e: S -> seq<T>, q: seq<S>): seq<T> {
    if q == [] then [] else Joined(e, q[..|q| - 1]) + e(q[|q| - 1])
  }

  lemma {:induction false} JoinedFirst<S(!new), T(!new)>(e: S -> seq<T>, q: seq<S>)
    requires q != []
    ensures Joined(e, q) == e(q[0]) + Joined(e, q[1..])
    decreases |q|
  {
    var k := |q| - 1;
    if k > 0 {
      JoinedFirst(e, q[..k]);
      assert q[..k][1..] == q[1..][..k - 1];
    } else {
      assert q[..k] == [] && q[1..] == [];
    }
  }

  ghost function EarnedBy(p: Params): Frame -> seq<seq<byte>> {
    (f: Frame) => if |f.bytes| <= RCLR_VALUE then Opt(Earned(f, p)) else []
  }

  lemma {:induction false} EarnedJoined(q: seq<Frame>, p: Params)
    requires forall i :: 0 <= i < |q| ==> |q[i].bytes| <= RCLR_VALUE
    ensures EarnedAll(q, p) == Joined(EarnedBy(p), q)
    decreases |q|
  {
    if q != [] {
      EarnedJoined(q[..|q| - 1], p);
      assert EarnedBy(p)(q[|q| - 1]) == Opt(Earned(q[|q| - 1], p));
    }
  }

  lemma EarnedFirst(q: seq<Frame>, p: Params)
    requires q != [] && forall i :: 0 <= i < |q| ==> |q[i].bytes| <= RCLR_VALUE
    ensures EarnedAll(q, p) == Opt(Earned(q[0], p)) + EarnedAll(q[1..], p)
  {
    EarnedJoined(q, p);
    EarnedJoined(q[1..], p);
    JoinedFirst(EarnedBy(p), q);
    assert EarnedBy(p)(q[0]) == Opt(Earned(q[0], p));
  }

  /** The receive loop is running or will run. */
  predicate ReceiveDue(s: Sys) {
    s.pendRx || Receiving(s)
  }

  /** No fault is noted, and the loop has not just read one. */
  predicate Calm(s: Sys) {
    !s.rx.rx.underrun && !s.rx.rx.overflow && !(Receiving(s) && s.handlers[0].Restarting?)
  }

  /** What will have been delivered when the receive loop is through. */
  ghost function Destined(s: Sys, p: Params): seq<seq<byte>>
    requires RxRuns.Inv(s.rx, p)
  {
    s.rx.delivered + if ReceiveDue(s) then EarnedAll(Waiting(s.rx), p) else []
  }

  /** One unfinished frame has all the entries of an enabled receiver. */
  predicate Clogged(w: World) {
    w.rx.enabled && OpenBlocks(w.open) == |w.rx.view|
  }

  /** How many resets there will have been. */
  function ResetsDue(s: Sys): nat {
    s.rx.resets + if ReceiveDue(s) && Clogged(s.rx) then 1 else 0
  }

  /** `s'` is as far from its end as `s`: the same deliveries and resets are to come. */
  ghost predicate SameOutcome(s: Sys, s': Sys, p: Params) {
    && RxRuns.Inv(s.rx, p) && RxRuns.Inv(s'.rx, p)
    && Calm(s') && Destined(s', p) == Destined(s, p) && ResetsDue(s') == ResetsDue(s)
  }

  /** Taking a frame moves what it earns from the frames waiting to the deliveries. */
  lemma TakenMoves(w: World, p: Params)
    requires RxRuns.Inv(w, p) && Waiting(w) != [] && !Restarts(w.rx)
    ensures var w' := ExtractStep(w, p);
            && RxRuns.Inv(w', p)
            && w'.delivered + EarnedAll(Waiting(w'), p) == w.delivered + EarnedAll(Waiting(w), p)
  {
    var w', q := ExtractStep(w, p), Waiting(w);
    ExtractKeeps(w, p);
    ExtractTakes(w, p);
    assert Waiting(w') == q[1..];
    EarnedFirst(q, p);
    AppendTwice(w.delivered, Opt(Earned(q[0], p)), EarnedAll(q[1..], p));
  }

  lemma ExtractFound(s: Sys, p: Params)
    requires BottomHalf.Inv(s, p) && Calm(s) && Receiving(s) && s.handlers[0].Extracting? && Waiting(s.rx) != []
    ensures SameOutcome(s, HandlerStep(s, 0, p), p)
  {
    RestartsWhen(s.rx, p);
    NotClogged(s.rx, p);
    ExtractTakes(s.rx, p);
    TakenMoves(s.rx, p);
    ExtractionProgress(s.rx, p);
  }

  /** Beside a complete frame an unfinished one cannot have every entry. */
  lemma NotClogged(w: World, p: Params)
    requires RxRuns.Inv(w, p) && Waiting(w) != []
    ensures OpenBlocks(w.open) < |w.rx.view|
  {
    FramesUse(w.rx.view, 0, Waiting(w));
  }

  /** A failing extraction that restarts the receiver has had its reset counted before. */
  lemma FailingRestart(w: World, p: Params)
    requires RxRuns.Inv(w, p) && Waiting(w) == [] && !w.rx.overflow && Restarts(w.rx)
    ensures var w' := ExtractStep(w, p);
            && RxRuns.Inv(w', p) && Waiting(w') == [] && w'.delivered == w.delivered && Clogged(w) && !Clogged(w')
            && w'.resets == w.resets + 1 && !w'.rx.underrun && !w'.rx.overflow
  {
    RestartsWhen(w, p);
    ExtractFails(w, p);
    ExtractKeeps(w, p);
    ExtractRestarts(w, p);
  }

  lemma ExtractNothing(s: Sys, p: Params)
    requires BottomHalf.Inv(s, p) && Calm(s) && Receiving(s) && s.handlers[0].Extracting? && Waiting(s.rx) == []
    ensures SameOutcome(s, HandlerStep(s, 0, p), p)
  {
    var s' := ExtractTurn(s, 0, p);
    ExtractionProgress(s.rx, p);
    if Restarts(s.rx.rx) {
      FailingRestart(s.rx, p);
    } else {
      RestartsWhen(s.rx, p);
      ExtractFails(s.rx, p);
    }
    assert |s'.handlers| == 1 && s'.handlers[0].AtAction? && s'.pendRx == s.pendRx;
    assert EarnedAll([], p) == [];
  }

  /** A step that leaves the receiver alone and the receive loop as near as it was. */
  lemma ReceiverAlone(s: Sys, s': Sys, p: Params)
    requires RxRuns.Inv(s.rx, p) && Calm(s) && s'.rx == s.rx && ReceiveDue(s') == ReceiveDue(s)
    requires !(Receiving(s') && s'.handlers[0].Restarting?)
    ensures SameOutcome(s, s', p)
  {
  }

  lemma ActionDue(s: Sys)
    requires |s.handlers| == 1 && s.handlers[0].AtAction?
    ensures ReceiveDue(TakeAction(s, 0)) == ReceiveDue(s)
    ensures !(Receiving(TakeAction(s, 0)) && TakeAction(s, 0).handlers[0].Restarting?)
  {
  }

  lemma BackToAction(s: Sys)
    requires |s.handlers| == 1 && !Receiving(s)
    ensures ReceiveDue(Goto(s, 0, AtAction)) == ReceiveDue(s) && !Receiving(Goto(s, 0, AtAction))
  {
  }

  lemma LocalDue(s: Sys)
    requires |s.handlers| == 1 && !Receiving(s)
    ensures ReceiveDue(LocalStep(s, 0)) == ReceiveDue(s)
    ensures !(Receiving(LocalStep(s, 0)) && LocalStep(s, 0).handlers[0].Restarting?)
  {
    if s.handlers[0].AtAction? {
      ActionDue(s);
    } else if s.handlers[0].Entered? {
      BackToAction(s.(running := true));
    } else if s.handlers[0].InTransmit? {
      BackToAction(CheckSendDone(s));
    } else {
      BackToAction(s);
    }
  }

  lemma LocalOutcome(s: Sys, p: Params)
    requires BottomHalf.Inv(s, p) && Calm(s) && |s.handlers| == 1 && !Receiving(s)
    ensures SameOutcome(s, HandlerStep(s, 0, p), p)
  {
    LocalDue(s);
    ReceiverAlone(s, LocalStep(s, 0), p);
  }

  lemma ReadOutcome(s: Sys, p: Params)
    requires BottomHalf.Inv(s, p) && Calm(s) && Receiving(s) && s.handlers[0].InReceive?
    ensures SameOutcome(s, HandlerStep(s, 0, p), p)
  {
    ReceiverAlone(s, Goto(s, 0, Extracting), p);
  }

  /** A step of the work item. */
  predicate WorkOnly(a: BottomHalf.Action) {
    a.Dispatch? || a.Handler?
  }

  lemma DispatchOutcome(s: Sys, p: Params)
    requires BottomHalf.Inv(s, p) && Calm(s)
    ensures SameOutcome(s, BottomHalf.Step(s, Dispatch, p), p)
  {
  }

  lemma WorkStepOutcome(s: Sys, a: BottomHalf.Action, p: Params)
    requires BottomHalf.Inv(s, p) && Calm(s) && WorkOnly(a)
    ensures SameOutcome(s, BottomHalf.Step(s, a, p), p)
  {
    if a.Dispatch? {
      DispatchOutcome(s, p);
    } else if a.i < |s.handlers| {
      if !Receiving(s) {
        LocalOutcome(s, p);
      } else if s.handlers[0].InReceive? {
        ReadOutcome(s, p);
      } else if Waiting(s.rx) != [] {
        ExtractFound(s, p);
      } else {
        ExtractNothing(s, p);
      }
    }
  }

  lemma {:induction false} WorkRunOutcome(s: Sys, actions: seq<BottomHalf.Action>, p: Params)
    requires BottomHalf.Inv(s, p) && Calm(s) && forall i :: 0 <= i < |actions| ==> WorkOnly(actions[i])
    ensures SameOutcome(s, BottomHalf.Run(s, actions, p), p)
    decreases |actions|
  {
    if actions != [] {
      WorkStepOutcome(s, actions[0], p);
      SystemStepKeeps(s, actions[0], p);
      WorkRunOutcome(BottomHalf.Step(s, actions[0], p), actions[1..], p);
    }
  }

  /** Left to itself, a work item with receive work to do and no fault noted delivers every frame
      waiting in the ring that earns it, in order, and resets the ring only if one unfinished frame
      has every entry. */
  lemma WorkDelivers(s: Sys, p: Params) returns (actions: seq<BottomHalf.Action>)
    requires BottomHalf.Inv(s, p) && Calm(s) && ReceiveDue(s)
    ensures forall i :: 0 <= i < |actions| ==> WorkOnly(actions[i])
    ensures var s' := BottomHalf.Run(s, actions, p);
            && !s'.requested && !Pending(s') && s'.handlers == []
            && s'.rx.delivered == s.rx.delivered + EarnedAll(Waiting(s.rx), p)
            && s'.rx.resets == s.rx.resets + if Clogged(s.rx) then 1 else 0
  {
    actions := WorkDrains(s, p);
    WorkRunOutcome(s, actions, p);
    var s' := BottomHalf.Run(s, actions, p);
    assert !ReceiveDue(s');
    assert s'.rx.delivered + [] == s'.rx.delivered;
  }

  /** An underrun that is read as set leads to a restart, and nothing is delivered. */
  lemma UnderrunRestarts(s: Sys, p: Params)
    requires BottomHalf.Inv(s, p) && Receiving(s) && s.handlers[0].InReceive? && s.rx.rx.underrun
    ensures var s1 := BottomHalf.Step(s, Handler(0), p);
            && s1.rx == s.rx && s1.rx.rx.Ok()
            && var s2 := BottomHalf.Step(s1, Handler(0), p);
               && Started(s2.rx) && s2.rx.delivered == s.rx.delivered && s2.rx.resets == s.rx.resets + 1
               && |s2.handlers| == 1 && s2.handlers[0].AtAction?
  {
    RestartStarts(s.rx);
  }

  /** One read as clear leads to one extraction. */
  lemma ClearExtracts(s: Sys, p: Params)
    requires BottomHalf.Inv(s, p) && Receiving(s) && s.handlers[0].InReceive? && !s.rx.rx.underrun
    ensures var s1 := BottomHalf.Step(s, Handler(0), p);
            && s1.rx == s.rx && s1.rx.rx.Ok()
            && var s2 := BottomHalf.Step(s1, Handler(0), p);
               && s2.rx == ExtractStep(s.rx, p) && |s2.handlers| == 1
               && s2.handlers[0] == if Waiting(s.rx) != [] then InReceive else AtAction
  {
    ExtractionProgress(s.rx, p);
  }

  // ----- interrupts and callers -----

  /** A receive interrupt sets BH_RECEIVE and does to the receiver what its own service does. */
  lemma DmaIrqAsks(s: Sys, p: Params)
    requires BottomHalf.Inv(s, p) && s.rx.rx.dma.irq
    ensures var s' := BottomHalf.Step(s, IsrRxDma, p);
            s'.pendRx && s'.requested && s'.rx == RxRuns.Step(s.rx, DmaIrq, p)
  {
  }

  lemma UnderrunIrqAsks(s: Sys, p: Params)
    requires BottomHalf.Inv(s, p) && s.rx.rx.dma.phase.InFrame?
    ensures var s' := BottomHalf.Step(s, IsrRxUnderrun, p);
            s'.pendRx && s'.requested && s'.rx == RxRuns.Step(s.rx, UnderrunIrq, p)
  {
  }

  /** An overrun is dealt with at once. */
  lemma OverrunIrqRecovers(s: Sys, p: Params)
    requires BottomHalf.Inv(s, p)
    ensures var s' := BottomHalf.Step(s, IsrRxOverrun, p);
            s'.rx == RxRuns.Step(s.rx, OverrunIrq, p) && s'.pendRx == s.pendRx
  {
  }

  /** The end of transmission makes the transmitter idle; a wake-up leaves it as it was or starts
      it; both set BH_TRANSMIT. A pin interrupt sets BH_STATUS. */
  lemma OtherIrqEffect(s: Sys, starts: bool, p: Params)
    requires BottomHalf.Inv(s, p)
    ensures var s' := BottomHalf.Step(s, IsrTxDone, p); !s'.txActive && s'.pendTx && s'.requested && s'.sendDone == s.sendDone
    ensures var s' := BottomHalf.Step(s, IsrTxWake(starts), p);
            (s'.txActive <==> s.txActive || starts) && s'.pendTx && s'.requested && s'.sendDone == s.sendDone
    ensures var s' := BottomHalf.Step(s, IsrIoPin, p);
            s'.pendStatus && s'.requested && s'.txActive == s.txActive && s'.sendDone == s.sendDone
  {
  }

  /** An interrupt queues the work item exactly when there is work and no instance is queued or live. */
  lemma QueuedWhen(s: Sys)
    requires OneInstance(s)
    ensures Request(s).queued == s.queued + if Pending(s) && s.queued == 0 && s.handlers == [] then 1 else 0
  {
  }

  /** The next piece of work: receive before transmit before status, one bit cleared, no other; the
      instance that finds none leaves and clears both flags. */
  lemma WorkInOrder(s: Sys, p: Params)
    requires BottomHalf.Inv(s, p) && |s.handlers| == 1 && s.handlers[0].AtAction?
    ensures var s' := BottomHalf.Step(s, Handler(0), p);
            if !Pending(s) then s'.handlers == [] && !s'.running && !s'.requested
            else
              && |s'.handlers| == 1 && s'.requested && s'.running
              && s'.handlers[0] == (if s.pendRx then InReceive else if s.pendTx then InTransmit else InStatus)
              && !s'.pendRx
              && (s'.pendTx <==> s.pendTx && s.pendRx)
              && (s'.pendStatus <==> s.pendStatus && (s.pendRx || s.pendTx))
  {
  }

  /** The transmit work clears a send-done request exactly when the transmitter is idle. */
  lemma SendDoneCheck(s: Sys, p: Params)
    requires BottomHalf.Inv(s, p) && Transmitting(s)
    ensures var s' := BottomHalf.Step(s, Handler(0), p);
            (s'.sendDone <==> s.sendDone && s.txActive) && s'.txActive == s.txActive && s'.handlers == [AtAction]
  {
    assert s.handlers[0 := AtAction] == [AtAction];
  }

  /** In loop mode a send-done is kept for a busy transmitter and carried out at once for an idle
      one; a timeout or an abort of a transmission in progress cancels it. */
  lemma SendDoneRequests(s: Sys, p: Params)
    requires BottomHalf.Inv(s, p) && s.loopMode
    ensures BottomHalf.Step(s, RequestSendDone, p).sendDone <==> s.txActive
    ensures !BottomHalf.Step(s, BottomHalf.Timeout, p).sendDone && !BottomHalf.Step(s, BottomHalf.Timeout, p).txActive
    ensures BottomHalf.Step(s, Abort, p).sendDone <==> s.sendDone && !s.txActive
  {
  }

  /** A start makes the transmitter busy; the timer leaves a check to be made. */
  lemma TimerEffect(s: Sys, p: Params)
    requires BottomHalf.Inv(s, p)
    ensures BottomHalf.Step(s, StartTx, p).txActive
    ensures BottomHalf.Step(s, BottomHalf.Timeout, p).timeouts == s.timeouts + 1
  {
  }

  /** The timer's own check clears a send-done request exactly when the transmitter is still idle. */
  lemma TimerCheckEffect(s: Sys, p: Params)
    requires s.rx.rx.Ok() && s.timeouts > 0
    ensures var s' := BottomHalf.Step(s, TimeoutCheck, p);
            s'.timeouts == s.timeouts - 1 && (s'.sendDone <==> s.sendDone && s.txActive) && s'.txActive == s.txActive
  {
  }

  /** A queued work item becomes a live instance; enabling and disabling reach the receiver. */
  lemma DispatchEffect(s: Sys, on: bool, p: Params)
    requires BottomHalf.Inv(s, p)
    ensures s.queued > 0 ==> BottomHalf.Step(s, Dispatch, p).handlers == [Entered]
    ensures BottomHalf.Step(s, RxEnable(on), p).rx == RxRuns.Step(s.rx, if on then Enable else Disable, p)
  {
    if s.queued > 0 { assert s.handlers + [Entered] == [Entered]; }
  }

  lemma RequestSame(s: Sys)
    ensures Request(s).sendDone == s.sendDone
  {
  }

  lemma FlagStepSendDone(s: Sys, a: BottomHalf.Action)
    requires !a.RequestSendDone? && !a.Timeout? && !a.Abort? && !a.TimeoutCheck?
    ensures FlagStep(s, a).sendDone == s.sendDone
  {
    if a.IsrTxDone? {
      RequestSame(s.(txActive := false, pendTx := true));
    } else if a.IsrTxWake? {
      RequestSame(s.(txActive := s.txActive || a.starts, pendTx := true));
    } else if a.IsrIoPin? {
      RequestSame(s.(pendStatus := true));
    }
  }

  lemma ActionSendDone(s: Sys, i: nat)
    requires i < |s.handlers|
    ensures TakeAction(s, i).sendDone == s.sendDone
  {
  }

  lemma LocalSendDone(s: Sys, i: nat)
    requires i < |s.handlers| && !s.handlers[i].InTransmit?
    ensures LocalStep(s, i).sendDone == s.sendDone
  {
    if s.handlers[i].AtAction? { ActionSendDone(s, i); }
  }

  lemma GotoSendDone(s: Sys, i: nat, pc: Pc)
    requires i < |s.handlers|
    ensures Goto(s, i, pc).sendDone == s.sendDone
  {
  }

  lemma HandlerSendDone(s: Sys, i: nat, p: Params)
    requires s.rx.rx.Ok() && i < |s.handlers| && !s.handlers[i].InTransmit?
    ensures HandlerStep(s, i, p).sendDone == s.sendDone
  {
    if s.handlers[i].InReceive? {
      GotoSendDone(s, i, if s.rx.rx.underrun then Restarting else Extracting);
    } else if s.handlers[i].Restarting? {
      GotoSendDone(s.(rx := Restart(s.rx)), i, AtAction);
    } else if s.handlers[i].Extracting? {
      GotoSendDone(s.(rx := ExtractStep(s.rx, p)), i, if GetFrame(s.rx.rx, p).more then InReceive else AtAction);
    } else {
      LocalSendDone(s, i);
    }
  }

  /** No other step touches a send-done request. */
  lemma SendDoneStays(s: Sys, a: BottomHalf.Action, p: Params)
    requires BottomHalf.Inv(s, p)
    requires !a.RequestSendDone? && !a.Timeout? && !a.Abort? && !a.TimeoutCheck? && !(a.Handler? && Transmitting(s))
    ensures BottomHalf.Step(s, a, p).sendDone == s.sendDone
  {
    if a.Handler? {
      if a.i < |s.handlers| { HandlerSendDone(s, a.i, p); }
    } else {
      FlagStepSendDone(s, a);
    }
  }
}
