/** The interrupt handler, the deferred work item and the loop-mode flags, running concurrently.

    Each step is one section executed under the driver's spinlock, or one unlocked access.
    Frame extraction is one step. Several instances of the work item may exist at once as far
    as the model is concerned; that there never is more than one is proved.
 */
module BottomHalf {
  import opened RxRing
  import opened RxRuns
  import opened RxInvariant

  /** Where an instance of the work item stands. An instance that has made its final empty
      `r56_bh_action` call touches nothing more and is no longer listed. */
  datatype Pc =
    | Entered     // dequeued, `bh_running` not yet written
    | AtAction    // about to ask for the next action
    | InReceive   // in the receive loop, about to read `rx_rcc_underrun`
    | Restarting  // has read it as set, about to restart the receiver
    | Extracting  // has read it as clear, about to look for a frame
    | InTransmit  // in `r56_bh_transmit`, before its check
    | InStatus

  datatype Sys = Sys(rx: World, pendRx: bool, pendTx: bool, pendStatus: bool, running: bool, requested: bool,
                     queued: nat, handlers: seq<Pc>, txActive: bool, sendDone: bool, loopMode: bool, timeouts: nat)

  predicate Pending(s: Sys) {
    s.pendRx || s.pendTx || s.pendStatus
  }

  datatype Action =
    | Device(step: RxRuns.Action)  // the receive device
    | IsrRxDma
    | IsrRxUnderrun
    | IsrRxOverrun
    | IsrTxDone                    // end of transmission, transmitter not stopped
    | IsrTxWake(starts: bool)      // end-of-buffer, transmit data or CTS: writers are woken, the
                                   // last possibly starting the transmitter
    | IsrIoPin
    | Dispatch                     // the kernel starts the queued work item
    | Handler(i: nat)              // instance `i` takes its next step
    | StartTx                      // a write starts the transmitter
    | Timeout                      // the transmit timer fires
    | TimeoutCheck                 // the timer's own call of `r56_bh_transmit` reaches its check
    | Abort
    | RequestSendDone
    | RxEnable(on: bool)

  /** The tail of the interrupt handler: queue the work item if there is work and none is under way. */
  function Request(s: Sys): (s': Sys)
    ensures s'.rx == s.rx
  {
    if Pending(s) && !s.running && !s.requested then s.(queued := s.queued + 1, requested := true) else s
  }

  function Receive(s: Sys, a: RxRuns.Action, p: Params): Sys
    requires s.rx.rx.Ok()
  {
    s.(rx := RxRuns.Step(s.rx, a, p))
  }

  /** The check in `r56_bh_transmit`. */
  function CheckSendDone(s: Sys): (s': Sys)
    ensures s'.rx == s.rx
  {
    if !s.txActive && s.sendDone then s.(sendDone := false) else s
  }

  function Goto(s: Sys, i: nat, pc: Pc): (s': Sys)
    requires i < |s.handlers|
    ensures s'.rx == s.rx
  {
    s.(handlers := s.handlers[i := pc])
  }

  /** `r56_bh_action`, with the instance that makes the empty call leaving. */
  function TakeAction(s: Sys, i: nat): (s': Sys)
    requires i < |s.handlers|
    ensures s'.rx == s.rx
  {
    if s.pendRx then Goto(s.(pendRx := false), i, InReceive)
    else if s.pendTx then Goto(s.(pendTx := false), i, InTransmit)
    else if s.pendStatus then Goto(s.(pendStatus := false), i, InStatus)
    else s.(running := false, requested := false, handlers := s.handlers[..i] + s.handlers[i + 1..])
  }

  /** Whether an instance is in its receive loop. */
  predicate Receiving(s: Sys) {
    |s.handlers| == 1 && (s.handlers[0].InReceive? || s.handlers[0].Restarting? || s.handlers[0].Extracting?)
  }

  predicate Transmitting(s: Sys) {
    |s.handlers| == 1 && s.handlers[0].InTransmit?
  }

  /** The extraction of the receive loop, which goes on while there are frames. */
  function ExtractTurn(s: Sys, i: nat, p: Params): (s': Sys)
    requires s.rx.rx.Ok() && i < |s.handlers|
    ensures s'.rx.rx.dma.irq ==> s.rx.rx.dma.irq
  {
    Goto(s.(rx := ExtractStep(s.rx, p)), i, if GetFrame(s.rx.rx, p).more then InReceive else AtAction)
  }

  /** The steps of an instance outside the receive loop. */
  function LocalStep(s: Sys, i: nat): (s': Sys)
    requires i < |s.handlers|
    ensures s'.rx == s.rx
  {
    match s.handlers[i]
    case Entered => Goto(s.(running := true), i, AtAction)
    case AtAction => TakeAction(s, i)
    case InTransmit => Goto(CheckSendDone(s), i, AtAction)
    case InStatus => Goto(s, i, AtAction)
    case _ => s
  }

  function HandlerStep(s: Sys, i: nat, p: Params): Sys
    requires s.rx.rx.Ok() && i < |s.handlers|
  {
    match s.handlers[i]
    case InReceive => Goto(s, i, if s.rx.rx.underrun then Restarting else Extracting)
    case Restarting => Goto(s.(rx := Restart(s.rx)), i, AtAction)
    case Extracting => ExtractTurn(s, i, p)
    case _ => LocalStep(s, i)
  }

  /** The steps that only touch the flags of scheduling and transmission. */
  function FlagStep(s: Sys, a: Action): (s': Sys)
    ensures s'.rx == s.rx
  {
    match a
    case IsrTxDone => Request(s.(txActive := false, pendTx := true))
    case IsrTxWake(starts) => Request(s.(txActive := s.txActive || starts, pendTx := true))
    case IsrIoPin => Request(s.(pendStatus := true))
    case Dispatch => if s.queued > 0 then s.(queued := s.queued - 1, handlers := s.handlers + [Entered]) else s
    case StartTx => s.(txActive := true)
    case Timeout => s.(txActive := false, sendDone := s.sendDone && !s.loopMode, timeouts := s.timeouts + 1)
    case TimeoutCheck => if s.timeouts > 0 then CheckSendDone(s.(timeouts := s.timeouts - 1)) else s
    case Abort => if s.txActive && s.loopMode then s.(sendDone := false) else s
    case RequestSendDone => if s.loopMode then s.(sendDone := s.txActive) else s
    case _ => s
  }

  function Step(s: Sys, a: Action, p: Params): Sys
    requires s.rx.rx.Ok()
  {
    match a
    case Device(step) =>
      if step.Begin? || step.Extend? || step.End? || step.Resume? then Receive(s, step, p) else s
    case IsrRxDma => if s.rx.rx.dma.irq then Request(Receive(s, DmaIrq, p).(pendRx := true)) else s
    case IsrRxUnderrun =>
      if s.rx.rx.dma.phase.InFrame? then Request(Receive(s, UnderrunIrq, p).(pendRx := true)) else s
    case IsrRxOverrun => Request(Receive(s, OverrunIrq, p))
    case RxEnable(on) => Receive(s, if on then Enable else Disable, p)
    case Handler(i) => if i < |s.handlers| then HandlerStep(s, i, p) else s
    case _ => FlagStep(s, a)
  }

  // ----- invariant -----

  /** How many complete frames are in the ring. */
  function Left(w: World): nat {
    if |w.fates| <= |w.wire| then |w.wire| - |w.fates| else 0
  }

  /** A request is exactly one instance queued or not yet past its final call, and `bh_running`
      is set exactly when that instance has got past writing it. */
  ghost predicate OneInstance(s: Sys) {
    && s.queued + |s.handlers| == (if s.requested then 1 else 0)
    && (s.running <==> |s.handlers| == 1 && !s.handlers[0].Entered?)
  }

  /** Work is never lost: pending work implies a request. */
  ghost predicate WorkKept(s: Sys) {
    OneInstance(s) && (Pending(s) ==> s.requested)
  }

  /** A complete frame at `current_rx_buffer` is always about to be noticed. */
  ghost predicate NoneStranded(s: Sys) {
    s.rx.rx.enabled && Left(s.rx) > 0 ==> s.rx.rx.dma.irq || s.pendRx || Receiving(s)
  }

  /** A requested send-done meets an idle transmitter only while a check is still to come. */
  ghost predicate SendDoneKept(s: Sys) {
    s.sendDone && !s.txActive ==> s.pendTx || Transmitting(s) || s.timeouts > 0
  }

  ghost predicate Inv(s: Sys, p: Params) {
    RxRuns.Inv(s.rx, p) && WorkKept(s) && NoneStranded(s) && SendDoneKept(s)
  }

  /** A device step that completes a frame, or stops at the end of the list, raises the interrupt. */
  lemma DeviceRaises(w: World, a: RxRuns.Action, p: Params)
    requires RxRuns.Inv(w, p) && (a.Begin? || a.Extend? || a.End? || a.Resume?)
    ensures var w' := RxRuns.Step(w, a, p);
            && w'.rx.enabled == w.rx.enabled && w'.fates == w.fates
            && (w.rx.dma.irq ==> w'.rx.dma.irq)
            && (w'.wire != w.wire ==> w'.rx.dma.irq)
  {
  }

  /** A failing extraction leaves no complete frame, a successful one fewer than before. */
  lemma ExtractionProgress(w: World, p: Params)
    requires RxRuns.Inv(w, p)
    ensures var w' := ExtractStep(w, p);
            && RxRuns.Inv(w', p)
            && (GetFrame(w.rx, p).more <==> Left(w) > 0)
            && (Left(w) == 0 ==> Left(w') == 0)
            && (Left(w) > 0 ==> Left(w') < Left(w))
  {
    ExtractKeeps(w, p);
    if Left(w) > 0 {
      ScanFinds(w.rx, Waiting(w)[0], p);
    } else {
      ScanFails(w.rx.view, w.open);
    }
  }

  lemma ResetEmpties(w: World, p: Params)
    requires RxRuns.Inv(w, p)
    ensures Left(Restart(w)) == 0 && RxRuns.Inv(Restart(w), p)
  {
    RestartKeeps(w, p);
  }

  lemma RecoveryWaiting(w: World, p: Params)
    requires RxRuns.Inv(w, p)
    ensures var w' := RxRuns.Step(w, OverrunIrq, p);
            && RxRuns.Inv(w', p)
            && (Left(w') == 0 || Left(w') == Left(w))
            && w'.rx.enabled == w.rx.enabled && w'.rx.dma.irq == w.rx.dma.irq
  {
    RecoverKeeps(w, p);
  }

  /** `s'` is `s` but for the receiver and the place of the only instance. */
  ghost predicate Moved(s: Sys, s': Sys) {
    |s.handlers| == |s'.handlers| == 1 && s' == s.(rx := s'.rx, handlers := s'.handlers)
  }

  /** The receive loop goes on, or ends with no complete frame left. */
  lemma LoopTurnKeeps(s: Sys, s': Sys, p: Params)
    requires Inv(s, p) && Receiving(s) && Moved(s, s') && RxRuns.Inv(s'.rx, p)
    requires Receiving(s') || (s'.handlers[0].AtAction? && Left(s'.rx) == 0)
    ensures Inv(s', p)
  {
  }

  lemma UnderrunReadKeeps(s: Sys, p: Params)
    requires Inv(s, p) && Receiving(s) && s.handlers[0].InReceive?
    ensures Inv(HandlerStep(s, 0, p), p)
  {
    LoopTurnKeeps(s, HandlerStep(s, 0, p), p);
  }

  lemma RestartTurnKeeps(s: Sys, p: Params)
    requires Inv(s, p) && Receiving(s) && s.handlers[0].Restarting?
    ensures Inv(HandlerStep(s, 0, p), p)
  {
    ResetEmpties(s.rx, p);
    LoopTurnKeeps(s, HandlerStep(s, 0, p), p);
  }

  lemma ExtractTurnKeeps(s: Sys, p: Params)
    requires Inv(s, p) && Receiving(s) && s.handlers[0].Extracting?
    ensures Inv(HandlerStep(s, 0, p), p)
  {
    ExtractionProgress(s.rx, p);
    LoopTurnKeeps(s, HandlerStep(s, 0, p), p);
  }

  /** The receive loop at each of its three points, whatever interrupts came between them. */
  lemma ReceiveTurnKeeps(s: Sys, p: Params)
    requires Inv(s, p) && Receiving(s)
    ensures Inv(HandlerStep(s, 0, p), p)
  {
    if s.handlers[0].InReceive? {
      UnderrunReadKeeps(s, p);
    } else if s.handlers[0].Restarting? {
      RestartTurnKeeps(s, p);
    } else {
      ExtractTurnKeeps(s, p);
    }
  }

  /** The parts of the invariant that do not look inside the ring. */
  ghost predicate Flags(s: Sys) {
    WorkKept(s) && NoneStranded(s) && SendDoneKept(s)
  }

  lemma ActionKeeps(s: Sys)
    requires Flags(s) && |s.handlers| == 1 && s.handlers[0].AtAction?
    ensures Flags(TakeAction(s, 0))
  {
  }

  lemma LocalKeeps(s: Sys)
    requires Flags(s) && |s.handlers| == 1 && !Receiving(s)
    ensures Flags(LocalStep(s, 0))
  {
    if s.handlers[0] == AtAction { ActionKeeps(s); }
  }

  lemma HandlerKeeps(s: Sys, i: nat, p: Params)
    requires Inv(s, p) && i < |s.handlers|
    ensures Inv(HandlerStep(s, i, p), p)
  {
    if Receiving(s) {
      ReceiveTurnKeeps(s, p);
    } else {
      LocalKeeps(s);
    }
  }

  /** The receive side changes, with or without new receive work. */
  lemma ReceiverChanges(s: Sys, w: World, pendRx: bool, p: Params)
    requires Inv(s, p) && RxRuns.Inv(w, p) && (s.pendRx ==> pendRx)
    requires w.rx.enabled && Left(w) > 0 ==> w.rx.dma.irq || pendRx || Receiving(s)
    ensures Inv(Request(s.(rx := w, pendRx := pendRx)), p)
    ensures pendRx == s.pendRx ==> Inv(s.(rx := w), p)
  {
  }

  lemma DeviceKeeps(s: Sys, step: RxRuns.Action, p: Params)
    requires Inv(s, p) && (step.Begin? || step.Extend? || step.End? || step.Resume?)
    ensures Inv(Receive(s, step, p), p)
  {
    DeviceRaises(s.rx, step, p);
    StepKeeps(s.rx, step, p);
    ReceiverChanges(s, RxRuns.Step(s.rx, step, p), s.pendRx, p);
  }

  lemma IsrKeeps(s: Sys, irq: RxRuns.Action, p: Params)
    requires Inv(s, p) && (irq.DmaIrq? || irq.UnderrunIrq?)
    ensures Inv(Request(Receive(s, irq, p).(pendRx := true)), p)
  {
    StepKeeps(s.rx, irq, p);
    ReceiverChanges(s, RxRuns.Step(s.rx, irq, p), true, p);
  }

  lemma EnableKeeps(s: Sys, on: bool, p: Params)
    requires Inv(s, p)
    ensures Inv(Receive(s, if on then Enable else Disable, p), p)
  {
    var a := if on then Enable else Disable;
    StepKeeps(s.rx, a, p);
    ResetEmpties(s.rx, p);
    ReceiverChanges(s, RxRuns.Step(s.rx, a, p), s.pendRx, p);
  }

  lemma OverrunKeeps(s: Sys, p: Params)
    requires Inv(s, p)
    ensures Inv(Request(Receive(s, OverrunIrq, p)), p)
  {
    RecoveryWaiting(s.rx, p);
    ReceiverChanges(s, RxRuns.Step(s.rx, OverrunIrq, p), s.pendRx, p);
  }

  lemma DispatchKeeps(s: Sys)
    requires Flags(s) && s.queued > 0
    ensures Flags(s.(queued := s.queued - 1, handlers := s.handlers + [Entered]))
  {
    assert s.handlers == [] && s.handlers + [Entered] == [Entered];
  }

  /** The tail of the interrupt handler asks for whatever is pending. */
  lemma RequestKeeps(s: Sys)
    requires OneInstance(s) && NoneStranded(s) && SendDoneKept(s)
    ensures Flags(Request(s))
  {
  }

  lemma IsrFlagsKeep(s: Sys, a: Action)
    requires Flags(s) && (a.IsrTxDone? || a.IsrTxWake? || a.IsrIoPin?)
    ensures Flags(FlagStep(s, a))
  {
    match a
    case IsrTxDone => RequestKeeps(s.(txActive := false, pendTx := true));
    case IsrTxWake(starts) => RequestKeeps(s.(txActive := s.txActive || starts, pendTx := true));
    case IsrIoPin => RequestKeeps(s.(pendStatus := true));
  }

  lemma CallerFlagsKeep(s: Sys, a: Action)
    requires Flags(s) && (a.StartTx? || a.Timeout? || a.TimeoutCheck? || a.Abort? || a.RequestSendDone?)
    ensures Flags(FlagStep(s, a))
  {
    match a
    case StartTx =>
    case Timeout =>
    case TimeoutCheck =>
    case Abort =>
    case RequestSendDone =>
  }

  lemma FlagStepKeeps(s: Sys, a: Action)
    requires Flags(s)
    ensures Flags(FlagStep(s, a))
  {
    match a
    case IsrTxDone => IsrFlagsKeep(s, a);
    case IsrTxWake(_) => IsrFlagsKeep(s, a);
    case IsrIoPin => IsrFlagsKeep(s, a);
    case Dispatch => if s.queued > 0 { DispatchKeeps(s); }
    case StartTx => CallerFlagsKeep(s, a);
    case Timeout => CallerFlagsKeep(s, a);
    case TimeoutCheck => CallerFlagsKeep(s, a);
    case Abort => CallerFlagsKeep(s, a);
    case RequestSendDone => CallerFlagsKeep(s, a);
    case _ => assert FlagStep(s, a) == s;
  }

  lemma SystemStepKeeps(s: Sys, a: Action, p: Params)
    requires Inv(s, p)
    ensures Inv(Step(s, a, p), p)
  {
    match a
    case Handler(i) => if i < |s.handlers| { HandlerKeeps(s, i, p); }
    case Device(step) =>
      if step.Begin? || step.Extend? || step.End? || step.Resume? { DeviceKeeps(s, step, p); }
    case IsrRxDma => IsrKeeps(s, DmaIrq, p);
    case IsrRxUnderrun => IsrKeeps(s, UnderrunIrq, p);
    case IsrRxOverrun => OverrunKeeps(s, p);
    case RxEnable(on) => EnableKeeps(s, on, p);
    case _ => FlagStepKeeps(s, a);
  }

  /** Any interleaving. Every state it passes through satisfies the invariant. */
  ghost function Run(s: Sys, actions: seq<Action>, p: Params): (s': Sys)
    requires Inv(s, p)
    ensures Inv(s', p)
    decreases |actions|
  {
    if actions == [] then s
    else
      SystemStepKeeps(s, actions[0], p);
      Run(Step(s, actions[0], p), actions[1..], p)
  }

  predicate Initial(s: Sys) {
    && RxRuns.Initial(s.rx) && !s.rx.rx.enabled && !Pending(s) && !s.running && !s.requested
    && s.queued == 0 && s.handlers == [] && !s.txActive && !s.sendDone && s.timeouts == 0
  }

  lemma SystemInitial(s: Sys, p: Params)
    requires Initial(s) && p.maxFrame <= RCLR_VALUE
    ensures Inv(s, p)
  {
    InitialHolds(s.rx, p);
  }

  /** In every interleaving from the initial state: no work is lost and at most one handler is
      live, no complete frame is stranded, no send-done request is forgotten. */
  lemma SystemSafety(s: Sys, actions: seq<Action>, p: Params)
    requires Initial(s) && p.maxFrame <= RCLR_VALUE
    ensures Inv(s, p)
    ensures var s' := Run(s, actions, p);
            WorkKept(s') && NoneStranded(s') && SendDoneKept(s')
  {
    SystemInitial(s, p);
  }

  // ----- the work item always finishes -----

  function Bit(b: bool): nat {
    if b then 1 else 0
  }

  function Weight(pc: Pc): nat {
    match pc
    case Entered => 2
    case AtAction => 1
    case InReceive => 3
    case _ => 2
  }

  /** An upper bound on the steps the work item still needs without further interrupts. */
  function Remaining(s: Sys): nat {
    2 * Left(s.rx) + 3 * (Bit(s.pendRx) + Bit(s.pendTx) + Bit(s.pendStatus)) +
    (if s.queued > 0 then 3 else if |s.handlers| > 0 then Weight(s.handlers[0]) else 0)
  }

  /** The next step of the one live instance. */
  function NextStep(s: Sys): Action {
    if s.queued > 0 then Dispatch else Handler(0)
  }

  /** An instance further on in its work, with as much pending. */
  lemma MovedDecreases(s: Sys, s': Sys)
    requires s.queued == s'.queued == 0 && |s.handlers| == |s'.handlers| == 1
    requires s.pendRx == s'.pendRx && s.pendTx == s'.pendTx && s.pendStatus == s'.pendStatus
    requires 2 * Left(s'.rx) + Weight(s'.handlers[0]) < 2 * Left(s.rx) + Weight(s.handlers[0])
    ensures Remaining(s') < Remaining(s)
  {
  }

  lemma ExtractTurnDecreases(s: Sys, p: Params)
    requires Inv(s, p) && s.queued == 0 && Receiving(s) && s.handlers[0].Extracting?
    ensures Remaining(HandlerStep(s, 0, p)) < Remaining(s)
  {
    ExtractionProgress(s.rx, p);
    MovedDecreases(s, ExtractTurn(s, 0, p));
  }

  lemma RestartTurnDecreases(s: Sys, p: Params)
    requires Inv(s, p) && s.queued == 0 && Receiving(s) && s.handlers[0].Restarting?
    ensures Remaining(HandlerStep(s, 0, p)) < Remaining(s)
  {
    ResetEmpties(s.rx, p);
    MovedDecreases(s, Goto(s.(rx := Restart(s.rx)), 0, AtAction));
  }

  lemma UnderrunReadDecreases(s: Sys, pc: Pc)
    requires s.queued == 0 && |s.handlers| == 1 && s.handlers[0].InReceive? && (pc.Restarting? || pc.Extracting?)
    ensures Remaining(Goto(s, 0, pc)) < Remaining(s)
  {
  }

  lemma ReceiveTurnDecreases(s: Sys, p: Params)
    requires Inv(s, p) && s.queued == 0 && Receiving(s)
    ensures Remaining(HandlerStep(s, 0, p)) < Remaining(s)
  {
    if s.handlers[0].Extracting? {
      ExtractTurnDecreases(s, p);
    } else if s.handlers[0].Restarting? {
      RestartTurnDecreases(s, p);
    } else {
      UnderrunReadDecreases(s, if s.rx.rx.underrun then Restarting else Extracting);
    }
  }

  lemma EntryDecreases(s: Sys)
    requires s.queued == 0 && |s.handlers| == 1 && s.handlers[0].Entered?
    ensures Remaining(Goto(s.(running := true), 0, AtAction)) < Remaining(s)
  {
  }

  lemma TransmitDecreases(s: Sys)
    requires s.queued == 0 && |s.handlers| == 1 && s.handlers[0].InTransmit?
    ensures Remaining(Goto(CheckSendDone(s), 0, AtAction)) < Remaining(s)
  {
  }

  lemma StatusDecreases(s: Sys)
    requires s.queued == 0 && |s.handlers| == 1 && s.handlers[0].InStatus?
    ensures Remaining(Goto(s, 0, AtAction)) < Remaining(s)
  {
  }

  lemma LocalDecreases(s: Sys)
    requires s.queued == 0 && |s.handlers| == 1 && !Receiving(s)
    ensures Remaining(LocalStep(s, 0)) < Remaining(s)
  {
    if s.handlers[0].AtAction? {
      ActionDecreases(s);
    } else if s.handlers[0].Entered? {
      EntryDecreases(s);
    } else if s.handlers[0].InTransmit? {
      TransmitDecreases(s);
    } else {
      StatusDecreases(s);
    }
  }

  lemma ActionDecreases(s: Sys)
    requires s.queued == 0 && |s.handlers| == 1 && s.handlers[0].AtAction?
    ensures Remaining(TakeAction(s, 0)) < Remaining(s)
  {
  }

  lemma NextDecreases(s: Sys, p: Params)
    requires Inv(s, p) && s.requested
    ensures Remaining(Step(s, NextStep(s), p)) < Remaining(s)
    ensures Step(s, NextStep(s), p).rx.rx.dma.irq ==> s.rx.rx.dma.irq
  {
    if s.queued == 0 {
        if Receiving(s) {
        ReceiveTurnDecreases(s, p);
      } else {
        LocalDecreases(s);
      }
    }
  }

  /** Left to itself the work item runs to its end, and then, unless the device has raised its
      interrupt again, nothing is pending, no complete frame is left in an enabled ring and no
      send-done request is left with an idle transmitter. */
  lemma {:induction false} WorkDrains(s: Sys, p: Params) returns (actions: seq<Action>)
    requires Inv(s, p)
    ensures forall i :: 0 <= i < |actions| ==> actions[i].Dispatch? || actions[i].Handler?
    ensures var s' := Run(s, actions, p);
            && !s'.requested && !s'.running && !Pending(s') && s'.queued == 0 && s'.handlers == []
            && (s'.rx.rx.enabled && !s.rx.rx.dma.irq ==> Left(s'.rx) == 0)
            && (s'.sendDone && s'.timeouts == 0 ==> s'.txActive)
    decreases Remaining(s)
  {
    if !s.requested {
      actions := [];
    } else {
      SystemStepKeeps(s, NextStep(s), p);
      NextDecreases(s, p);
      var rest := WorkDrains(Step(s, NextStep(s), p), p);
      actions := [NextStep(s)] + rest;
      assert actions[1..] == rest;
    }
  }
}
