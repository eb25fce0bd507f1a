/** One primary and any number of secondaries on a loop that may lose frames at any point but
    neither duplicates nor alters them.
 */
module LoopProtocol {
  import opened LoopStations

  /** Two-byte frames of secondaries. */
  datatype Signal = Sim(addr: Addr) | Disc(addr: Addr) | ReadyReply(addr: Addr)

  /** Frames of the primary other than responses, one copy for each station they reach. */
  datatype Order = Poll(to: Addr) | Disconnect(to: Addr) | SimReply(to: Addr)

  /** All stations and everything in flight. `echoes` are responses on their way back to the primary. */
  datatype Loop = Loop(stations: map<Addr, Secondary>, primary: Primary,
                       requests: multiset<Token>, responses: multiset<Token>, echoes: multiset<Token>,
                       up: multiset<Signal>, down: multiset<Order>)

  datatype Action =
    | LoseRequest(lost: Token) | LoseResponse(lost: Token) | LoseEcho(lost: Token)
    | LoseSignal(signal: Signal) | LoseOrder(order: Order)
    | RequestArrives(t: Token)
    | EchoArrives(t: Token)
    | SignalArrives(signal: Signal, memoryOk: bool, sendOk: bool)
    | ResponseArrives(t: Token)
    | OrderArrives(order: Order, sendOk: bool)
    | Create(addr: Addr, stamp: nat)
    | PrimaryTurn(oks: seq<bool>, sendOk: bool)
    | BroadcastDisconnect

  function Polls(l: Loop): multiset<Order> {
    multiset(set a | a in l.stations :: Poll(a))
  }

  function Disconnects(l: Loop): multiset<Order> {
    multiset(set a | a in l.stations :: Disconnect(a))
  }

  /** A secondary takes a frame of the primary that is not a response. */
  function ObeyOrder(l: Loop, order: Order, sendOk: bool): Loop
    requires order.to in l.stations
  {
    var a := order.to;
    var s := l.stations[a];
    match order
    case Disconnect(_) =>
      if s.initialized && sendOk
      then l.(stations := l.stations[a := s.(initialized := false)], up := l.up + multiset{Disc(a)}) else l
    case SimReply(_) =>
      if s.initialized then l else l.(stations := l.stations[a := s.(initialized := true, sendCount := 0)])
    case Poll(_) =>
      if !s.initialized then (if sendOk then l.(up := l.up + multiset{Sim(a)}) else l)
      else
        var (s', answer) := AnswerPoll(s, sendOk);
        var l' := l.(stations := l.stations[a := s']);
        match answer
        case Ready => l'.(up := l.up + multiset{ReadyReply(a)})
        case Request(t, _) => l'.(requests := l.requests + multiset{Token(a, t)})
        case Silent => l'
  }

  /** A secondary takes a response; before initialisation it ignores it. */
  function TakeResponse(l: Loop, t: Token): Loop
    requires t.addr in l.stations
  {
    var s := l.stations[t.addr];
    if s.initialized then l.(stations := l.stations[t.addr := Reconcile(s, t.txn)]) else l
  }

  function TakeSignal(l: Loop, signal: Signal, memoryOk: bool, sendOk: bool): Loop {
    match signal
    case Sim(a) =>
      if !memoryOk && !Known(l.primary, a) then l
      else
        var l' := l.(primary := AllocateClient(l.primary, a));
        if sendOk then l'.(down := l.down + multiset{SimReply(a)}) else l'
    case Disc(a) => l.(primary := DeallocateClient(l.primary, a))
    case ReadyReply(_) => l
  }

  /** The primary's transmit turn: responses if any are queued, then a general poll. */
  function TransmitTurn(l: Loop, oks: seq<bool>, sendOk: bool): Loop {
    var (p, sent) := SendResponses(l.primary, oks);
    l.(primary := p, responses := l.responses + multiset(sent), echoes := l.echoes + multiset(sent),
       down := if sendOk then l.down + Polls(l) else l.down)
  }

  function Step(l: Loop, a: Action): Loop {
    match a
    case LoseRequest(t) => l.(requests := l.requests - multiset{t})
    case LoseResponse(t) => l.(responses := l.responses - multiset{t})
    case LoseEcho(t) => l.(echoes := l.echoes - multiset{t})
    case LoseSignal(s) => l.(up := l.up - multiset{s})
    case LoseOrder(o) => l.(down := l.down - multiset{o})
    case RequestArrives(t) =>
      if t in l.requests
      then l.(requests := l.requests - multiset{t}, primary := ReceiveInfo(l.primary, t, true)) else l
    case EchoArrives(t) =>
      if t in l.echoes
      then l.(echoes := l.echoes - multiset{t}, primary := ReceiveInfo(l.primary, t, false)) else l
    case SignalArrives(s, memoryOk, sendOk) =>
      if s in l.up then TakeSignal(l.(up := l.up - multiset{s}), s, memoryOk, sendOk) else l
    case ResponseArrives(t) =>
      if t in l.responses && t.addr in l.stations
      then TakeResponse(l.(responses := l.responses - multiset{t}), t) else l
    case OrderArrives(o, sendOk) =>
      if o in l.down && o.to in l.stations then ObeyOrder(l.(down := l.down - multiset{o}), o, sendOk) else l
    case Create(addr, stamp) =>
      if addr in l.stations
      then l.(stations := l.stations[addr := NewTransaction(l.stations[addr], stamp)]) else l
    case PrimaryTurn(oks, sendOk) => TransmitTurn(l, oks, sendOk)
    case BroadcastDisconnect => l.(down := l.down + Disconnects(l))
  }

  function Run(l: Loop, actions: seq<Action>): Loop
    decreases |actions|
  {
    if actions == [] then l else Run(Step(l, actions[0]), actions[1..])
  }

  // ----- invariant -----

  /** Every transaction under way: requested, queued at the primary, or answered. */
  function Flight(l: Loop): multiset<Token> {
    l.requests + multiset(l.primary.queue) + l.responses
  }

  ghost predicate StationsOk(stations: map<Addr, Secondary>) {
    forall a :: a in stations ==> a != BROADCAST && SecondaryInv(stations[a])
  }

  /** What is under way is there once only and is pending at its station. */
  ghost predicate UnderWay(f: multiset<Token>, stations: map<Addr, Secondary>) {
    forall t :: t in f ==> f[t] == 1 && t.addr in stations && t.txn in stations[t.addr].pending
  }

  ghost predicate Inv(l: Loop) {
    StationsOk(l.stations) && UnderWay(Flight(l), l.stations) && PrimaryInv(l.primary)
  }

  lemma OneFewer(a: multiset<Token>, b: multiset<Token>, c: multiset<Token>, t: Token)
    requires t in c
    ensures a + b + (c - multiset{t}) == a + b + c - multiset{t}
  {
  }

  lemma NoMore(a: multiset<Token>, b: multiset<Token>, c: multiset<Token>, a': multiset<Token>, c': multiset<Token>)
    requires a' <= a && c' <= c
    ensures a' + b + c' <= a + b + c
  {
  }

  /** Losing, or moving along, what is under way keeps the invariant. */
  lemma FlightShrinks(l: Loop, l': Loop)
    requires Inv(l) && l'.stations == l.stations && PrimaryInv(l'.primary) && Flight(l') <= Flight(l)
    ensures Inv(l')
  {
  }

  /** A station changes without touching its pending list. */
  lemma StationChanges(l: Loop, a: Addr, s: Secondary, l': Loop)
    requires Inv(l) && a in l.stations && SecondaryInv(s) && s.pending == l.stations[a].pending
    requires l'.stations == l.stations[a := s] && l'.primary == l.primary && Flight(l') == Flight(l)
    ensures Inv(l')
  {
  }

  /** A transaction joins the pending list and sets out at the same moment. */
  lemma PendingGrows(f: multiset<Token>, stations: map<Addr, Secondary>, a: Addr, s: Secondary, t: Txn)
    requires UnderWay(f, stations) && a in stations
    requires t !in stations[a].pending && s.pending == stations[a].pending + [t]
    ensures UnderWay(f + multiset{Token(a, t)}, stations[a := s])
  {
    assert s.pending[|s.pending| - 1] == t;
    assert Token(a, t) !in f;
  }

  /** A transaction arrives back and leaves the pending list at the same moment. */
  lemma PendingShrinks(f: multiset<Token>, stations: map<Addr, Secondary>, t: Token, s: Secondary, i: nat)
    requires UnderWay(f, stations) && t in f
    requires i < |stations[t.addr].pending| && stations[t.addr].pending[i] == t.txn
    requires s.pending == stations[t.addr].pending[..i] + stations[t.addr].pending[i + 1..]
    ensures UnderWay(f - multiset{t}, stations[t.addr := s])
  {
    var before, f' := stations[t.addr].pending, f - multiset{t};
    forall u | u in f' ensures u.txn in stations[t.addr := s][u.addr].pending {
      if u.addr == t.addr {
        var j :| 0 <= j < |before| && before[j] == u.txn;
        assert s.pending[if j < i then j else j - 1] == u.txn;
      }
    }
  }

  lemma RequestSets(l: Loop, a: Addr, s: Secondary, t: Txn)
    requires Inv(l) && a in l.stations && SecondaryInv(s)
    requires t !in l.stations[a].pending && s.pending == l.stations[a].pending + [t]
    ensures Inv(l.(stations := l.stations[a := s], requests := l.requests + multiset{Token(a, t)}))
  {
    PendingGrows(Flight(l), l.stations, a, s, t);
    var one := multiset{Token(a, t)};
    assert (l.requests + one) + multiset(l.primary.queue) + l.responses == Flight(l) + one;
  }

  /** A request that goes out was not under way before: it was still queued. */
  lemma RequestGoesOut(l: Loop, a: Addr)
    requires Inv(l) && a in l.stations && l.stations[a].queue != []
    ensures Inv(l.(stations := l.stations[a := AnswerPoll(l.stations[a], true).0],
                   requests := l.requests + multiset{Token(a, l.stations[a].queue[0])}))
  {
    var s := l.stations[a];
    var t := s.queue[0];
    AnswerPollKeeps(s, true);
    CreatedOnce(s.created, t);
    assert t in multiset(s.queue);
    assert multiset(s.pending)[t] == 0;
    assert t !in multiset(s.pending);
    RequestSets(l, a, AnswerPoll(s, true).0, t);
  }

  /** A response of something under way always finds its transaction, exactly one. */
  lemma ResponseMatchesOne(l: Loop, t: Token)
    requires Inv(l) && t in l.responses
    ensures t.addr in l.stations
    ensures var pending := l.stations[t.addr].pending;
            && FirstMatch(pending, t.txn) < |pending|
            && forall i :: 0 <= i < |pending| && pending[i].num == t.txn.num ==> i == FirstMatch(pending, t.txn)
  {
    assert t in Flight(l);
    PendingUnique(l.stations[t.addr]);
  }

  lemma ResponseTaken(l: Loop, t: Token, s: Secondary, i: nat)
    requires Inv(l) && t in l.responses && t.addr in l.stations && SecondaryInv(s)
    requires i < |l.stations[t.addr].pending| && l.stations[t.addr].pending[i] == t.txn
    requires s.pending == l.stations[t.addr].pending[..i] + l.stations[t.addr].pending[i + 1..]
    ensures Inv(l.(stations := l.stations[t.addr := s], responses := l.responses - multiset{t}))
  {
    assert t in Flight(l);
    PendingShrinks(Flight(l), l.stations, t, s, i);
    OneFewer(l.requests, multiset(l.primary.queue), l.responses, t);
  }

  lemma ResponseCompletes(l: Loop, t: Token)
    requires Inv(l) && t in l.responses && t.addr in l.stations
    ensures Inv(TakeResponse(l.(responses := l.responses - multiset{t}), t))
  {
    if l.stations[t.addr].initialized {
      ResponseReconciled(l, t);
    } else {
      LossKeeps(l, l.(responses := l.responses - multiset{t}));
    }
  }

  lemma ResponseReconciled(l: Loop, t: Token)
    requires Inv(l) && t in l.responses && t.addr in l.stations
    ensures Inv(l.(stations := l.stations[t.addr := Reconcile(l.stations[t.addr], t.txn)],
                   responses := l.responses - multiset{t}))
  {
    var s := l.stations[t.addr];
    ResponseMatchesOne(l, t);
    ReconcileKeeps(s, t.txn);
    ResponseTaken(l, t, Reconcile(s, t.txn), FirstMatch(s.pending, t.txn));
  }

  lemma OrderKeeps(l: Loop, order: Order, sendOk: bool)
    requires Inv(l) && order.to in l.stations
    ensures Inv(ObeyOrder(l, order, sendOk))
  {
    var a := order.to;
    var s, l' := l.stations[a], ObeyOrder(l, order, sendOk);
    match order
    case Disconnect(_) => if l' != l { StationChanges(l, a, s.(initialized := false), l'); }
    case SimReply(_) => if l' != l { StationChanges(l, a, s.(initialized := true, sendCount := 0), l'); }
    case Poll(_) =>
      if s.initialized && s.queue != [] && sendOk {
        RequestGoesOut(l, a);
      } else {
        StationChanges(l, a, s, l');
      }
  }

  lemma TurnKeeps(l: Loop, oks: seq<bool>, sendOk: bool)
    requires Inv(l)
    ensures Inv(TransmitTurn(l, oks, sendOk))
  {
    SendResponsesKeeps(l.primary, oks);
    FlightShrinks(l, TransmitTurn(l, oks, sendOk));
  }

  lemma SignalKeeps(l: Loop, s: Signal, memoryOk: bool, sendOk: bool)
    requires Inv(l)
    ensures Inv(TakeSignal(l, s, memoryOk, sendOk))
  {
    if s.Sim? {
      AllocateKeeps(l.primary, s.addr);
      PrimaryChanges(l, AllocateClient(l.primary, s.addr), TakeSignal(l, s, memoryOk, sendOk));
    } else if s.Disc? {
      DeallocateKeeps(l.primary, s.addr);
      PrimaryChanges(l, DeallocateClient(l.primary, s.addr), TakeSignal(l, s, memoryOk, sendOk));
    }
  }

  /** A change of the primary's clients does not touch what is under way. */
  lemma PrimaryChanges(l: Loop, p: Primary, l': Loop)
    requires Inv(l) && PrimaryInv(p) && p.queue == l.primary.queue && (l'.primary == p || l'.primary == l.primary)
    requires l'.stations == l.stations && l'.requests == l.requests && l'.responses == l.responses
    ensures Inv(l')
  {
    assert Flight(l') == Flight(l);
  }

  lemma RequestKeeps(l: Loop, t: Token)
    requires Inv(l)
    ensures Inv(Step(l, RequestArrives(t)))
  {
    FlightShrinks(l, Step(l, RequestArrives(t)));
  }

  lemma LossKeeps(l: Loop, l': Loop)
    requires Inv(l) && l'.stations == l.stations && l'.primary == l.primary
    requires l'.requests <= l.requests && l'.responses <= l.responses
    ensures Inv(l')
  {
    NoMore(l.requests, multiset(l.primary.queue), l.responses, l'.requests, l'.responses);
    FlightShrinks(l, l');
  }

  lemma LoseRequestKeeps(l: Loop, t: Token)
    requires Inv(l)
    ensures Inv(Step(l, LoseRequest(t)))
  {
    LossKeeps(l, l.(requests := l.requests - multiset{t}));
  }

  lemma LoseResponseKeeps(l: Loop, t: Token)
    requires Inv(l)
    ensures Inv(Step(l, LoseResponse(t)))
  {
    LossKeeps(l, l.(responses := l.responses - multiset{t}));
  }

  /** Echoes, signals and orders are not transactions under way. */
  lemma OtherTrafficKeeps(l: Loop, l': Loop)
    requires Inv(l) && l' == l.(echoes := l'.echoes, up := l'.up, down := l'.down)
    ensures Inv(l')
  {
  }

  lemma OtherStepKeeps(l: Loop, a: Action)
    requires Inv(l)
    requires a.LoseEcho? || a.LoseSignal? || a.LoseOrder? || a.EchoArrives? || a.BroadcastDisconnect?
    ensures Inv(Step(l, a))
  {
    OtherTrafficKeeps(l, Step(l, a));
  }

  lemma SignalStepKeeps(l: Loop, s: Signal, memoryOk: bool, sendOk: bool)
    requires Inv(l)
    ensures Inv(Step(l, SignalArrives(s, memoryOk, sendOk)))
  {
    if s in l.up {
      var taken := l.(up := l.up - multiset{s});
      OtherTrafficKeeps(l, taken);
      SignalKeeps(taken, s, memoryOk, sendOk);
    }
  }

  lemma OrderStepKeeps(l: Loop, o: Order, sendOk: bool)
    requires Inv(l)
    ensures Inv(Step(l, OrderArrives(o, sendOk)))
  {
    if o in l.down && o.to in l.stations {
      var taken := l.(down := l.down - multiset{o});
      OtherTrafficKeeps(l, taken);
      OrderKeeps(taken, o, sendOk);
    }
  }

  lemma CreateStepKeeps(l: Loop, addr: Addr, stamp: nat)
    requires Inv(l)
    ensures Inv(Step(l, Create(addr, stamp)))
  {
    if addr in l.stations {
      NewTransactionKeeps(l.stations[addr], stamp);
      StationChanges(l, addr, NewTransaction(l.stations[addr], stamp), Step(l, Create(addr, stamp)));
    }
  }

  lemma ResponseStepKeeps(l: Loop, t: Token)
    requires Inv(l)
    ensures Inv(Step(l, ResponseArrives(t)))
  {
    if t in l.responses && t.addr in l.stations { ResponseCompletes(l, t); }
  }

  lemma TurnStepKeeps(l: Loop, oks: seq<bool>, sendOk: bool)
    requires Inv(l)
    ensures Inv(Step(l, PrimaryTurn(oks, sendOk)))
  {
    TurnKeeps(l, oks, sendOk);
  }

  lemma StepKeeps(l: Loop, a: Action)
    requires Inv(l)
    ensures Inv(Step(l, a))
  {
    if a.SignalArrives? {
      SignalStepKeeps(l, a.signal, a.memoryOk, a.sendOk);
    } else if a.ResponseArrives? {
      ResponseStepKeeps(l, a.t);
    } else if a.OrderArrives? {
      OrderStepKeeps(l, a.order, a.sendOk);
    } else if a.Create? {
      CreateStepKeeps(l, a.addr, a.stamp);
    } else if a.PrimaryTurn? {
      TurnStepKeeps(l, a.oks, a.sendOk);
    } else if a.RequestArrives? {
      RequestKeeps(l, a.t);
    } else if a.LoseRequest? {
      LoseRequestKeeps(l, a.lost);
    } else if a.LoseResponse? {
      LoseResponseKeeps(l, a.lost);
    } else {
      OtherStepKeeps(l, a);
    }
  }

  lemma {:induction false} RunKeeps(l: Loop, actions: seq<Action>)
    requires Inv(l)
    ensures Inv(Run(l, actions))
    decreases |actions|
  {
    if actions != [] {
      StepKeeps(l, actions[0]);
      RunKeeps(Step(l, actions[0]), actions[1..]);
    }
  }

  ghost predicate Fresh(s: Secondary) {
    && !s.initialized && s.queue == [] && s.pending == [] && s.last == 0 && s.numQueued == 0 && s.numPending == 0
    && s.created == [] && s.completed == [] && s.dropped == []
  }

  ghost predicate Initial(l: Loop) {
    && (forall a :: a in l.stations ==> a != BROADCAST && Fresh(l.stations[a]))
    && l.primary == Primary([], [], 0, [])
    && l.requests == multiset{} && l.responses == multiset{} && l.echoes == multiset{}
    && l.up == multiset{} && l.down == multiset{}
  }

  lemma CompletedOnce(l: Loop)
    requires Inv(l)
    ensures forall a :: a in l.stations ==>
              forall i, j :: 0 <= i < j < |l.stations[a].completed| ==>
                l.stations[a].completed[i].num != l.stations[a].completed[j].num
  {
    forall a | a in l.stations ensures
      forall i, j :: 0 <= i < j < |l.stations[a].completed| ==>
        l.stations[a].completed[i].num != l.stations[a].completed[j].num
    {
      PendingUnique(l.stations[a]);
    }
  }

  /** In every run of any number of stations: a response that reaches an initialised secondary
      completes the one pending transaction it belongs to, and no transaction is ever
      completed twice. */
  lemma LoopSafety(l: Loop, actions: seq<Action>, t: Token)
    requires Initial(l)
    ensures var l' := Run(l, actions);
            && (t in l'.responses ==>
                  t.addr in l'.stations &&
                  (l'.stations[t.addr].initialized ==>
                     var s, s' := l'.stations[t.addr], Step(l', ResponseArrives(t)).stations[t.addr];
                     s'.completed == s.completed + [t.txn] && |s'.pending| == |s.pending| - 1))
            && (forall a :: a in l'.stations ==>
                  forall i, j :: 0 <= i < j < |l'.stations[a].completed| ==>
                    l'.stations[a].completed[i].num != l'.stations[a].completed[j].num)
  {
    var l' := Run(l, actions);
    RunKeeps(l, actions);
    if t in l'.responses { ResponseMatchesOne(l', t); }
    CompletedOnce(l');
  }

  /** In every run the numbers 1 to `last` of every station split exactly into queued, pending,
      completed and dropped transactions, and the counters say how many are pending and how
      many are queued or dropped. */
  lemma NumbersSplitInRuns(l: Loop, actions: seq<Action>, a: Addr, n: nat)
    requires Initial(l) && a in Run(l, actions).stations && 1 <= n <= Run(l, actions).stations[a].last
    ensures var s := Run(l, actions).stations[a];
            && |s.created| == s.last && s.created[n - 1].num == n && Places(s, s.created[n - 1]) == 1
            && s.numPending == |s.pending| && s.numQueued == |s.queue| + |s.dropped|
  {
    RunKeeps(l, actions);
    NumbersSplit(Run(l, actions).stations[a], n);
  }

  // ----- clients -----

  /** In every run the client list holds no address twice, and the send number of every response
      attempt is the number of earlier attempts to that client since its last SIM, modulo 8. */
  lemma SendNumbersInRuns(l: Loop, actions: seq<Action>)
    requires Initial(l)
    ensures var p := Run(l, actions).primary; NoAddressTwice(p.clients) && NumbersUsed(p.log)
  {
    RunKeeps(l, actions);
  }

  lemma UnknownStep(l: Loop, a: Action, addr: Addr)
    requires !Known(l.primary, addr) && !(a.SignalArrives? && a.signal == Sim(addr))
    ensures !Known(Step(l, a).primary, addr)
  {
    if a.PrimaryTurn? {
      SendResponsesKnown(l.primary, a.oks, addr);
    } else if a.SignalArrives? {
      UnknownSignal(l.(up := l.up - multiset{a.signal}), a.signal, a.memoryOk, a.sendOk, addr);
    } else {
      ClientsSame(l, a);
    }
  }

  lemma ClientsSame(l: Loop, a: Action)
    requires !a.PrimaryTurn? && !a.SignalArrives?
    ensures Step(l, a).primary.clients == l.primary.clients
  {
  }

  lemma UnknownSignal(l: Loop, s: Signal, memoryOk: bool, sendOk: bool, addr: Addr)
    requires !Known(l.primary, addr) && s != Sim(addr)
    ensures !Known(TakeSignal(l, s, memoryOk, sendOk).primary, addr)
  {
    if s.Disc? { DeallocateOthers(l.primary, s.addr, addr); }
    else if s.Sim? { AllocateOthers(l.primary, s.addr, addr); }
  }

  lemma AllocateOthers(p: Primary, a: Addr, b: Addr)
    requires a != b && !Known(p, b)
    ensures !Known(AllocateClient(p, a), b)
  {
    var p' := AllocateClient(p, a);
    assert forall j :: 0 <= j < |p'.clients| ==> p'.clients[j] == Client(a, 0) || (j < |p.clients| && p'.clients[j] == p.clients[j]);
  }

  /** An address the primary does not know stays unknown until a SIM from it arrives. */
  lemma {:induction false} UnknownUntilSim(l: Loop, actions: seq<Action>, addr: Addr)
    requires !Known(l.primary, addr)
    requires forall i :: 0 <= i < |actions| ==> !(actions[i].SignalArrives? && actions[i].signal == Sim(addr))
    ensures !Known(Run(l, actions).primary, addr)
    decreases |actions|
  {
    if actions != [] {
      UnknownStep(l, actions[0], addr);
      UnknownUntilSim(Step(l, actions[0]), actions[1..], addr);
    }
  }
}
