/** The protocol gets somewhere: without losses a station joins the loop and its transactions are completed. */
module LoopReach {
  import opened LoopStations
  import opened LoopProtocol
  import opened LoopEffects

  /** No frame is lost, and no send and no allocation fails. */
  predicate Smooth(a: Action) {
    match a
    case LoseRequest(_) => false
    case LoseResponse(_) => false
    case LoseEcho(_) => false
    case LoseSignal(_) => false
    case LoseOrder(_) => false
    case SignalArrives(_, memoryOk, sendOk) => memoryOk && sendOk
    case OrderArrives(_, sendOk) => sendOk
    case PrimaryTurn(oks, sendOk) => sendOk && forall i :: 0 <= i < |oks| ==> oks[i]
    case _ => true
  }

  ghost predicate SmoothRun(actions: seq<Action>) {
    forall i :: 0 <= i < |actions| ==> Smooth(actions[i])
  }

  lemma {:induction false} RunAppend(l: Loop, a: seq<Action>, b: seq<Action>)
    ensures Run(l, a + b) == Run(Run(l, a), b)
    decreases |a|
  {
    if a == [] {
      assert a + b == b;
    } else {
      assert (a + b)[1..] == a[1..] + b;
      RunAppend(Step(l, a[0]), a[1..], b);
    }
  }

  /** A run and one more step. */
  lemma RunThen(l: Loop, actions: seq<Action>, a: Action)
    ensures Run(l, actions + [a]) == Step(Run(l, actions), a)
  {
    RunAppend(l, actions, [a]);
    assert [a][1..] == [];
  }

  /** A state reached from `l` by a smooth run. */
  ghost predicate Reached(l: Loop, l': Loop, actions: seq<Action>) {
    SmoothRun(actions) && Run(l, actions) == l' && Inv(l')
  }

  lemma {:induction false} Onward(l: Loop, l': Loop, actions: seq<Action>, a: Action)
    requires Reached(l, l', actions) && Smooth(a)
    ensures Reached(l, Step(l', a), actions + [a])
  {
    SmoothNext(actions, a);
    RunThen(l, actions, a);
    StepKeeps(l', a);
  }

  lemma SmoothNext(actions: seq<Action>, a: Action)
    requires SmoothRun(actions) && Smooth(a)
    ensures SmoothRun(actions + [a])
  {
  }

  /** A station that is not initialised is polled, sends its SIM and is answered: it is initialised
      and the primary lists it. */
  lemma Joins(l: Loop, a: Addr) returns (actions: seq<Action>, l': Loop)
    requires Inv(l) && a in l.stations && !l.stations[a].initialized
    ensures Reached(l, l', actions) && a in l'.stations && a in Listed(l'.primary)
    ensures l'.stations[a] == l.stations[a].(initialized := true, sendCount := 0)
  {
    actions, l' := [], l;
    var sent := TurnEffect(l', [], true);
    Onward(l, l', actions, PrimaryTurn([], true));
    actions, l' := actions + [PrimaryTurn([], true)], Step(l', PrimaryTurn([], true));

    PollEffect(l', a);
    Onward(l, l', actions, OrderArrives(Poll(a), true));
    actions, l' := actions + [OrderArrives(Poll(a), true)], Step(l', OrderArrives(Poll(a), true));

    SimEffect(l', a, true, true);
    Onward(l, l', actions, SignalArrives(Sim(a), true, true));
    actions, l' := actions + [SignalArrives(Sim(a), true, true)], Step(l', SignalArrives(Sim(a), true, true));
    KnownListed(l'.primary, a);

    SimReplyEffect(l', a, true);
    Onward(l, l', actions, OrderArrives(SimReply(a), true));
    actions, l' := actions + [OrderArrives(SimReply(a), true)], Step(l', OrderArrives(SimReply(a), true));
  }

  function AllTrue(n: nat): (oks: seq<bool>)
    ensures |oks| == n && forall i :: 0 <= i < n ==> oks[i]
  {
    seq(n, _ => true)
  }

  lemma {:induction false} LeadingAll(oks: seq<bool>)
    requires forall i :: 0 <= i < |oks| ==> oks[i]
    ensures Leading(oks) == |oks|
    decreases |oks|
  {
    if oks != [] { LeadingAll(oks[1..]); }
  }

  /** A station that is initialised and listed gets its oldest queued transaction under way: it is
      polled, and its request is queued at the primary. */
  lemma Requests(l: Loop, a: Addr) returns (actions: seq<Action>, l': Loop)
    requires Inv(l) && a in l.stations && l.stations[a].initialized && a in Listed(l.primary)
    requires l.stations[a].queue != []
    ensures Reached(l, l', actions) && a in l'.stations && a in Listed(l'.primary)
    ensures l'.stations[a] == AnswerPoll(l.stations[a], true).0
    ensures Token(a, l.stations[a].queue[0]) in l'.primary.queue
  {
    var t := Token(a, l.stations[a].queue[0]);
    actions, l' := [], l;
    var sent := TurnEffect(l', [], true);
    Onward(l, l', actions, PrimaryTurn([], true));
    actions, l' := actions + [PrimaryTurn([], true)], Step(l', PrimaryTurn([], true));

    PollEffect(l', a);
    Onward(l, l', actions, OrderArrives(Poll(a), true));
    actions, l' := actions + [OrderArrives(Poll(a), true)], Step(l', OrderArrives(Poll(a), true));

    RequestEffect(l', t);
    var q := l'.primary.queue + [t];
    assert q[|q| - 1] == t;
    Onward(l, l', actions, RequestArrives(t));
    actions, l' := actions + [RequestArrives(t)], Step(l', RequestArrives(t));
  }

  /** A request queued at the primary is answered and completed at its station. */
  lemma Answers(l: Loop, t: Token) returns (actions: seq<Action>, l': Loop)
    requires Inv(l) && t in l.primary.queue && t.addr in Listed(l.primary)
    requires t.addr in l.stations && l.stations[t.addr].initialized
    ensures Reached(l, l', actions) && t.addr in l'.stations
    ensures l'.stations[t.addr].completed == l.stations[t.addr].completed + [t.txn]
  {
    actions, l' := [], l;
    var oks := AllTrue(|l.primary.queue|);
    LeadingAll(oks);
    AllAnswered(l', oks, true, t);
    var sent := TurnEffect(l', oks, true);
    Onward(l, l', actions, PrimaryTurn(oks, true));
    actions, l' := actions + [PrimaryTurn(oks, true)], Step(l', PrimaryTurn(oks, true));

    ResponseEffect(l', t);
    Onward(l, l', actions, ResponseArrives(t));
    actions, l' := actions + [ResponseArrives(t)], Step(l', ResponseArrives(t));
  }

  lemma ReachedThen(l: Loop, m: Loop, n: Loop, a: seq<Action>, b: seq<Action>)
    requires Reached(l, m, a) && Reached(m, n, b)
    ensures Reached(l, n, a + b)
  {
    RunAppend(l, a, b);
  }

  /** From any state that satisfies the invariant, the oldest queued transaction of an initialised and
      listed station can be completed without a loss. */
  lemma QueuedCompletes(l: Loop, a: Addr) returns (actions: seq<Action>, l': Loop)
    requires Inv(l) && a in l.stations && l.stations[a].initialized && a in Listed(l.primary)
    requires l.stations[a].queue != []
    ensures Reached(l, l', actions) && a in l'.stations
    ensures l'.stations[a].completed == l.stations[a].completed + [l.stations[a].queue[0]]
  {
    PollAnswer(l.stations[a]);
    var first, m := Requests(l, a);
    var second, n := Answers(m, Token(a, l.stations[a].queue[0]));
    actions, l' := first + second, n;
    ReachedThen(l, m, n, first, second);
  }

  lemma InitialInv(l: Loop)
    requires Initial(l)
    ensures Inv(l)
  {
  }

  /** From the initial loop every station can join, create a transaction and have it completed. */
  lemma LoopCompletes(l: Loop, a: Addr, stamp: nat) returns (actions: seq<Action>)
    requires Initial(l) && a in l.stations
    ensures SmoothRun(actions)
    ensures var l' := Run(l, actions); a in l'.stations && l'.stations[a].completed == [Txn(1, stamp)]
  {
    InitialInv(l);
    var first, m := Joins(l, a);
    CreateEffect(m, a, stamp);
    Onward(l, m, first, Create(a, stamp));
    var second, n := QueuedCompletes(Step(m, Create(a, stamp)), a);
    actions := first + [Create(a, stamp)] + second;
    ReachedThen(l, Step(m, Create(a, stamp)), n, first + [Create(a, stamp)], second);
  }
}
