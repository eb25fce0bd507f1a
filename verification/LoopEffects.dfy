/** What each frame does to the station that takes it, stated on the states before and after. */
module LoopEffects {
  import opened LoopStations
  import opened LoopProtocol

  // ----- the primary's clients -----

  /** The addresses in the client list. */
  function Listed(p: Primary): set<Addr> {
    set i | 0 <= i < |p.clients| :: p.clients[i].addr
  }

  lemma KnownListed(p: Primary, a: Addr)
    ensures Known(p, a) <==> a in Listed(p)
  {
    var i := FindClient(p.clients, a);
    if i < |p.clients| { assert p.clients[i].addr in Listed(p); }
  }

  /** A client's next send number, -1 for an address that is not listed. */
  function NumberOf(clients: seq<Client>, a: Addr): int {
    var i := FindClient(clients, a);
    if i < |clients| then clients[i].ns else -1
  }

  /** A SIM sets the client's number to 0 and touches no other client. */
  lemma AllocatedNumbers(clients: seq<Client>, a: Addr, b: Addr)
    ensures NumberOf(Allocated(clients, a), b) == if b == a then 0 else NumberOf(clients, b)
  {
    var i, k, after := FindClient(clients, a), FindClient(clients, b), Allocated(clients, a);
    var k' := FindClient(after, b);
    if b == a {
      assert after[i] == Client(a, 0);
    } else if k < |clients| {
      assert after[k] == clients[k];
    } else {
      assert forall j :: 0 <= j < |after| ==> after[j].addr != b;
    }
  }

  /** A DISC removes the client and touches no other. */
  lemma DeallocatedNumbers(clients: seq<Client>, a: Addr, b: Addr)
    requires NoAddressTwice(clients)
    ensures NumberOf(Deallocated(clients, a), b) == if b == a then -1 else NumberOf(clients, b)
  {
    var i, k, after := FindClient(clients, a), FindClient(clients, b), Deallocated(clients, a);
    if i < |clients| {
      assert forall j :: 0 <= j < |after| ==> after[j] == clients[if j < i then j else j + 1];
      if b != a && k < |clients| {
        assert after[if k < i then k else k - 1] == clients[k];
      }
    }
  }

  /** An attempt moves the client's number on, modulo 8, and touches no other client. */
  lemma AdvancedNumbers(p: Primary, a: Addr, b: Addr)
    requires Known(p, a)
    ensures var before := NumberOf(p.clients, b);
            NumberOf(TakeNumber(p, a).clients, b) == if b == a then (before + 1) % 8 else before
  {
    var i, k, after := FindClient(p.clients, a), FindClient(p.clients, b), TakeNumber(p, a).clients;
    assert forall j :: 0 <= j < |after| ==> after[j].addr == p.clients[j].addr;
  }

  // ----- frames taken by the primary -----

  /** A request that arrives joins the end of the queue if its client is listed, and is ignored if not. */
  lemma RequestEffect(l: Loop, t: Token)
    requires t in l.requests
    ensures var l' := Step(l, RequestArrives(t));
            && l'.primary.queue == (if t.addr in Listed(l.primary) then l.primary.queue + [t] else l.primary.queue)
            && l'.primary.clients == l.primary.clients && l'.primary.log == l.primary.log
            && l' == l.(requests := l.requests - multiset{t}, primary := l'.primary)
  {
    KnownListed(l.primary, t.addr);
  }

  /** A response that comes back round is taken off the loop and ignored. */
  lemma EchoEffect(l: Loop, t: Token)
    requires t in l.echoes
    ensures Step(l, EchoArrives(t)) == l.(echoes := l.echoes - multiset{t})
  {
  }

  /** A SIM is answered and its sender listed with number 0, unless there is no memory for a new client. */
  lemma SimEffect(l: Loop, a: Addr, memoryOk: bool, sendOk: bool)
    requires Sim(a) in l.up
    ensures var l' := Step(l, SignalArrives(Sim(a), memoryOk, sendOk));
            && l'.stations == l.stations && l'.primary.queue == l.primary.queue
            && if memoryOk || a in Listed(l.primary)
               then && NumberOf(l'.primary.clients, a) == 0 && Known(l'.primary, a)
                    && l'.down == if sendOk then l.down + multiset{SimReply(a)} else l.down
               else l'.primary == l.primary && l'.down == l.down
  {
    KnownListed(l.primary, a);
    AllocatedNumbers(l.primary.clients, a, a);
  }

  /** A DISC takes its sender off the list. */
  lemma DiscEffect(l: Loop, a: Addr, memoryOk: bool, sendOk: bool)
    requires Disc(a) in l.up && PrimaryInv(l.primary)
    ensures var l' := Step(l, SignalArrives(Disc(a), memoryOk, sendOk));
            a !in Listed(l'.primary) && l'.primary.queue == l.primary.queue && l'.stations == l.stations
  {
    DeallocateKeeps(l.primary, a);
    KnownListed(DeallocateClient(l.primary, a), a);
  }

  // ----- the primary's turn -----

  /** The tokens whose stations are listed, in order. */
  function Addressed(listed: set<Addr>, q: seq<Token>): seq<Token> {
    if q == [] then [] else (if q[0].addr in listed then [q[0]] else []) + Addressed(listed, q[1..])
  }

  /** How many sends succeed before the first that fails. */
  function Leading(oks: seq<bool>): nat {
    if oks == [] || !oks[0] then 0 else 1 + Leading(oks[1..])
  }

  lemma TakeNumberListed(p: Primary, a: Addr)
    requires Known(p, a)
    ensures Listed(TakeNumber(p, a)) == Listed(p)
  {
    var p' := TakeNumber(p, a);
    assert forall j :: 0 <= j < |p.clients| ==> p'.clients[j].addr == p.clients[j].addr;
    forall b | b in Listed(p) ensures b in Listed(p') {
      var j :| 0 <= j < |p.clients| && p.clients[j].addr == b;
      assert p'.clients[j].addr == b;
    }
  }

  /** What the response loop has to show for the requests `q`: the answers to those of listed
      stations, in order, as far as sending succeeded; the rest still queued, the one that failed in front. */
  ghost predicate AnsweredInOrder(listed: set<Addr>, q: seq<Token>, oks: seq<bool>, sent: seq<Token>, left: seq<Token>) {
    var all := Addressed(listed, q);
    && |sent| == (if Leading(oks) < |all| then Leading(oks) else |all|)
    && all == sent + Addressed(listed, left)
    && (if Leading(oks) < |all| then left != [] && left[0].addr in listed else left == [])
  }

  lemma {:induction false} SendExact(p: Primary, oks: seq<bool>)
    ensures var r := SendResponses(p, oks);
            AnsweredInOrder(Listed(p), p.queue, oks, r.1, r.0.queue) && Listed(r.0) == Listed(p)
    decreases |p.queue|
  {
    if p.queue != [] {
      var t := p.queue[0];
      KnownListed(p, t.addr);
      if !Known(p, t.addr) {
        SendExact(RemoveHead(p), oks);
        assert Listed(RemoveHead(p)) == Listed(p);
      } else {
        TakeNumberListed(p, t.addr);
        if oks != [] && oks[0] {
          var next := RemoveHead(TakeNumber(p, t.addr));
          assert Listed(next) == Listed(p);
          SendExact(next, oks[1..]);
        }
      }
    }
  }

  lemma {:induction false} AddressedHas(listed: set<Addr>, q: seq<Token>, t: Token)
    requires t in q && t.addr in listed
    ensures t in Addressed(listed, q)
    decreases |q|
  {
    if q[0] != t { AddressedHas(listed, q[1..], t); }
  }

  /** The primary's turn puts the answers on the loop, with an echo each, and then a poll for every station. */
  lemma TurnEffect(l: Loop, oks: seq<bool>, sendOk: bool) returns (sent: seq<Token>)
    ensures var l' := Step(l, PrimaryTurn(oks, sendOk));
            && AnsweredInOrder(Listed(l.primary), l.primary.queue, oks, sent, l'.primary.queue)
            && l'.responses == l.responses + multiset(sent) && l'.echoes == l.echoes + multiset(sent)
            && Listed(l'.primary) == Listed(l.primary) && l'.stations == l.stations && l'.requests == l.requests
            && (sendOk ==> l.down <= l'.down && forall a :: a in l.stations ==> Poll(a) in l'.down)
            && (!sendOk ==> l'.down == l.down)
  {
    sent := SendResponses(l.primary, oks).1;
    SendExact(l.primary, oks);
    forall a | a in l.stations ensures Poll(a) in Polls(l) {
      assert Poll(a) in (set b | b in l.stations :: Poll(b));
    }
  }

  /** When every send succeeds, each queued request of a listed station is answered. */
  lemma AllAnswered(l: Loop, oks: seq<bool>, sendOk: bool, t: Token)
    requires t in l.primary.queue && t.addr in Listed(l.primary) && Leading(oks) >= |l.primary.queue|
    ensures t in Step(l, PrimaryTurn(oks, sendOk)).responses
  {
    var sent := TurnEffect(l, oks, sendOk);
    AddressedHas(Listed(l.primary), l.primary.queue, t);
    AddressedShorter(Listed(l.primary), l.primary.queue);
    assert sent == Addressed(Listed(l.primary), l.primary.queue);
  }

  lemma AddressedShorter(listed: set<Addr>, q: seq<Token>)
    ensures |Addressed(listed, q)| <= |q|
  {
  }

  /** A disconnect order goes out to every station. */
  lemma DisconnectEffect(l: Loop)
    ensures forall a :: a in l.stations ==> Disconnect(a) in Step(l, BroadcastDisconnect).down
  {
    forall a | a in l.stations ensures Disconnect(a) in Disconnects(l) {
      assert Disconnect(a) in (set b | b in l.stations :: Disconnect(b));
    }
  }

  // ----- frames taken by a secondary -----

  /** A poll of an initialised station with queued transactions sends the oldest and only that one,
      marked final exactly if it was alone; the station then waits for its answer and the others are gone. */
  lemma PollAnswer(s: Secondary)
    requires s.queue != []
    ensures var (s', answer) := AnswerPoll(s, true);
            && answer.Request? && answer.txn == s.queue[0] && (answer.final <==> |s.queue| == 1)
            && s'.queue == [] && s'.pending == s.pending + [s.queue[0]] && s'.dropped == s.dropped + s.queue[1..]
            && s'.completed == s.completed && s'.created == s.created && s'.initialized == s.initialized
            && s'.sendCount == (s.sendCount + 1) % 8
  {
  }

  /** With nothing queued it only says that it is ready, and a failed send changes nothing. */
  lemma PollAnswerNone(s: Secondary, sendOk: bool)
    requires s.queue == [] || !sendOk
    ensures AnswerPoll(s, sendOk) == (s, if sendOk then Ready else Silent)
  {
  }

  lemma PollEffect(l: Loop, a: Addr)
    requires Poll(a) in l.down && a in l.stations
    ensures var l', s := Step(l, OrderArrives(Poll(a), true)), l.stations[a];
            if !s.initialized then l' == l.(down := l.down - multiset{Poll(a)}, up := l.up + multiset{Sim(a)})
            else if s.queue == [] then l'.up == l.up + multiset{ReadyReply(a)} && l'.stations == l.stations
            else
              && l'.requests == l.requests + multiset{Token(a, s.queue[0])}
              && l'.stations == l.stations[a := AnswerPoll(s, true).0] && l'.primary == l.primary
              && l'.responses == l.responses
  {
  }

  /** The answer to a SIM initialises a station, a disconnect order ends that with a DISC. */
  lemma SimReplyEffect(l: Loop, a: Addr, sendOk: bool)
    requires SimReply(a) in l.down && a in l.stations
    ensures var l', s := Step(l, OrderArrives(SimReply(a), sendOk)), l.stations[a];
            && a in l'.stations && l'.primary == l.primary
            && l'.stations[a] == if s.initialized then s else s.(initialized := true, sendCount := 0)
  {
  }

  lemma DisconnectOrderEffect(l: Loop, a: Addr)
    requires Disconnect(a) in l.down && a in l.stations && l.stations[a].initialized
    ensures var l' := Step(l, OrderArrives(Disconnect(a), true));
            && a in l'.stations && !l'.stations[a].initialized && Disc(a) in l'.up
            && l'.stations[a] == l.stations[a].(initialized := false)
  {
  }

  /** A new transaction gets the next number and joins the end of the queue, unless the station is
      not initialised or has reached its limit. */
  lemma CreateEffect(l: Loop, a: Addr, stamp: nat)
    requires a in l.stations
    ensures var s, l' := l.stations[a], Step(l, Create(a, stamp));
            var t := Txn(s.last + 1, stamp);
            && a in l'.stations
            && if s.initialized && (s.limit == 0 || s.last < s.limit)
               then && l'.stations[a].queue == s.queue + [t] && l'.stations[a].created == s.created + [t]
                    && l'.stations[a].last == s.last + 1 && l'.stations[a].completed == s.completed
                    && l'.stations[a].initialized
               else l'.stations[a] == s
  {
  }

  /** A response reaching an initialised station completes its transaction; any other is ignored. */
  lemma ResponseEffect(l: Loop, t: Token)
    requires Inv(l) && t in l.responses
    ensures t.addr in l.stations && t.addr in Step(l, ResponseArrives(t)).stations
    ensures var s, s' := l.stations[t.addr], Step(l, ResponseArrives(t)).stations[t.addr];
            if s.initialized then s'.completed == s.completed + [t.txn] && t.txn !in s'.pending else s' == s
  {
    ResponseMatchesOne(l, t);
    if l.stations[t.addr].initialized { CompletedNow(l, t); }
  }

  lemma CompletedNow(l: Loop, t: Token)
    requires Inv(l) && t in l.responses && t.addr in l.stations && l.stations[t.addr].initialized
    requires FirstMatch(l.stations[t.addr].pending, t.txn) < |l.stations[t.addr].pending|
    ensures var s, s' := l.stations[t.addr], Reconcile(l.stations[t.addr], t.txn);
            s'.completed == s.completed + [t.txn] && t.txn !in s'.pending
  {
    var s, s' := l.stations[t.addr], Reconcile(l.stations[t.addr], t.txn);
    ReconcileKeeps(s, t.txn);
    PendingUnique(s');
    assert s'.completed[|s.completed|] == t.txn;
  }
}
