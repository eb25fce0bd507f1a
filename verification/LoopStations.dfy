/** The secondary and the primary station of the loop-mode programs, as values. */
module LoopStations {

  type Addr = a: int | 0 <= a < 256

  const BROADCAST: Addr := 0xff

  /** A transaction as far as the protocol looks at it: the number and creation time that
      responses are matched by. */
  datatype Txn = Txn(num: nat, stamp: nat)

  /** A transaction on its way, as request or response, with the address of its station. */
  datatype Token = Token(addr: Addr, txn: Txn)

  // ----- secondary -----

  /** A secondary's lists and counters, with the transactions it has created, completed and dropped. */
  datatype Secondary = Secondary(initialized: bool, queue: seq<Txn>, pending: seq<Txn>, last: nat,
                                 numQueued: int, numPending: int, sendCount: nat, limit: nat,
                                 created: seq<Txn>, completed: seq<Txn>, dropped: seq<Txn>)

  /** A new transaction joins the queue, unless the configured limit (0 for none) is reached. */
  function NewTransaction(s: Secondary, stamp: nat): Secondary {
    if !s.initialized || (s.limit != 0 && s.last >= s.limit) then s
    else
      var t := Txn(s.last + 1, stamp);
      s.(last := s.last + 1, queue := s.queue + [t], numQueued := s.numQueued + 1, created := s.created + [t])
  }

  /** What a secondary puts on the loop in answer to a poll. */
  datatype Answer = Ready | Request(txn: Txn, final: bool) | Silent

  /** The answer to a poll. Removing the head of the queue empties it, so one request goes out,
      and it carries the final bit only if it was alone. */
  function AnswerPoll(s: Secondary, sendOk: bool): (r: (Secondary, Answer)) {
    if s.queue == [] then (s, if sendOk then Ready else Silent)
    else if !sendOk then (s, Silent)
    else
      (s.(queue := [], numQueued := s.numQueued - 1,
          pending := s.pending + [s.queue[0]], numPending := s.numPending + 1,
          sendCount := (s.sendCount + 1) % 8, dropped := s.dropped + s.queue[1..]),
       Request(s.queue[0], |s.queue| == 1))
  }

  /** The first pending transaction with the response's number and creation time. */
  function FirstMatch(pending: seq<Txn>, t: Txn): (i: nat)
    ensures i <= |pending|
    ensures i < |pending| ==> pending[i] == t
    ensures forall j :: 0 <= j < i ==> pending[j] != t
  {
    if pending == [] || pending[0] == t then 0 else 1 + FirstMatch(pending[1..], t)
  }

  /** The pending transaction at `i` leaves its list. */
  function Unlisted(s: Secondary, i: nat): Secondary
    requires i < |s.pending|
  {
    s.(pending := s.pending[..i] + s.pending[i + 1..], numPending := s.numPending - 1)
  }

  /** The pending transaction at `i`, if there is one, is completed. */
  function Complete(s: Secondary, i: nat): Secondary {
    if i >= |s.pending| then s else Unlisted(s, i).(completed := s.completed + [s.pending[i]])
  }

  function Reconcile(s: Secondary, t: Txn): Secondary {
    Complete(s, FirstMatch(s.pending, t))
  }

  /** The transactions created so far are exactly those queued, pending, completed and dropped,
      each in one place only; the counters count what they say, except that the queue counter
      keeps counting dropped ones. */
  ghost predicate SecondaryInv(s: Secondary) {
    && |s.created| == s.last
    && (forall i :: 0 <= i < |s.created| ==> s.created[i].num == i + 1)
    && multiset(s.created) == multiset(s.queue) + multiset(s.pending) + multiset(s.completed) + multiset(s.dropped)
    && s.numPending == |s.pending|
    && s.numQueued == |s.queue| + |s.dropped|
  }

  lemma NewTransactionKeeps(s: Secondary, stamp: nat)
    requires SecondaryInv(s)
    ensures SecondaryInv(NewTransaction(s, stamp))
  {
  }

  lemma AnswerPollKeeps(s: Secondary, sendOk: bool)
    requires SecondaryInv(s)
    ensures SecondaryInv(AnswerPoll(s, sendOk).0)
  {
    if s.queue != [] {
      assert s.queue == [s.queue[0]] + s.queue[1..];
    }
  }

  lemma ReconcileKeeps(s: Secondary, t: Txn)
    requires SecondaryInv(s)
    ensures SecondaryInv(Reconcile(s, t))
  {
    var i, s' := FirstMatch(s.pending, t), Reconcile(s, t);
    if i < |s.pending| {
      TakenOut(s.pending, i);
      assert multiset(s.pending) == multiset(s'.pending) + multiset{t};
      assert multiset(s'.completed) == multiset(s.completed) + multiset{t};
    }
  }

  lemma TakenOut(list: seq<Txn>, i: nat)
    requires i < |list|
    ensures multiset(list) == multiset(list[..i] + list[i + 1..]) + multiset{list[i]}
  {
    assert list == list[..i] + [list[i]] + list[i + 1..];
  }

  lemma {:induction false} CreatedOnce(created: seq<Txn>, t: Txn)
    requires forall i :: 0 <= i < |created| ==> created[i].num == i + 1
    ensures multiset(created)[t] <= 1
    ensures t in multiset(created) ==> 1 <= t.num <= |created| && created[t.num - 1] == t
    decreases |created|
  {
    if created != [] {
      var k := |created| - 1;
      CreatedOnce(created[..k], t);
      assert created == created[..k] + [created[k]];
    }
  }

  /** In how many places a transaction is kept. */
  function Places(s: Secondary, t: Txn): nat {
    multiset(s.queue)[t] + multiset(s.pending)[t] + multiset(s.completed)[t] + multiset(s.dropped)[t]
  }

  /** The numbers 1 to `last` split exactly: each belongs to one transaction, and that one is
      queued, pending, completed or dropped, once and in one place only. */
  lemma NumbersSplit(s: Secondary, n: nat)
    requires SecondaryInv(s) && 1 <= n <= s.last
    ensures var t := s.created[n - 1];
            && t.num == n
            && Places(s, t) == 1
            && forall u: Txn :: u.num == n && (u in s.queue || u in s.pending || u in s.completed || u in s.dropped) ==> u == t
  {
    var t := s.created[n - 1];
    CreatedOnce(s.created, t);
    forall u: Txn | u.num == n && (u in s.queue || u in s.pending || u in s.completed || u in s.dropped)
      ensures u == t
    {
      assert u in multiset(s.created);
      CreatedOnce(s.created, u);
    }
  }

  /** Pending transactions are pairwise different, and none is completed again. */
  lemma PendingUnique(s: Secondary)
    requires SecondaryInv(s)
    ensures forall i, j :: 0 <= i < j < |s.pending| ==> s.pending[i].num != s.pending[j].num
    ensures forall i, j :: 0 <= i < j < |s.completed| ==> s.completed[i].num != s.completed[j].num
    ensures forall t :: t in s.pending ==> t !in s.completed
  {
    forall i, j | 0 <= i < j < |s.pending| ensures s.pending[i].num != s.pending[j].num {
      Distinct(s, s.pending, i, j);
    }
    forall i, j | 0 <= i < j < |s.completed| ensures s.completed[i].num != s.completed[j].num {
      Distinct(s, s.completed, i, j);
    }
    forall t | t in s.pending ensures t !in s.completed { CreatedOnce(s.created, t); }
  }

  lemma Distinct(s: Secondary, list: seq<Txn>, i: nat, j: nat)
    requires SecondaryInv(s) && multiset(list) <= multiset(s.created) && i < j < |list|
    ensures list[i].num != list[j].num
  {
    CreatedOnce(s.created, list[i]);
    CreatedOnce(s.created, list[j]);
    assert list[i] in multiset(list) && list[j] in multiset(list);
    if list[i] == list[j] {
      TwiceInSeq(list, i, j);
      assert false;
    }
  }

  lemma TwiceInSeq(list: seq<Txn>, i: nat, j: nat)
    requires i < j < |list| && list[i] == list[j]
    ensures multiset(list)[list[i]] >= 2
  {
    assert list == list[..j] + [list[j]] + list[j + 1..];
    assert list[i] in multiset(list[..j]) by { assert list[..j][i] == list[i]; }
  }

  // ----- primary -----

  datatype Client = Client(addr: Addr, ns: nat)

  /** What the primary's history records: a SIM accepted, or a response attempted with a send number. */
  datatype Event = SimSeen(addr: Addr) | Attempt(addr: Addr, ns: nat)

  datatype Primary = Primary(clients: seq<Client>, queue: seq<Token>, numQueued: int, log: seq<Event>)

  /** Response attempts to `a` since its last SIM. */
  function CountSince(log: seq<Event>, a: Addr): nat {
    if log == [] then 0
    else
      var e, earlier := log[|log| - 1], log[..|log| - 1];
      if e.addr != a then CountSince(earlier, a)
      else if e.SimSeen? then 0
      else CountSince(earlier, a) + 1
  }

  function FindClient(clients: seq<Client>, a: Addr): (i: nat)
    ensures i <= |clients|
    ensures i < |clients| ==> clients[i].addr == a
    ensures forall j :: 0 <= j < i ==> clients[j].addr != a
  {
    if clients == [] || clients[0].addr == a then 0 else 1 + FindClient(clients[1..], a)
  }

  predicate Known(p: Primary, a: Addr) {
    FindClient(p.clients, a) < |p.clients|
  }

  /** A known client's numbers are reset, an unknown one joins the end of the list. */
  function Allocated(clients: seq<Client>, a: Addr): seq<Client> {
    var i := FindClient(clients, a);
    if i < |clients| then clients[i := Client(a, 0)] else clients + [Client(a, 0)]
  }

  /** A client is removed; an unknown one is ignored. */
  function Deallocated(clients: seq<Client>, a: Addr): seq<Client> {
    var i := FindClient(clients, a);
    if i < |clients| then clients[..i] + clients[i + 1..] else clients
  }

  /** The send number of client `i` moves on, modulo 8. */
  function Advanced(clients: seq<Client>, i: nat): seq<Client>
    requires i < |clients|
  {
    clients[i := Client(clients[i].addr, (clients[i].ns + 1) % 8)]
  }

  /** SIM. */
  function AllocateClient(p: Primary, a: Addr): Primary {
    p.(clients := Allocated(p.clients, a), log := p.log + [SimSeen(a)])
  }

  /** DISC. */
  function DeallocateClient(p: Primary, a: Addr): Primary {
    p.(clients := Deallocated(p.clients, a))
  }

  /** An information frame: requests of known clients are queued, everything else is ignored. */
  function ReceiveInfo(p: Primary, t: Token, request: bool): Primary {
    if !Known(p, t.addr) || !request then p
    else p.(queue := p.queue + [t], numQueued := p.numQueued + 1)
  }

  function RemoveHead(p: Primary): Primary
    requires p.queue != []
  {
    p.(queue := p.queue[1..], numQueued := p.numQueued - 1)
  }

  /** Takes the client's send number for one attempt; it advances whether or not the send succeeds. */
  function TakeNumber(p: Primary, a: Addr): Primary
    requires Known(p, a)
  {
    var i := FindClient(p.clients, a);
    p.(clients := Advanced(p.clients, i),
       log := p.log + [Attempt(a, p.clients[i].ns)])
  }

  /** The response loop; `oks` are the results of the successive sends. It stops at the first
      failed send and otherwise empties the queue. */
  function SendResponses(p: Primary, oks: seq<bool>): (r: (Primary, seq<Token>))
    ensures |r.0.queue| <= |p.queue|
    decreases |p.queue|
  {
    if p.queue == [] then (p, [])
    else
      var t := p.queue[0];
      if !Known(p, t.addr) then SendResponses(RemoveHead(p), oks)
      else
        var p' := TakeNumber(p, t.addr);
        if oks == [] || !oks[0] then (p', [])
        else
          var (p'', sent) := SendResponses(RemoveHead(p'), oks[1..]);
          (p'', [t] + sent)
  }

  /** One turn of the response loop. */
  lemma SendTurn(p: Primary, oks: seq<bool>)
    requires p.queue != []
    ensures var t := p.queue[0];
            var r := SendResponses(p, oks);
            if !Known(p, t.addr) then r == SendResponses(RemoveHead(p), oks)
            else if oks == [] || !oks[0] then r == (TakeNumber(p, t.addr), [])
            else var rest := SendResponses(RemoveHead(TakeNumber(p, t.addr)), oks[1..]);
                 r.0 == rest.0 && r.1 == [t] + rest.1
  {
  }

  ghost predicate NoAddressTwice(clients: seq<Client>) {
    forall i, j :: 0 <= i < j < |clients| ==> clients[i].addr != clients[j].addr
  }

  /** Each client's next send number counts the attempts since its last SIM, modulo 8. */
  ghost predicate NumbersCurrent(clients: seq<Client>, log: seq<Event>) {
    forall i :: 0 <= i < |clients| ==> clients[i].ns == CountSince(log, clients[i].addr) % 8
  }

  /** Each send number used was the number of earlier attempts since the client's last SIM, modulo 8. */
  ghost predicate NumbersUsed(log: seq<Event>) {
    forall i :: 0 <= i < |log| && log[i].Attempt? ==> log[i].ns == CountSince(log[..i], log[i].addr) % 8
  }

  ghost predicate PrimaryInv(p: Primary) {
    && NoAddressTwice(p.clients)
    && NumbersCurrent(p.clients, p.log)
    && NumbersUsed(p.log)
    && p.numQueued == |p.queue|
  }

  lemma LogGrows(log: seq<Event>, e: Event)
    requires NumbersUsed(log) && (e.Attempt? ==> e.ns == CountSince(log, e.addr) % 8)
    ensures NumbersUsed(log + [e])
    ensures forall a: Addr :: CountSince(log + [e], a) ==
              if e.addr != a then CountSince(log, a) else if e.SimSeen? then 0 else CountSince(log, a) + 1
  {
    var log' := log + [e];
    assert log'[..|log|] == log;
    forall i | 0 <= i < |log'| && log'[i].Attempt? ensures log'[i].ns == CountSince(log'[..i], log'[i].addr) % 8 {
      if i < |log| { assert log'[..i] == log[..i]; }
    }
  }

  lemma AllocateKeeps(p: Primary, a: Addr)
    requires PrimaryInv(p)
    ensures PrimaryInv(AllocateClient(p, a)) && Known(AllocateClient(p, a), a)
  {
    var p', i := AllocateClient(p, a), FindClient(p.clients, a);
    LogGrows(p.log, SimSeen(a));
    assert p'.clients[i] == Client(a, 0);
    forall j | 0 <= j < |p'.clients| ensures p'.clients[j].ns == CountSince(p'.log, p'.clients[j].addr) % 8 {
      if j != i { assert p'.clients[j] == p.clients[j] && p.clients[j].addr != a; }
    }
  }

  /** A list without its client `i` has the others in order. */
  lemma RemovedKeeps(clients: seq<Client>, log: seq<Event>, i: nat)
    requires NoAddressTwice(clients) && NumbersCurrent(clients, log) && i < |clients|
    ensures var rest := clients[..i] + clients[i + 1..];
            && NoAddressTwice(rest) && NumbersCurrent(rest, log)
            && forall j :: 0 <= j < |rest| ==> rest[j].addr != clients[i].addr
  {
    var rest := clients[..i] + clients[i + 1..];
    assert forall j :: 0 <= j < |rest| ==> rest[j] == clients[if j < i then j else j + 1];
  }

  /** A removed client is unknown. */
  lemma DeallocateKeeps(p: Primary, a: Addr)
    requires PrimaryInv(p)
    ensures PrimaryInv(DeallocateClient(p, a)) && !Known(DeallocateClient(p, a), a)
  {
    var i := FindClient(p.clients, a);
    if i < |p.clients| { RemovedKeeps(p.clients, p.log, i); }
  }

  /** Removing one client does not make another known. */
  lemma DeallocateOthers(p: Primary, a: Addr, b: Addr)
    requires !Known(p, b)
    ensures !Known(DeallocateClient(p, a), b)
  {
    var p', i := DeallocateClient(p, a), FindClient(p.clients, a);
    assert i < |p.clients| ==> forall j :: 0 <= j < |p'.clients| ==>
      p'.clients[j] == p.clients[if j < i then j else j + 1];
  }

  lemma TakeNumberKeeps(p: Primary, a: Addr)
    requires PrimaryInv(p) && Known(p, a)
    ensures PrimaryInv(TakeNumber(p, a))
  {
    var i := FindClient(p.clients, a);
    LogGrows(p.log, Attempt(a, p.clients[i].ns));
    NextModulo(CountSince(p.log, a));
    NumbersAdvance(p.clients, p.log, i, p.log + [Attempt(a, p.clients[i].ns)]);
    AddressesStay(p.clients, i, (p.clients[i].ns + 1) % 8);
  }

  /** The number of the client that was attempted moves on, the others count as before. */
  lemma {:induction false} NumbersAdvance(clients: seq<Client>, log: seq<Event>, i: nat, log': seq<Event>)
    requires NoAddressTwice(clients) && NumbersCurrent(clients, log) && i < |clients|
    requires forall a: Addr :: CountSince(log', a) == CountSince(log, a) + if a == clients[i].addr then 1 else 0
    requires (clients[i].ns + 1) % 8 == (CountSince(log, clients[i].addr) + 1) % 8
    ensures NumbersCurrent(clients[i := Client(clients[i].addr, (clients[i].ns + 1) % 8)], log')
  {
  }

  lemma AddressesStay(clients: seq<Client>, i: nat, ns: nat)
    requires NoAddressTwice(clients) && i < |clients|
    ensures NoAddressTwice(clients[i := Client(clients[i].addr, ns)])
  {
  }

  lemma NextModulo(c: nat)
    ensures (c % 8 + 1) % 8 == (c + 1) % 8
  {
  }

  lemma TakeNumberKnown(p: Primary, a: Addr, b: Addr)
    requires Known(p, a)
    ensures Known(TakeNumber(p, a), b) <==> Known(p, b)
  {
    var p' := TakeNumber(p, a);
    var k, k' := FindClient(p.clients, b), FindClient(p'.clients, b);
    if k < |p.clients| { assert p'.clients[k].addr == b; }
    if k' < |p'.clients| { assert p.clients[k'].addr == b; }
  }

  /** The response loop keeps the invariant; what was sent and what is left come from the queue. */
  lemma {:induction false} SendResponsesKeeps(p: Primary, oks: seq<bool>)
    requires PrimaryInv(p)
    ensures PrimaryInv(SendResponses(p, oks).0)
    ensures multiset(SendResponses(p, oks).0.queue) + multiset(SendResponses(p, oks).1) <= multiset(p.queue)
    decreases |p.queue|
  {
    if p.queue != [] {
      var t := p.queue[0];
      assert p.queue == [t] + p.queue[1..];
      if !Known(p, t.addr) {
        SendResponsesKeeps(RemoveHead(p), oks);
      } else {
        TakeNumberKeeps(p, t.addr);
        if oks != [] && oks[0] {
          SendResponsesKeeps(RemoveHead(TakeNumber(p, t.addr)), oks[1..]);
        }
      }
    }
  }

  lemma {:induction false} SendResponsesKnown(p: Primary, oks: seq<bool>, a: Addr)
    ensures Known(SendResponses(p, oks).0, a) <==> Known(p, a)
    decreases |p.queue|
  {
    if p.queue != [] {
      var t := p.queue[0];
      if !Known(p, t.addr) {
        SendResponsesKnown(RemoveHead(p), oks, a);
      } else {
        TakeNumberKnown(p, t.addr, a);
        if oks != [] && oks[0] {
          SendResponsesKnown(RemoveHead(TakeNumber(p, t.addr)), oks[1..], a);
        }
      }
    }
  }
}
