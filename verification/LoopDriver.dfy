/** The list-handling functions of the loop-mode programs as they are written, over linked
    lists. Each is proved to compute its function in `LoopStations`.
 */
module LoopDriver {
  import opened LoopLists
  import opened LoopStations
  import opened LoopClients

  ghost predicate Apart<T>(a: seq<Node<T>>, b: seq<Node<T>>) {
    forall i, j :: 0 <= i < |a| && 0 <= j < |b| ==> a[i] != b[j]
  }

  class SecondaryStation {
    const queued: TailList<Txn>
    const pending: TailList<Txn>
    const limit: nat
    var initialized: bool
    var last: nat
    var sendCount: nat
    ghost var created: seq<Txn>
    ghost var completed: seq<Txn>
    ghost var dropped: seq<Txn>

    ghost predicate Valid()
      reads this, queued, pending, queued.nodes, pending.nodes
    {
      && queued != pending && queued.Valid() && pending.Valid()
      && Apart(queued.nodes, pending.nodes)
    }

    ghost function State(): Secondary
      reads this, queued, pending, queued.nodes, pending.nodes
    {
      Secondary(initialized, queued.Contents(), pending.Contents(), last, queued.count, pending.count,
                sendCount, limit, created, completed, dropped)
    }

    constructor (limit: nat)
      ensures Valid() && fresh(queued) && fresh(pending) && queued.nodes == [] && pending.nodes == []
      ensures State() == Secondary(false, [], [], 0, 0, 0, 0, limit, [], [], [])
    {
      queued := new TailList<Txn>();
      pending := new TailList<Txn>();
      this.limit := limit;
      initialized, last, sendCount := false, 0, 0;
      created, completed, dropped := [], [], [];
    }

    /** Adds a transaction to the queue. */
    method QueueTransaction(t: Txn)
      requires Valid()
      modifies queued, queued.nodes
      ensures Valid()
      ensures var s := old(State()); State() == s.(queue := s.queue + [t], numQueued := s.numQueued + 1)
    {
      var node := new Node(t);
      assert node !in queued.nodes && node !in pending.nodes;
      queued.Add(node);
    }

    /** Called when the transaction timer has expired. */
    method CheckForNewTransactions(stamp: nat)
      requires Valid()
      modifies this, queued, queued.nodes
      ensures Valid() && State() == NewTransaction(old(State()), stamp)
    {
      if initialized {
        if limit != 0 && last >= limit { return; }
        last := last + 1;
        created := created + [Txn(last, stamp)];
        QueueTransaction(Txn(last, stamp));
      }
    }

    /** Moves the head of the queue to the end of the pending list; the rest of the queue is dropped. */
    method MoveQueuedTransactionToPendingList()
      requires Valid() && queued.head != null
      modifies queued, pending, queued.nodes, pending.nodes, `dropped
      ensures Valid() && queued.nodes == []
      ensures var s := old(State());
              State() == s.(queue := [], numQueued := s.numQueued - 1, pending := s.pending + [s.queue[0]],
                            numPending := s.numPending + 1, dropped := s.dropped + s.queue[1..])
    {
      dropped := dropped + queued.Contents()[1..];
      var node := queued.CutHead();
      pending.Add(node);
    }

    /** A successful send of the head of the queue, final if no other follows it. */
    method SendHead() returns (answer: Answer)
      requires Valid() && queued.head != null
      modifies this, queued, pending, queued.nodes, pending.nodes
      ensures Valid() && queued.head == null
      ensures var s := old(State()); s.queue != [] && (State(), answer) == AnswerPoll(s, true)
    {
      var t := queued.head;
      assert t == queued.nodes[0] && t.item == State().queue[0];
      assert |queued.nodes| > 1 ==> t.next == queued.nodes[1];
      answer := Request(t.item, t.next == null);
      sendCount := (sendCount + 1) % 8;
      MoveQueuedTransactionToPendingList();
    }

    /** The answer to a poll: the loop over the queue, which the first removal empties. */
    method DoPollResponse(sendOk: bool) returns (sent: seq<Answer>)
      requires Valid()
      modifies this, queued, pending, queued.nodes, pending.nodes
      ensures Valid() && State() == AnswerPoll(old(State()), sendOk).0
      ensures sent == if AnswerPoll(old(State()), sendOk).1.Silent? then []
                      else [AnswerPoll(old(State()), sendOk).1]
    {
      sent := [];
      if queued.head == null {
        if sendOk { sent := [Ready]; }
        return;
      }
      ghost var before, moved := State(), false;
      while queued.head != null
        invariant Valid()
        invariant !moved ==> sent == [] && State() == before &&
                             queued.nodes == old(queued.nodes) && pending.nodes == old(pending.nodes)
        invariant moved ==> sendOk && queued.head == null && State() == AnswerPoll(before, true).0 &&
                            sent == [Request(before.queue[0], |before.queue| == 1)]
        decreases !moved
      {
        if !sendOk { return; }
        var answer := SendHead();
        sent := sent + [answer];
        moved := true;
      }
    }

    /** Takes the first pending transaction equal to `t` out of its list. */
    method RemovePending(t: Txn) returns (found: bool, ghost at: nat)
      requires Valid()
      modifies pending, pending.nodes
      ensures Valid() && queued.Contents() == old(queued.Contents()) && queued.count == old(queued.count)
      ensures at == FirstMatch(old(pending.Contents()), t) && (found <==> at < |old(pending.Contents())|)
      ensures pending.count == if found then old(pending.count) - 1 else old(pending.count)
      ensures pending.Contents() == if found then old(pending.Contents())[..at] + old(pending.Contents())[at + 1..]
                                    else old(pending.Contents())
    {
      ghost var nodes, before := pending.nodes, pending.Contents();
      found, at := pending.RemoveFirst(x => x == t);
      MatchAt(before, t, at);
      if found { ApartRemoved(queued.nodes, nodes, at); }
    }

    method DropPending(t: Txn) returns (found: bool, ghost at: nat)
      requires Valid()
      modifies pending, pending.nodes
      ensures Valid() && at == FirstMatch(old(State()).pending, t)
      ensures var s := old(State());
              && (found <==> at < |s.pending|)
              && State() == if found then Unlisted(s, at) else s
    {
      found, at := RemovePending(t);
    }

    ghost method NoteCompleted(t: Txn)
      requires Valid()
      modifies `completed
      ensures Valid() && State() == old(State()).(completed := old(completed) + [t])
    {
      completed := completed + [t];
    }

    /** Completes the first pending transaction with the response's number and creation time. */
    method ReconcileTransaction(t: Txn) returns (found: bool, ghost at: nat)
      requires Valid()
      modifies pending, pending.nodes, `completed
      ensures Valid() && State() == Complete(old(State()), at)
      ensures at == FirstMatch(old(State()).pending, t) && (found <==> at < |old(State()).pending|)
    {
      ghost var s := State();
      found, at := DropPending(t);
      if found { NoteCompleted(s.pending[at]); }
    }
  }

  lemma ApartRemoved<T>(a: seq<Node<T>>, b: seq<Node<T>>, i: nat)
    requires Apart(a, b) && i < |b|
    ensures Apart(a, b[..i] + b[i + 1..])
  {
  }

  lemma {:induction false} MatchAt(pending: seq<Txn>, t: Txn, at: nat)
    requires at <= |pending| && (at < |pending| ==> pending[at] == t)
    requires forall i :: 0 <= i < at ==> pending[i] != t
    ensures FirstMatch(pending, t) == at
  {
  }

  /** `all` is what the response loop comes to: done with `sent`, or `sent` and what is still to come. */
  ghost predicate Answered(all: (Primary, seq<Token>), p: Primary, sent: seq<Token>, left: seq<bool>, done: bool) {
    if done then all == (p, sent)
    else all.0 == SendResponses(p, left).0 && all.1 == sent + SendResponses(p, left).1
  }

  lemma {:induction false} AnsweredMore(all: (Primary, seq<Token>), p: Primary, sent: seq<Token>, left: seq<bool>,
                                        more: seq<Token>, p': Primary, left': seq<bool>, done: bool)
    requires Answered(all, p, sent, left, false)
    requires done ==> SendResponses(p, left) == (p', more)
    requires !done ==> SendResponses(p, left).0 == SendResponses(p', left').0
    requires !done ==> SendResponses(p, left).1 == more + SendResponses(p', left').1
    ensures Answered(all, p', sent + more, left', done)
  {
  }

  class PrimaryStation {
    const clients: ClientList
    const queue: TailList<Token>
    ghost var log: seq<Event>

    ghost predicate Valid()
      reads this, queue, queue.nodes, clients, clients.nodes
    {
      queue.Valid() && clients.Valid()
    }

    ghost function State(): Primary
      reads this, queue, queue.nodes, clients, clients.nodes
    {
      Primary(clients.Contents(), queue.Contents(), queue.count, log)
    }

    constructor ()
      ensures Valid() && fresh(queue) && fresh(clients) && queue.nodes == [] && clients.nodes == []
      ensures State() == Primary([], [], 0, [])
    {
      queue := new TailList<Token>();
      clients := new ClientList();
      log := [];
    }

    method GetClientInfo(a: Addr) returns (node: ClientNode?, ghost at: nat)
      requires Valid()
      ensures at == FindClient(State().clients, a)
      ensures node == if at < |clients.nodes| then clients.nodes[at] else null
    {
      var last;
      node, last, at := clients.Find(a);
    }

    method AllocateClient(a: Addr)
      requires Valid()
      modifies clients, clients.nodes, `log
      ensures Valid() && State() == LoopStations.AllocateClient(old(State()), a)
    {
      clients.Allocate(a);
      log := log + [SimSeen(a)];
    }

    method DeallocateClient(a: Addr)
      requires Valid()
      modifies clients, clients.nodes
      ensures Valid() && State() == LoopStations.DeallocateClient(old(State()), a)
    {
      clients.Deallocate(a);
    }

    /** Adds a request to the queue. */
    method QueueTransaction(t: Token)
      requires Valid()
      modifies queue, queue.nodes
      ensures Valid()
      ensures var p := old(State()); State() == p.(queue := p.queue + [t], numQueued := p.numQueued + 1)
    {
      var node := new Node(t);
      queue.Add(node);
    }

    /** An information frame from the loop. */
    method ReceiveInfo(t: Token, request: bool)
      requires Valid()
      modifies queue, queue.nodes
      ensures Valid() && State() == LoopStations.ReceiveInfo(old(State()), t, request)
    {
      var client, _ := GetClientInfo(t.addr);
      if client == null { return; }
      if request { QueueTransaction(t); }
    }

    /** Takes the send number for one attempt to a client. */
    method TakeClientNumber(client: ClientNode, ghost at: nat, a: Addr) returns (ns: nat)
      requires Valid() && at == FindClient(State().clients, a) < |clients.nodes| && client == clients.nodes[at]
      modifies client, `log
      ensures Valid() && State() == TakeNumber(old(State()), a) && ns == old(State().clients[at].ns)
    {
      ns := clients.TakeNumber(client, at);
      log := log + [Attempt(a, ns)];
    }

    method DropHead()
      requires Valid() && queue.head != null
      modifies queue
      ensures Valid() && old(State()).queue != [] && State() == RemoveHead(old(State()))
      ensures clients.nodes == old(clients.nodes)
    {
      queue.RemoveHead();
    }

    /** Answers the request at the head of the queue, or discards it if its client is unknown. */
    method AnswerHead(ok: bool) returns (t: Token, known: bool)
      requires Valid() && queue.head != null
      modifies this, queue, clients.nodes
      ensures Valid() && t == old(State()).queue[0] && (known <==> Known(old(State()), t.addr))
      ensures known && !ok ==> State() == TakeNumber(old(State()), t.addr)
      ensures known && ok ==> State() == RemoveHead(TakeNumber(old(State()), t.addr))
      ensures !known ==> State() == RemoveHead(old(State()))
    {
      t := queue.head.item;
      var client, at := GetClientInfo(t.addr);
      known := client != null;
      if !known {
        DropHead();
        return;
      }
      var ns := TakeClientNumber(client, at, t.addr);
      if ok { DropHead(); }
    }

    /** One turn of the response loop; `left` are the results of the sends still to come. */
    method AnswerTurn(left: seq<bool>) returns (sent: seq<Token>, rest: seq<bool>, done: bool)
      requires Valid() && queue.head != null
      modifies this, queue, clients.nodes
      ensures Valid() && (done || |State().queue| < |old(State()).queue|)
      ensures done ==> SendResponses(old(State()), left) == (State(), sent)
      ensures !done ==> SendResponses(old(State()), left).0 == SendResponses(State(), rest).0
      ensures !done ==> SendResponses(old(State()), left).1 == sent + SendResponses(State(), rest).1
    {
      SendTurn(State(), left);
      var ok := left != [] && left[0];
      var t, known := AnswerHead(ok);
      done := known && !ok;
      sent := if known && ok then [t] else [];
      rest := if known && ok then left[1..] else left;
    }

    /** Answers every queued request until a send fails. */
    method SendTransactionResponses(oks: seq<bool>) returns (sent: seq<Token>)
      requires Valid()
      modifies this, queue, clients.nodes
      ensures Valid()
      ensures State() == SendResponses(old(State()), oks).0 && sent == SendResponses(old(State()), oks).1
    {
      sent := [];
      var left, done := oks, false;
      ghost var all := SendResponses(State(), oks);
      while !done && queue.head != null
        invariant Valid()
        invariant Answered(all, State(), sent, left, done)
        decreases !done, |State().queue|
      {
        ghost var p, before, results := State(), sent, left;
        var more;
        more, left, done := AnswerTurn(left);
        sent := sent + more;
        AnsweredMore(all, p, before, results, more, State(), left, done);
      }
    }
  }
}
