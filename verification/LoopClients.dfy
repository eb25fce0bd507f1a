/** The primary's linked list of clients: a head pointer only, so joining it walks to the end. */
module LoopClients {
  import opened LoopStations

  class ClientNode {
    const addr: Addr
    var ns: nat
    var next: ClientNode?

    constructor (addr: Addr)
      ensures this.addr == addr && ns == 0 && next == null
    {
      this.addr, ns, next := addr, 0, null;
    }
  }

  ghost predicate Chained(head: ClientNode?, nodes: seq<ClientNode>)
    reads nodes
  {
    && (forall i, j :: 0 <= i < j < |nodes| ==> nodes[i] != nodes[j])
    && (forall i :: 0 <= i < |nodes| - 1 ==> nodes[i].next == nodes[i + 1])
    && (if nodes == [] then head == null else head == nodes[0] && nodes[|nodes| - 1].next == null)
  }

  ghost function Items(nodes: seq<ClientNode>): (s: seq<Client>)
    reads nodes
    ensures |s| == |nodes| && forall i :: 0 <= i < |s| ==> s[i] == Client(nodes[i].addr, nodes[i].ns)
  {
    seq(|nodes|, i requires 0 <= i < |nodes| reads nodes => Client(nodes[i].addr, nodes[i].ns))
  }

  class ClientList {
    var head: ClientNode?
    ghost var nodes: seq<ClientNode>

    ghost predicate Valid()
      reads this, nodes
    {
      Chained(head, nodes)
    }

    /** The clients in list order. */
    ghost function Contents(): (s: seq<Client>)
      reads this, nodes
      ensures |s| == |nodes|
    {
      Items(nodes)
    }

    constructor ()
      ensures Valid() && nodes == [] && Contents() == []
    {
      head, nodes := null, [];
    }

    /** Searches for an address; `last` is the node before the one found, or the last of all. */
    method Find(a: Addr) returns (node: ClientNode?, last: ClientNode?, ghost at: nat)
      requires Valid()
      ensures at == FindClient(Contents(), a) && node == (if at < |nodes| then nodes[at] else null)
      ensures last == if at == 0 then null else nodes[at - 1]
    {
      node, last, at := head, null, 0;
      while node != null
        invariant at <= |nodes| && node == (if at < |nodes| then nodes[at] else null)
        invariant last == if at == 0 then null else nodes[at - 1]
        invariant forall i :: 0 <= i < at ==> Contents()[i].addr != a
        decreases |nodes| - at
      {
        if node.addr == a { break; }
        last := node;
        node := node.next;
        at := at + 1;
      }
      FoundAt(Contents(), a, at);
    }

    /** The last node of a list that is not empty. */
    method Last() returns (node: ClientNode)
      requires Valid() && head != null
      ensures node == nodes[|nodes| - 1]
    {
      node := head;
      ghost var at := 0;
      while node.next != null
        invariant at < |nodes| && node == nodes[at]
        invariant node.next == if at + 1 < |nodes| then nodes[at + 1] else null
        decreases |nodes| - at
      {
        node := node.next;
        at := at + 1;
      }
    }

    /** Adds a node at the end. */
    method Append(node: ClientNode)
      requires Valid() && node !in nodes && node.next == null
      modifies this, nodes
      ensures Valid() && nodes == old(nodes) + [node]
      ensures Contents() == old(Contents()) + [Client(node.addr, node.ns)]
    {
      if head != null {
        var last := Last();
        last.next := node;
      } else {
        head := node;
      }
      nodes := nodes + [node];
    }

    /** Takes node `at` out of the list. */
    method Unlink(node: ClientNode, last: ClientNode?, ghost at: nat)
      requires Valid() && at < |nodes| && node == nodes[at] && last == if at == 0 then null else nodes[at - 1]
      modifies this, nodes
      ensures Valid() && nodes == old(nodes)[..at] + old(nodes)[at + 1..]
      ensures Contents() == old(Contents())[..at] + old(Contents())[at + 1..]
    {
      if node == head {
        head := node.next;
      } else {
        last.next := node.next;
      }
      nodes := nodes[..at] + nodes[at + 1..];
    }

    /** SIM from an address. */
    method Allocate(a: Addr)
      requires Valid()
      modifies this, nodes
      ensures Valid() && Contents() == Allocated(old(Contents()), a)
    {
      var node, last, at := Find(a);
      if node != null {
        SetNumber(node, 0, at);
      } else {
        var joined := new ClientNode(a);
        Append(joined);
      }
    }

    /** DISC from an address. */
    method Deallocate(a: Addr)
      requires Valid()
      modifies this, nodes
      ensures Valid() && Contents() == Deallocated(old(Contents()), a)
    {
      var node, last, at := Find(a);
      if node != null { Unlink(node, last, at); }
    }

    /** Takes the send number of node `at`, which moves on. */
    method TakeNumber(node: ClientNode, ghost at: nat) returns (ns: nat)
      requires Valid() && at < |nodes| && node == nodes[at]
      modifies node
      ensures Valid() && Contents() == Advanced(old(Contents()), at) && ns == old(Contents()[at].ns)
    {
      ns := node.ns;
      SetNumber(node, (ns + 1) % 8, at);
    }

    /** Sets the send number of node `at`. */
    method SetNumber(node: ClientNode, ns: nat, ghost at: nat)
      requires Valid() && at < |nodes| && node == nodes[at]
      modifies node
      ensures Valid() && Contents() == old(Contents())[at := Client(node.addr, ns)]
    {
      node.ns := ns;
    }
  }

  lemma {:induction false} FoundAt(clients: seq<Client>, a: Addr, at: nat)
    requires at <= |clients| && (at < |clients| ==> clients[at].addr == a)
    requires forall i :: 0 <= i < at ==> clients[i].addr != a
    ensures FindClient(clients, a) == at
  {
  }
}
