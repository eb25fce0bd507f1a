/** The singly linked lists of the loop-mode programs: a head pointer, a cached tail pointer
    that is meaningful only while the list is non-empty, and a separate counter.
 */
module LoopLists {

  class Node<T> {
    const item: T
    var next: Node?<T>

    constructor (item: T)
      ensures this.item == item && next == null
    {
      this.item := item;
      next := null;
    }
  }

  ghost function Items<T>(nodes: seq<Node<T>>): (s: seq<T>)
    ensures |s| == |nodes| && forall i :: 0 <= i < |s| ==> s[i] == nodes[i].item
  {
    seq(|nodes|, i requires 0 <= i < |nodes| => nodes[i].item)
  }

  class TailList<T> {
    var head: Node?<T>
    var tail: Node?<T>
    var count: int
    ghost var nodes: seq<Node<T>>

    ghost predicate Valid()
      reads this, nodes
    {
      && (forall i, j :: 0 <= i < j < |nodes| ==> nodes[i] != nodes[j])
      && (forall i :: 0 <= i < |nodes| - 1 ==> nodes[i].next == nodes[i + 1])
      && (if nodes == [] then head == null
          else head == nodes[0] && tail == nodes[|nodes| - 1] && nodes[|nodes| - 1].next == null)
    }

    /** The sequence the list stands for. */
    ghost function Contents(): (s: seq<T>)
      reads this
      ensures |s| == |nodes| && forall i :: 0 <= i < |s| ==> s[i] == nodes[i].item
    {
      Items(nodes)
    }

    constructor ()
      ensures Valid() && Contents() == [] && count == 0 && nodes == []
    {
      head, tail, count, nodes := null, null, 0, [];
    }

    /** Appends a node through the cached tail. */
    method Add(node: Node<T>)
      requires Valid() && node !in nodes
      modifies this, nodes, node
      ensures Valid() && nodes == old(nodes) + [node]
      ensures Contents() == old(Contents()) + [node.item] && count == old(count) + 1
    {
      node.next := null;
      if head == null {
        head := node;
      } else {
        tail.next := node;
      }
      tail := node;
      count := count + 1;
      nodes := nodes + [node];
    }

    /** Removes the first node by moving the head to its successor. */
    method RemoveHead()
      requires Valid()
      modifies this
      ensures Valid()
      ensures if old(nodes) == [] then nodes == [] && count == old(count)
              else nodes == old(nodes)[1..] && count == old(count) - 1
      ensures Contents() == if old(nodes) == [] then [] else old(Contents())[1..]
    {
      if head != null {
        head := head.next;
        count := count - 1;
        nodes := nodes[1..];
      }
    }

    /** Removes the first node, but clears its link before reading it: the list becomes empty
        and every later node is dropped with it, while the counter falls by one. */
    method CutHead() returns (node: Node?<T>)
      requires Valid()
      modifies this, nodes
      ensures Valid() && Contents() == [] && nodes == []
      ensures if old(nodes) == [] then node == null && count == old(count)
              else node == old(nodes)[0] && node.item == old(Contents())[0] && count == old(count) - 1
    {
      node := head;
      if node != null {
        node.next := null;
        head := node.next;
        count := count - 1;
        nodes := [];
      }
    }

    /** Removes the first node whose item satisfies `matching`, wherever it stands, repairing the
        cached tail when the last node goes. */
    method RemoveFirst(matching: T -> bool) returns (found: bool, ghost at: nat)
      requires Valid()
      modifies this, nodes
      ensures Valid() && at <= |old(nodes)|
      ensures nodes == if at < |old(nodes)| then old(nodes)[..at] + old(nodes)[at + 1..] else old(nodes)
      ensures forall i :: 0 <= i < at ==> !matching(old(Contents())[i])
      ensures found <==> at < |old(nodes)|
      ensures if found then matching(old(Contents())[at]) && count == old(count) - 1 &&
                            Contents() == old(Contents())[..at] + old(Contents())[at + 1..]
              else Contents() == old(Contents()) && count == old(count)
    {
      at := 0;
      var list, last := head, null;
      while list != null
        invariant unchanged(this) && unchanged(nodes)
        invariant at <= |nodes| && list == (if at < |nodes| then nodes[at] else null)
        invariant last == if at == 0 then null else nodes[at - 1]
        invariant forall i :: 0 <= i < at ==> !matching(nodes[i].item)
        decreases |nodes| - at
      {
        if matching(list.item) {
          Unlink(list, last, at);
          return true, at;
        }
        last := list;
        list := list.next;
        at := at + 1;
      }
      found := false;
    }

    method Unlink(list: Node<T>, last: Node?<T>, ghost at: nat)
      requires Valid() && at < |nodes| && list == nodes[at]
      requires last == if at == 0 then null else nodes[at - 1]
      modifies this, nodes
      ensures Valid() && nodes == old(nodes)[..at] + old(nodes)[at + 1..] && count == old(count) - 1
      ensures Contents() == old(Contents())[..at] + old(Contents())[at + 1..]
    {
      if list == head {
        head := list.next;
      } else {
        last.next := list.next;
      }
      if last != null && last.next == null {
        tail := last;
      }
      count := count - 1;
      ghost var before := nodes;
      nodes := nodes[..at] + nodes[at + 1..];
      if at + 1 < |before| {
        assert before[at].next == before[at + 1] || at == 0;
        assert nodes[|nodes| - 1] == before[|before| - 1];
      } else if at > 0 {
        assert nodes[|nodes| - 1] == before[at - 1];
      }
    }
  }
}
