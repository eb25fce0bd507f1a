/** How the adapter's shared memory is divided into the entry lists and the data pages. */
module Layout {
  import opened Cyclic
  import TxRing

  const PAGE: nat := 4096
  const SHARED_MEMORY: nat := 0x40000
  const PAGES: nat := 62

  /** The entries of both rings in list order, receive entries first; `succ` is the ring order. */
  function Succ(i: nat, rx: nat, tx: nat): (j: nat)
    requires i < rx + tx
    ensures j < rx + tx
    ensures i < rx <==> j < rx
  {
    if i < rx then Next(i, rx) else rx + Next(i - rx, tx)
  }

  /** The physical address of every entry, receive entries first, and the link each one holds. */
  datatype Lists = Lists(entry: seq<nat>, link: seq<nat>)

  /** Entries of `size` bytes from `base` on. */
  ghost predicate Placed(entry: seq<nat>, base: nat, size: nat) {
    forall i :: 0 <= i < |entry| ==> entry[i] == base + i * size
  }

  /** The entry at an address, if there is one. */
  ghost function EntryAt(entry: seq<nat>, a: nat): (i: nat)
    ensures i < |entry| ==> entry[i] == a
    ensures i == |entry| || i < |entry|
  {
    if a in entry then var i :| 0 <= i < |entry| && entry[i] == a; i else |entry|
  }

  /** Every entry is found at its own address, and is linked to the next one of its own ring. */
  ghost predicate Linked(l: Lists, rx: nat, tx: nat) {
    && |l.entry| == |l.link| == rx + tx
    && (forall i :: 0 <= i < rx + tx ==> EntryAt(l.entry, l.entry[i]) == i)
    && (forall i :: 0 <= i < rx + tx ==> l.link[i] == l.entry[Succ(i, rx, tx)])
  }

  /** Fills in address and link of the `n` entries of one ring, which starts at entry `first`. */
  method BuildRing(base: nat, first: nat, n: nat, size: nat) returns (entry: seq<nat>, link: seq<nat>)
    ensures |entry| == |link| == n
    ensures forall k :: 0 <= k < n ==> entry[k] == base + (first + k) * size
    ensures forall k :: 0 <= k < n ==> link[k] == base + (first + Next(k, n)) * size
  {
    var phys, next := new nat[n], new nat[n];
    var i := 0;
    while i < n
      invariant i <= n
      invariant forall k :: 0 <= k < i ==> phys[k] == base + (first + k) * size
      invariant forall k :: 0 <= k < i ==> next[k] == base + (first + Next(k, n)) * size
    {
      phys[i] := base + (first + i) * size;
      next[i] := base + first * size;
      if i < n - 1 {
        assert first * size + (i + 1) * size == (first + (i + 1)) * size;
        next[i] := next[i] + (i + 1) * size;
      }
      i := i + 1;
    }
    entry, link := phys[..], next[..];
  }

  lemma Spaced(i: nat, j: nat, size: nat)
    requires i < j && size > 0
    ensures i * size < j * size
  {
    assert j * size == i * size + (j - i) * size;
  }

  lemma PlacedApart(entry: seq<nat>, base: nat, size: nat)
    requires Placed(entry, base, size) && size > 0
    ensures forall i :: 0 <= i < |entry| ==> EntryAt(entry, entry[i]) == i
  {
    forall i | 0 <= i < |entry| ensures EntryAt(entry, entry[i]) == i {
      var k := EntryAt(entry, entry[i]);
      assert entry[i] in entry;
      if k < i { Spaced(k, i, size); }
      if i < k { Spaced(i, k, size); }
    }
  }

  /** Fills in the physical address and the link of every entry, one loop per ring. */
  method BuildBufferLists(base: nat, rx: nat, tx: nat, size: nat) returns (l: Lists)
    requires size > 0
    ensures Placed(l.entry, base, size) && Linked(l, rx, tx)
  {
    var rxEntry, rxLink := BuildRing(base, 0, rx, size);
    var txEntry, txLink := BuildRing(base, rx, tx, size);
    l := Lists(rxEntry + txEntry, rxLink + txLink);
    forall i | 0 <= i < rx + tx
      ensures l.entry[i] == base + i * size && l.link[i] == base + Succ(i, rx, tx) * size
    {
    }
    PlacedApart(l.entry, base, size);
  }

  /** Following `k` links from entry `i`. */
  function Follow(i: nat, k: nat, rx: nat, tx: nat): (j: nat)
    requires i < rx + tx
    ensures j < rx + tx && (i < rx <==> j < rx)
    decreases k
  {
    if k == 0 then i else Follow(Succ(i, rx, tx), k - 1, rx, tx)
  }

  lemma {:induction false} FollowAt(i: nat, k: nat, rx: nat, tx: nat)
    requires i < rx + tx && k <= (if i < rx then rx else tx)
    ensures Follow(i, k, rx, tx) == if i < rx then At(i, k, rx) else rx + At(i - rx, k, tx)
    decreases k
  {
    if k > 0 { FollowAt(Succ(i, rx, tx), k - 1, rx, tx); }
  }

  /** The links form two disjoint cycles: from any entry exactly the entries of its own ring
      are reached, each within one turn, and a full turn comes back. */
  lemma TwoCycles(i: nat, j: nat, rx: nat, tx: nat)
    requires i < rx + tx && j < rx + tx
    ensures var n := if i < rx then rx else tx;
            && Follow(i, n, rx, tx) == i
            && ((i < rx <==> j < rx) <==> exists k :: 0 <= k < n && Follow(i, k, rx, tx) == j)
  {
    var n := if i < rx then rx else tx;
    FollowAt(i, n, rx, tx);
    if i < rx <==> j < rx {
      var k := if i < rx then Offset(i, j, rx) else Offset(i - rx, j - rx, tx);
      FollowAt(i, k, rx, tx);
      assert Follow(i, k, rx, tx) == j;
    }
  }

  /** The address reached from address `a` by `k` links. */
  ghost function FollowLinks(l: Lists, a: nat, k: nat): nat
    requires |l.entry| == |l.link|
    decreases k
  {
    if k == 0 then a
    else
      var i := EntryAt(l.entry, a);
      if i < |l.entry| then FollowLinks(l, l.link[i], k - 1) else a
  }

  /** Following addresses through the link fields is following the ring order. */
  lemma {:induction false} LinksFollow(l: Lists, rx: nat, tx: nat, i: nat, k: nat)
    requires Linked(l, rx, tx) && i < rx + tx
    ensures FollowLinks(l, l.entry[i], k) == l.entry[Follow(i, k, rx, tx)]
    decreases k
  {
    if k > 0 {
      LinksFollow(l, rx, tx, Succ(i, rx, tx), k - 1);
    }
  }

  /** The link fields of the built lists form two disjoint cycles of addresses: from any entry
      exactly the entries of its own ring are reached, each within one turn, and a full turn
      comes back. */
  lemma LinkCycles(l: Lists, rx: nat, tx: nat, i: nat, j: nat)
    requires Linked(l, rx, tx) && i < rx + tx && j < rx + tx
    ensures var n := if i < rx then rx else tx;
            && FollowLinks(l, l.entry[i], n) == l.entry[i]
            && ((i < rx <==> j < rx) <==> exists k :: 0 <= k < n && FollowLinks(l, l.entry[i], k) == l.entry[j])
  {
    var n := if i < rx then rx else tx;
    TwoCycles(i, j, rx, tx);
    LinksFollow(l, rx, tx, i, n);
    forall k | 0 <= k < n
      ensures FollowLinks(l, l.entry[i], k) == l.entry[j] <==> Follow(i, k, rx, tx) == j
    {
      LinksFollow(l, rx, tx, i, k);
    }
    if k :| 0 <= k < n && Follow(i, k, rx, tx) == j {
      assert FollowLinks(l, l.entry[i], k) == l.entry[j];
    }
  }

  /** Hands out consecutive pages of the adapter's shared memory from `start` on. */
  method AllocFrameMemory(start: nat, count: nat) returns (pages: seq<nat>, end: nat)
    ensures |pages| == count && end == start + count * 4096
    ensures forall i :: 0 <= i < count ==> pages[i] == start + i * 4096
  {
    pages, end := [], start;
    while |pages| < count
      invariant |pages| <= count && end == start + |pages| * 4096
      invariant forall i :: 0 <= i < |pages| ==> pages[i] == start + i * 4096
    {
      pages := pages + [end];
      end := end + PAGE;
    }
  }

  /** The division of a PCI adapter's memory. With at least one receive buffer left, the entry
      list (62 entries of `size` bytes) and all data pages are pairwise disjoint and fit. */
  method AllocateDmaBuffers(maxFrame: nat, frames: nat, size: nat) returns (rx: seq<nat>, tx: seq<nat>)
    requires frames >= 1 && PAGES * size <= PAGE && frames * TxRing.Needed(maxFrame) < PAGES
    ensures |rx| >= 1 && |tx| == frames * TxRing.Needed(maxFrame) && |rx| + |tx| == PAGES
    ensures var all := rx + tx;
            && (forall i :: 0 <= i < |all| ==> (|rx| + |tx|) * size <= all[i] <= SHARED_MEMORY - PAGE)
            && (forall i, j :: 0 <= i < j < |all| ==> all[i] + PAGE <= all[j])
  {
    var txCount := frames * TxRing.Needed(maxFrame);
    var rxCount := PAGES - txCount;
    var last := PAGE;
    rx, last := AllocFrameMemory(last, rxCount);
    tx, last := AllocFrameMemory(last, txCount);
    var all := rx + tx;
    assert forall i :: 0 <= i < |all| ==> all[i] == PAGE + i * 4096;
  }
}
