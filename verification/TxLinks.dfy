/** The transmitting device walks the entry list by the addresses in the link fields; on the lists
    the driver builds, that reads the transmit ring in order.
 */
module TxLinks {
  import opened Cyclic
  import opened RxRing
  import opened TxRing
  import opened Layout

  /** The device sending a frame of `size` bytes from the entry at address `a`: it takes each
      entry's count and goes on at the entry's link until `size` bytes have gone. */
  ghost function LinkWalk(l: Lists, rx: nat, t: Tx, a: nat, size: nat): seq<byte>
    requires t.Ok() && |l.entry| == |l.link| == rx + |t.list|
    decreases size
  {
    var i := EntryAt(l.entry, a);
    if i < rx || i == |l.entry| then []
    else
      var e := t.list[i - rx];
      if size == 0 || e.count == 0 then []
      else if e.count >= size then e.data[..size]
      else e.data[..e.count] + LinkWalk(l, rx, t, l.link[i], size - e.count)
  }

  lemma {:induction false} LinkWalkStep(l: Lists, rx: nat, t: Tx, i: nat, bytes: nat)
    requires t.Ok() && Linked(l, rx, |t.list|) && i < |t.list| && 0 < t.list[i].count < bytes
    ensures LinkWalk(l, rx, t, l.entry[rx + i], bytes) ==
            t.list[i].data[..t.list[i].count] +
            LinkWalk(l, rx, t, l.entry[rx + Next(i, |t.list|)], bytes - t.list[i].count)
  {
  }

  lemma {:induction false} LinkWalkIsWalk(l: Lists, rx: nat, t: Tx, i: nat, bytes: nat)
    requires t.Ok() && Linked(l, rx, |t.list|) && i < |t.list|
    ensures LinkWalk(l, rx, t, l.entry[rx + i], bytes) == Walk(t.list, i, bytes)
    decreases bytes
  {
    if 0 < t.list[i].count < bytes {
      LinkWalkStep(l, rx, t, i, bytes);
      LinkWalkIsWalk(l, rx, t, Next(i, |t.list|), bytes - t.list[i].count);
    }
  }

  /** What the device sends once started: the programmed frame size from the start entry on. */
  ghost function Transmitted(l: Lists, rx: nat, t: Tx): seq<byte>
    requires t.Ok() && |l.entry| == |l.link| == rx + |t.list|
  {
    LinkWalk(l, rx, t, l.entry[rx + t.start], t.list[t.start].rcc)
  }

  lemma TransmittedWalk(l: Lists, rx: nat, t: Tx)
    requires t.Ok() && Linked(l, rx, |t.list|)
    ensures Transmitted(l, rx, t) == Walk(t.list, t.start, t.list[t.start].rcc)
  {
    LinkWalkIsWalk(l, rx, t, t.start, t.list[t.start].rcc);
  }

  /** Whatever was in the ring and wherever loading starts, the device that follows the links sends
      exactly the loaded frame. */
  lemma SentByLinks(l: Lists, rx: nat, t: Tx, buf: seq<byte>)
    requires Loadable(t, buf) && Linked(l, rx, |t.list|)
    ensures Transmitted(l, rx, Load(t, buf)) == buf
  {
    SentAsLoaded(t, buf);
    TransmittedWalk(l, rx, Load(t, buf));
  }
}
