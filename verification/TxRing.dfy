/** The transmit DMA ring: loading a frame into consecutive entries, and what the device reads back. */
module TxRing {
  import opened Cyclic
  import opened RxRing

  datatype TxEntry = TxEntry(count: nat, status: bv16, rcc: nat, data: seq<byte>)

  const CMR_LOOP: bv16 := 0x2000
  const CMR_TX: bv16 := 0xf000

  /** The transmit ring with its driver indices. `start` is where the last load began,
      `current` the next entry to load, `used` the driver's count of entries in use; `cmr` is the
      channel mode register value, of which each frame carries the transmit part. */
  datatype Tx = Tx(list: seq<TxEntry>, current: nat, start: nat, used: int, cmr: bv16, loopMode: bool)
  {
    predicate Ok() {
      && current < |list| && start < |list|
      && forall i :: 0 <= i < |list| ==> |list[i].data| == BUFFER_SIZE && list[i].count <= BUFFER_SIZE
    }
  }

  /** Entries needed for `len` bytes. */
  function Needed(len: nat): (k: nat)
    ensures k * 4096 >= len
    ensures len > 0 ==> k > 0 && (k - 1) * 4096 < len
  {
    len / 4096 + if len % 4096 != 0 then 1 else 0
  }

  /** The part of a frame that goes into its `j`-th entry. */
  function Chunk(buf: seq<byte>, j: nat): (c: seq<byte>)
    requires j < Needed(|buf|)
    ensures 1 <= |c| <= BUFFER_SIZE
  {
    var from := j * 4096;
    WithinNeeded(|buf|, j);
    if |buf| - from > BUFFER_SIZE then buf[from..from + BUFFER_SIZE] else buf[from..]
  }

  lemma WithinNeeded(len: nat, j: nat)
    requires j < Needed(len)
    ensures j * 4096 < len
  {
    assert j * 4096 <= (Needed(len) - 1) * 4096;
  }

  /** What is left of a frame after `j` entries. */
  function Remainder(buf: seq<byte>, j: nat): seq<byte> {
    if j * 4096 >= |buf| then [] else buf[j * 4096..]
  }

  lemma RemainderStep(buf: seq<byte>, j: nat)
    requires j <= Needed(|buf|)
    ensures Remainder(buf, j) == [] <==> j == Needed(|buf|)
    ensures j < Needed(|buf|) ==>
              var r := Remainder(buf, j);
              var c := if |r| > BUFFER_SIZE then BUFFER_SIZE else |r|;
              Chunk(buf, j) == r[..c] && Remainder(buf, j + 1) == r[c..]
  {
  }

  /** Overwriting the front of a buffer. */
  function Put(data: seq<byte>, c: seq<byte>): (d: seq<byte>)
    requires |c| <= |data|
    ensures |d| == |data| && d[..|c|] == c
  {
    c + data[|c|..]
  }

  /** Loading a frame in loop mode asks the channel to send at the next go-ahead. */
  function LoadCmr(cmr: bv16, loopMode: bool): bv16 {
    if loopMode then cmr | CMR_LOOP else cmr
  }

  /** The header a frame's first entry gets: transmit mode bits, frame size, and the size as count. */
  function Header(e: TxEntry, cmr: bv16, len: nat): TxEntry {
    e.(status := cmr & CMR_TX, rcc := len, count := len)
  }

  function WithChunk(e: TxEntry, buf: seq<byte>, j: nat): TxEntry
    requires j < Needed(|buf|) && |e.data| == BUFFER_SIZE
  {
    e.(count := |Chunk(buf, j)|, data := Put(e.data, Chunk(buf, j)))
  }

  predicate Loadable(t: Tx, buf: seq<byte>) {
    t.Ok() && Needed(|buf|) <= |t.list| && |buf| <= RCLR_VALUE
  }

  /** Entry `i` once the frame size is set in the first entry and `j` entries are filled. */
  function AfterLoad(t: Tx, buf: seq<byte>, i: nat, j: nat): TxEntry
    requires Loadable(t, buf) && i < |t.list| && j <= Needed(|buf|)
  {
    var at := Offset(t.current, i, |t.list|);
    var e := if at == 0 then Header(t.list[i], LoadCmr(t.cmr, t.loopMode), |buf|) else t.list[i];
    if at < j then WithChunk(e, buf, at) else e
  }

  /** Loading a frame at `current`. An empty frame still writes counts into the entry there. */
  function Load(t: Tx, buf: seq<byte>): (t': Tx)
    requires Loadable(t, buf)
    ensures t'.Ok() && |t'.list| == |t.list|
  {
    var n, k := |t.list|, Needed(|buf|);
    Tx(seq(n, i requires 0 <= i < n => AfterLoad(t, buf, i, k)), At(t.current, k, n), t.current, t.used + k,
       LoadCmr(t.cmr, t.loopMode), t.loopMode)
  }

  /** Filling one more entry changes only that entry. */
  lemma AfterLoadStep(t: Tx, buf: seq<byte>, j: nat)
    requires Loadable(t, buf) && j < Needed(|buf|)
    ensures forall x :: 0 <= x < |t.list| ==>
              AfterLoad(t, buf, x, j + 1) ==
              if x != At(t.current, j, |t.list|) then AfterLoad(t, buf, x, j)
              else AfterLoad(t, buf, x, j).(count := |Chunk(buf, j)|, data := Put(t.list[x].data, Chunk(buf, j)))
    ensures AfterLoad(t, buf, At(t.current, j, |t.list|), j).data == t.list[At(t.current, j, |t.list|)].data
  {
    OffsetAt(t.current, j, |t.list|);
  }

  lemma LoadComplete(t: Tx, buf: seq<byte>, after: seq<TxEntry>)
    requires Loadable(t, buf) && |after| == |t.list|
    requires forall x :: 0 <= x < |t.list| ==> after[x] == AfterLoad(t, buf, x, Needed(|buf|))
    ensures after == Load(t, buf).list
  {
  }

  lemma TopBits(cmr: bv16, loopMode: bool)
    ensures var status := (if loopMode then cmr | 0x2000 else cmr) & 0xf000;
            && status & 0x0fff == 0 && status & 0xd000 == cmr & 0xd000
            && (status & 0x2000 != 0 <==> loopMode || cmr & 0x2000 != 0)
  {
  }

  /** The entry a frame begins in carries the frame size, and in its status word the top four bits of
      the mode register, of which bit 13 is set in loop mode. */
  lemma FrameHeader(t: Tx, buf: seq<byte>)
    requires Loadable(t, buf)
    ensures var e := Load(t, buf).list[t.current];
            && e.rcc == |buf|
            && e.status & 0x0fff == 0 && e.status & 0xd000 == t.cmr & 0xd000
            && (e.status & 0x2000 != 0 <==> t.loopMode || t.cmr & 0x2000 != 0)
  {
    FirstEntry(t, buf);
    TopBits(t.cmr, t.loopMode);
  }

  lemma FirstEntry(t: Tx, buf: seq<byte>)
    requires Loadable(t, buf)
    ensures var e := Load(t, buf).list[t.current];
            e.rcc == |buf| && e.status == (if t.loopMode then t.cmr | 0x2000 else t.cmr) & 0xf000
  {
    assert Offset(t.current, t.current, |t.list|) == 0;
  }

  // ----- what the device reads -----

  /** The bytes in `k` entries from `i` on. */
  function RingBytes(list: seq<TxEntry>, i: nat, k: nat): seq<byte>
    requires i < |list|
    requires forall x :: 0 <= x < |list| ==> |list[x].data| == BUFFER_SIZE && list[x].count <= BUFFER_SIZE
    decreases k
  {
    if k == 0 then [] else list[i].data[..list[i].count] + RingBytes(list, Next(i, |list|), k - 1)
  }

  /** The device sending a frame of `size` bytes: it follows the links from entry `i` and takes
      each entry's count until `size` bytes have gone. */
  function Walk(list: seq<TxEntry>, i: nat, size: nat): seq<byte>
    requires i < |list|
    requires forall x :: 0 <= x < |list| ==> |list[x].data| == BUFFER_SIZE && list[x].count <= BUFFER_SIZE
    decreases size
  {
    if size == 0 || list[i].count == 0 then []
    else if list[i].count >= size then list[i].data[..size]
    else list[i].data[..list[i].count] + Walk(list, Next(i, |list|), size - list[i].count)
  }

  lemma {:induction false} RingBytesSplit(t: Tx, i: nat, a: nat, b: nat, j: nat, c: nat)
    requires t.Ok() && i < |t.list| && c == a + b <= |t.list| && j == At(i, a, |t.list|)
    ensures RingBytes(t.list, i, c) == RingBytes(t.list, i, a) + RingBytes(t.list, j, b)
    decreases a
  {
    if a > 0 {
      RingBytesSplit(t, Next(i, |t.list|), a - 1, b, j, c - 1);
    }
  }

  lemma {:induction false} RingBytesSame(t: Tx, t': Tx, i: nat, k: nat)
    requires t.Ok() && t'.Ok() && |t'.list| == |t.list| && i < |t.list| && k <= |t.list|
    requires forall x :: 0 <= x < |t.list| && Offset(i, x, |t.list|) < k ==>
               t'.list[x].count == t.list[x].count && t'.list[x].data == t.list[x].data
    ensures RingBytes(t'.list, i, k) == RingBytes(t.list, i, k)
    decreases k
  {
    if k > 0 {
      var n := |t.list|;
      forall x | 0 <= x < n && Offset(Next(i, n), x, n) < k - 1 ensures Offset(i, x, n) < k {}
      RingBytesSame(t, t', Next(i, n), k - 1);
    }
  }

  lemma LoadedEntryBytes(t: Tx, buf: seq<byte>, j: nat)
    requires Loadable(t, buf) && j < Needed(|buf|)
    ensures var e := Load(t, buf).list[At(t.current, j, |t.list|)];
            e.count == |Chunk(buf, j)| && e.data[..e.count] == Chunk(buf, j)
  {
    OffsetAt(t.current, j, |t.list|);
  }

  lemma RemainderSplit(buf: seq<byte>, j: nat)
    requires j < Needed(|buf|)
    ensures Remainder(buf, j) == Chunk(buf, j) + Remainder(buf, j + 1)
  {
    RemainderStep(buf, j);
  }

  /** The entries from `base` on hold the frame, chunk by chunk. */
  ghost predicate HoldsFrame(t: Tx, base: nat, buf: seq<byte>)
    requires t.Ok() && base < |t.list| && Needed(|buf|) <= |t.list|
  {
    forall j :: 0 <= j < Needed(|buf|) ==> EntryBytes(t, At(base, j, |t.list|)) == Chunk(buf, j)
  }

  function EntryBytes(t: Tx, i: nat): seq<byte>
    requires t.Ok() && i < |t.list|
  {
    t.list[i].data[..t.list[i].count]
  }

  /** From the `j`-th of these entries on, the ring holds the rest of the frame. */
  lemma {:induction false} FrameBytes(t: Tx, base: nat, buf: seq<byte>, j: nat)
    requires t.Ok() && base < |t.list| && Needed(|buf|) <= |t.list| && HoldsFrame(t, base, buf)
    requires j <= Needed(|buf|)
    ensures RingBytes(t.list, At(base, j, |t.list|), Needed(|buf|) - j) == Remainder(buf, j)
    decreases Needed(|buf|) - j
  {
    if j < Needed(|buf|) {
      OffsetAt(base, j, |t.list|);
      FrameBytes(t, base, buf, j + 1);
      RingBytesFirst(t, At(base, j, |t.list|), Needed(|buf|) - j);
      assert EntryBytes(t, At(base, j, |t.list|)) == Chunk(buf, j);
      RemainderSplit(buf, j);
    } else {
      RemainderStep(buf, j);
    }
  }

  lemma RingBytesFirst(t: Tx, i: nat, k: nat)
    requires t.Ok() && i < |t.list| && k > 0
    ensures RingBytes(t.list, i, k) == t.list[i].data[..t.list[i].count] + RingBytes(t.list, Next(i, |t.list|), k - 1)
  {
  }

  lemma LoadedAll(t: Tx, buf: seq<byte>)
    requires Loadable(t, buf)
    ensures RingBytes(Load(t, buf).list, t.current, Needed(|buf|)) == buf
  {
    forall j | 0 <= j < Needed(|buf|)
      ensures EntryBytes(Load(t, buf), At(t.current, j, |t.list|)) == Chunk(buf, j)
    {
      LoadedEntryBytes(t, buf, j);
    }
    FrameBytes(Load(t, buf), t.current, buf, 0);
    RemainderAll(buf);
  }

  lemma RemainderAll(buf: seq<byte>)
    ensures Remainder(buf, 0) == buf
  {
    assert buf[0..] == buf;
  }

  lemma {:induction false} WalkReads(t: Tx, i: nat, k: nat)
    requires t.Ok() && i < |t.list| && k <= |t.list|
    requires forall x :: 0 <= x < |t.list| && Offset(i, x, |t.list|) < k ==> t.list[x].count > 0
    ensures Walk(t.list, i, |RingBytes(t.list, i, k)|) == RingBytes(t.list, i, k)
    decreases k
  {
    if k > 0 {
      var n := |t.list|;
      assert Offset(i, i, n) == 0;
      forall x | 0 <= x < n && Offset(Next(i, n), x, n) < k - 1 ensures Offset(i, x, n) < k {}
      WalkReads(t, Next(i, n), k - 1);
    }
  }

  /** Whatever was in the ring and wherever loading starts, the device sends exactly the loaded frame. */
  lemma SentAsLoaded(t: Tx, buf: seq<byte>)
    requires Loadable(t, buf)
    ensures var t' := Load(t, buf); Walk(t'.list, t'.start, t'.list[t'.start].rcc) == buf
  {
    var t' := Load(t, buf);
    if buf != [] {
      LoadedAll(t, buf);
      WalkReads(t', t.current, Needed(|buf|));
      assert Offset(t.current, t.current, |t.list|) == 0;
    }
  }

  // ----- the loading loop -----

  class Transmitter {
    const list: array<TxEntry>
    var current: nat
    var start: nat
    var used: int
    var cmr: bv16
    const loopMode: bool

    ghost predicate Valid()
      reads this, list
    {
      State().Ok()
    }

    ghost function State(): Tx
      reads this, list
    {
      Tx(list[..], current, start, used, cmr, loopMode)
    }

    constructor (n: nat, blank: seq<byte>, cmr: bv16, loopMode: bool)
      requires n > 0 && |blank| == BUFFER_SIZE
      ensures Valid() && fresh(list) && list.Length == n && current == 0 && start == 0 && used == 0
    {
      list := new TxEntry[n](_ => TxEntry(0, 0, 0, blank));
      current, start, used := 0, 0, 0;
      this.cmr, this.loopMode := cmr, loopMode;
    }

    /** Copies what fits of `left` into entry `i`, the `j`-th of the frame. */
    method FillEntry(i: nat, left: seq<byte>, ghost t: Tx, ghost buf: seq<byte>, ghost j: nat) returns (rest: seq<byte>)
      requires Loadable(t, buf) && |t.list| == list.Length && j < Needed(|buf|)
      requires i == At(t.current, j, |t.list|) && left == Remainder(buf, j)
      requires forall x :: 0 <= x < list.Length ==> list[x] == AfterLoad(t, buf, x, j)
      modifies list, `used
      ensures rest == Remainder(buf, j + 1) && used == old(used) + 1
      ensures forall x :: 0 <= x < list.Length ==> list[x] == AfterLoad(t, buf, x, j + 1)
    {
      AfterLoadStep(t, buf, j);
      RemainderStep(buf, j);
      var copy := if |left| > BUFFER_SIZE then BUFFER_SIZE else |left|;
      list[i] := list[i].(count := copy, data := Put(list[i].data, left[..copy]));
      used := used + 1;
      rest := left[copy..];
    }

    method LoadTxDmaBuffer(buf: seq<byte>)
      requires Valid() && Loadable(State(), buf)
      modifies this, list
      ensures Valid() && State() == Load(old(State()), buf)
    {
      var n, i := list.Length, current;
      ghost var before, base := State(), current;
      ghost var k, j: nat := Needed(|buf|), 0;
      cmr := LoadCmr(cmr, loopMode);
      start := i;
      list[i] := Header(list[i], cmr, |buf|);
      var left := buf;
      RemainderStep(buf, 0);
      RemainderAll(buf);
      while left != []
        invariant current == base && start == base && used == before.used + j && cmr == LoadCmr(before.cmr, loopMode)
        invariant j <= k && i == At(base, j, n)
        invariant left == Remainder(buf, j) && (left == [] <==> j == k)
        invariant forall x :: 0 <= x < n ==> list[x] == AfterLoad(before, buf, x, j)
        decreases k - j
      {
        left := FillEntry(i, left, before, buf, j);
        OffsetAt(base, j, n);
        RemainderStep(buf, j + 1);
        i := Next(i, n);
        j := j + 1;
      }
      current := i;
      LoadComplete(before, buf, list[..]);
    }
  }
}
