/** The receive functions of the driver as they are written: index loops over the entry
    array with explicit wrap-around. Each is proved to compute its function in `RxRing`.
 */
module RxDriver {
  import opened Cyclic
  import opened RxRing
  import opened RawReceive

  class Receiver {
    const list: array<Entry>
    var current: nat
    var enabled: bool
    var overflow: bool
    var underrun: bool
    var dma: Dma

    ghost predicate Valid()
      reads this, list
    {
      current < list.Length && forall i :: 0 <= i < list.Length ==> EntryOk(list[i])
    }

    ghost function State(): (r: Rx)
      requires Valid()
      reads this, list
      ensures r.Ok()
    {
      Rx(Rotate(list[..], current), current, enabled, overflow, underrun, dma)
    }

    constructor (n: nat, blank: seq<byte>)
      requires n > 0 && |blank| == BUFFER_SIZE
      ensures Valid() && fresh(list) && list.Length == n
      ensures forall i :: 0 <= i < n ==> Free(list[i])
      ensures current == 0 && !enabled && !overflow && !underrun && dma == Dma(Halted, 0, false, false)
    {
      list := new Entry[n](_ => Entry(BUFFER_SIZE, 0, 0, blank));
      current, enabled, overflow, underrun := 0, false, false, false;
      dma := Dma(Halted, 0, false, false);
    }

    method ResetRxDmaBuffers()
      requires Valid()
      modifies list, `current
      ensures Valid() && State() == ResetRing(old(State()))
    {
      ghost var before := list[..];
      var i := 0;
      while i < list.Length
        invariant i <= list.Length && current == old(current)
        invariant forall j :: 0 <= j < i ==> list[j] == Freed(before[j])
        invariant forall j :: i <= j < list.Length ==> list[j] == before[j]
      {
        list[i] := Freed(list[i]);
        i := i + 1;
      }
      FreedHome(before, list[..], current);
      current := 0;
    }

    method StopReceiver()
      requires Valid()
      modifies `enabled, `overflow, `underrun, `dma
      ensures Valid() && State() == RxRing.StopReceiver(old(State()))
    {
      dma := dma.(phase := Halted, irq := false, eol := false);
      enabled := false;
      overflow := false;
      underrun := false;
    }

    method StartReceiver()
      requires Valid()
      modifies this, list
      ensures Valid() && State() == RxRing.StartReceiver(old(State()))
    {
      ResetRxDmaBuffers();
      StopReceiver();
      dma := dma.(phase := Hunting, entry := 0);
      enabled := true;
    }

    /** Frees the cyclic range from `start` to `end`, both included, and moves past it. */
    method FreeRxFrameBuffers(start: nat, end: nat)
      requires Valid() && start < list.Length && end < list.Length
      modifies list, `current
      ensures Valid() && current == Next(end, list.Length)
      ensures FreedBetween(old(list[..]), list[..], start, 0, Offset(start, end, list.Length) + 1)
    {
      var n := list.Length;
      ghost var before, k, c := list[..], Offset(start, end, n), 0;
      var index, done := start, false;
      while !done
        invariant c <= k + 1 && index == At(start, c, n)
        invariant done <==> c == k + 1
        invariant FreedBetween(before, list[..], start, 0, c)
        decreases k + 1 - c
      {
        OffsetAt(start, c, n);
        FreedOneMore(before, list[..], start, 0, c);
        if index == end { done := true; }
        list[index] := Freed(list[index]);
        index := Next(index, n);
        c := c + 1;
      }
      FreedOk(before, list[..], start, 0, c);
      current := index;
    }

    /** Looks for the last entry of the frame at `current`. */
    method FindFrameEnd() returns (scan: Scan, end: nat)
      requires Valid()
      ensures scan == ScanFrom(State().view, 0) && end < list.Length
      ensures scan.Found? ==> end == At(current, scan.last, list.Length)
      ensures scan.Unused? ==> list[end].status == 0 && list[end].count != 0
    {
      var n, start := list.Length, current;
      ghost var view := State().view;
      var k: nat := 0;
      end := current;
      while list[end].status == 0
        invariant k < n && end == At(start, k, n)
        invariant ScanFrom(view, 0) == ScanFrom(view, k)
        decreases n - k
      {
        if list[end].count != 0 {
          return Unused(k), end;
        }
        OffsetAt(start, k, n);
        end := Next(end, n);
        k := k + 1;
        if end == start {
          return Exhausted, end;
        }
      }
      scan := Found(k);
    }

    method GetRxFrame(p: Params) returns (more: bool, delivered: Option<seq<byte>>)
      requires Valid()
      modifies this, list
      ensures Valid() && Got(State(), delivered, more) == GetFrame(old(State()), p)
    {
      more, delivered := false, None;
      var start := current;
      var scan, end := FindFrameEnd();
      if scan.Found? {
        delivered := TakeFound(start, end, scan.last, p);
        more := true;
      } else {
        NoFrame(scan, end);
      }
    }

    /** The scan met an unused entry, or made a full turn, which restarts an enabled receiver. */
    method NoFrame(scan: Scan, end: nat)
      requires Valid() && end < list.Length && !scan.Found?
      requires scan.Unused? ==> list[end].status == 0 && list[end].count != 0
      modifies this, list
      ensures Valid()
      ensures State() == if scan.Unused? then RestartIfOverflow(old(State()))
                         else if old(enabled) then RxRing.StartReceiver(old(State())) else old(State())
    {
      if scan.Exhausted? {
        if enabled { StartReceiver(); }
      } else {
        RestartIfEmptied(end);
      }
    }

    /** A complete frame was found: it is taken, and then the entry it ended in looks empty. */
    method TakeFound(start: nat, end: nat, ghost last: nat, p: Params) returns (delivered: Option<seq<byte>>)
      requires Valid() && start == current && last < list.Length && end == At(start, last, list.Length)
      modifies this, list
      ensures Valid() && State() == RestartIfOverflow(FreeFront(old(State()), last + 1))
      ensures delivered == Delivery(old(State()), last, p)
    {
      OffsetAt(start, last, list.Length);
      delivered := TakeFrame(start, end, p);
      RestartIfEmptied(end);
    }

    /** Reads the frame from `start` to `end` and frees its entries. */
    method TakeFrame(start: nat, end: nat, p: Params) returns (delivered: Option<seq<byte>>)
      requires Valid() && start == current && end < list.Length
      modifies list, `current
      ensures Valid() && Free(list[end])
      ensures var last := Offset(start, end, list.Length);
              State() == FreeFront(old(State()), last + 1) && delivered == Delivery(old(State()), last, p)
    {
      delivered := ReadFrame(start, end, p);
      FreeFrame(start, end);
    }

    /** Frees the entries of the frame at `current`. */
    method FreeFrame(start: nat, end: nat)
      requires Valid() && start == current && end < list.Length
      modifies list, `current
      ensures Valid() && Free(list[end])
      ensures State() == FreeFront(old(State()), Offset(start, end, list.Length) + 1)
    {
      ghost var before, entries := State(), list[..];
      FreeRxFrameBuffers(start, end);
      FrameFreed(before, entries, list[..], end, Offset(start, end, list.Length) + 1);
      assert list[end] == Freed(entries[end]);
    }

    /** The check at the end of an extraction, on the entry the scan stopped at. */
    method RestartIfEmptied(end: nat)
      requires Valid() && end < list.Length
      modifies this, list
      ensures Valid()
      ensures State() == if old(list[end].status == 0 && list[end].count != 0)
                         then RestartIfOverflow(old(State())) else old(State())
    {
      if enabled && overflow {
        if list[end].status == 0 && list[end].count != 0 {
          StartReceiver();
        }
      }
    }

    /** Reads the buffer at `current` and frees its entry. */
    method TakeBuffer(index: nat) returns (delivered: Option<seq<byte>>)
      requires Valid() && index == current
      modifies list, `current
      ensures Valid() && Free(list[index]) && State() == FreeFront(old(State()), 1)
      ensures var e := old(list[index]);
              EntryOk(e) && delivered == if RawSize(e) > 0 then Some(e.data[..RawSize(e)]) else None
    {
      delivered := None;
      var size := RawSize(list[index]);
      if size > 0 { delivered := Some(list[index].data[..size]); }
      FreeFrame(index, index);
    }

    /** Extraction in raw mode: at most one buffer at a time. */
    method GetRawRxFrame() returns (more: bool, delivered: Option<seq<byte>>)
      requires Valid()
      modifies this, list
      ensures Valid() && Got(State(), delivered, more) == GetRaw(old(State()))
    {
      more, delivered := false, None;
      var n, index := list.Length, current;
      var next := Next(index, n);
      if list[index].status != 0 || (list[index].count == 0 && list[next].count == 0) {
        delivered := TakeBuffer(index);
        more := true;
      }
      RestartIfEmptied(index);
    }

    /** Checks the frame's status and size and copies it out. */
    method ReadFrame(start: nat, end: nat, p: Params) returns (delivered: Option<seq<byte>>)
      requires Valid() && start == current && end < list.Length
      ensures delivered == Delivery(State(), Offset(start, end, list.Length), p)
    {
      delivered := None;
      var status := list[end].status;
      var size := FrameSize(status, list[end].rcc, p);
      if size > 0 {
        if !((ReturnsEx(p) && size + 1 > p.maxFrame) || size > p.maxFrame) {
          var buffer := CopyFrame(start, size);
          delivered := Some(buffer + StatusByte(status, p));
        }
      }
    }

    /** The copy loop into the contiguous intermediate buffer. */
    method CopyFrame(start: nat, size: nat) returns (buffer: seq<byte>)
      requires Valid() && start == current
      ensures buffer == CopyOut(State().view, 0, size)
    {
      var n := list.Length;
      ghost var view, k: nat := State().view, 0;
      ghost var all := CopyOut(view, 0, size);
      var left: nat, index := size, start;
      buffer := [];
      while left != 0
        invariant k < n && index == At(start, k, n)
        invariant left <= size
        invariant Copied(view, all, buffer, k, left)
        decreases left
      {
        var part := if left > BUFFER_SIZE then BUFFER_SIZE else left;
        OffsetAt(start, k, n);
        RotateAt(list[..], start, k);
        CopiedMore(view, all, buffer, k, left, part);
        buffer := buffer + list[index].data[..part];
        left := left - part;
        index := Next(index, n);
        k := Next(k, n);
      }
    }

    /** The scan for a run of used entries: it stops at an unused entry or after a full turn. */
    method ScanUsedEntries()
      returns (full: bool, startFound: bool, endFound: bool, frameStart: nat, end: nat, ghost k: nat, ghost s: nat)
      requires Valid()
      ensures frameStart < list.Length && end < list.Length && ScannedTo(State().view, k, s)
      ensures full <==> k == list.Length
      ensures !full ==> end == At(current, k, list.Length) && list[end].count != 0
      ensures (startFound <==> s < k) && (startFound ==> !endFound && frameStart == At(current, s, list.Length))
    {
      var n, start := list.Length, current;
      ghost var view := State().view;
      k, s := 0, 0;
      startFound, endFound := false, false;
      full, frameStart, end := false, current, current;
      while list[end].count == 0
        invariant k < n && end == At(start, k, n) && frameStart < n
        invariant ScannedTo(view, k, s)
        invariant (startFound <==> s < k) && (startFound ==> !endFound && frameStart == At(start, s, n))
        decreases n - k
      {
        OffsetAt(start, k, n);
        RotateAt(list[..], start, k);
        ScanNext(view, k, s);
        if list[end].status != 0 { s := k + 1; }
        if !startFound {
          startFound := true;
          frameStart := end;
          endFound := false;
        }
        if list[end].status != 0 {
          startFound := false;
          endFound := true;
        }
        end := Next(end, n);
        k := k + 1;
        if start == end {
          full := true;
          break;
        }
      }
    }

    /** Searches for a run of used entries without a terminating status. */
    method FindUnfinishedRun()
      returns (full: bool, unfinished: bool, frameStart: nat, end: nat, ghost e: nat, ghost s: nat)
      requires Valid()
      ensures frameStart < list.Length && end < list.Length
      ensures e == FirstUnused(State().view, 0) && s == RunStart(State().view, e)
      ensures full <==> e == list.Length
      ensures !full ==> end == At(current, e, list.Length) && (unfinished <==> s < e)
      ensures !full && unfinished ==> frameStart == At(current, s, list.Length)
    {
      var startFound, endFound;
      full, startFound, endFound, frameStart, end, e, s := ScanUsedEntries();
      assert !full ==> State().view[e] == list[end];
      ScanResult(State().view, e, s);
      unfinished := startFound && !endFound;
    }

    method ProcessRxOverrun()
      requires Valid()
      modifies list, `current, `dma
      ensures Valid() && State() == RecoverOverrun(old(State()))
    {
      var reprogram := false;
      var full, unfinished, frameStart, end, e, s := FindUnfinishedRun();
      if full {
        ResetRxDmaBuffers();
        frameStart := 0;
        reprogram := true;
      } else if unfinished {
        FreeRange(current, frameStart, end, s, e);
        reprogram := true;
      }
      if reprogram {
        dma := dma.(phase := Hunting, entry := frameStart);
      } else if dma.phase.Hunting? {
        dma := dma.(phase := Paused);
      }
    }

    /** The `do` loop that frees an unfinished run. */
    method FreeRange(base: nat, from: nat, end: nat, ghost s: nat, ghost k: nat)
      requires Valid() && base < list.Length && s < k < list.Length
      requires from == At(base, s, list.Length) && end == At(base, k, list.Length)
      modifies list
      ensures Valid() && Rotate(list[..], base) == Replace(old(Rotate(list[..], base)), s, k)
    {
      var n, index := list.Length, from;
      ghost var before, c := list[..], s;
      var done := false;
      while !done
        invariant s <= c <= k && index == At(base, c, n)
        invariant done <==> c == k
        invariant FreedBetween(before, list[..], base, s, c)
        decreases k - c
      {
        OffsetAt(base, c, n);
        FreedOneMore(before, list[..], base, s, c);
        list[index] := Freed(list[index]);
        index := Next(index, n);
        c := c + 1;
        if index == end { done := true; }
      }
      FreedOk(before, list[..], base, s, k);
      FreedRange(before, list[..], base, s, k);
    }
  }

  lemma CopyStep(view: seq<Entry>, k: nat, left: nat, part: nat)
    requires k < |view| && forall i :: 0 <= i < |view| ==> EntryOk(view[i])
    requires left > 0 && part == if left > BUFFER_SIZE then BUFFER_SIZE else left
    ensures EntryOk(view[k])
    ensures CopyOut(view, k, left) == view[k].data[..part] + CopyOut(view, Next(k, |view|), left - part)
  {
    assert EntryOk(view[k]) && view[k].data[..BUFFER_SIZE] == view[k].data;
  }

  /** `buffer` is what has been copied of `all`, `left` bytes from entry `k` on being still to come. */
  ghost predicate Copied(view: seq<Entry>, all: seq<byte>, buffer: seq<byte>, k: nat, left: nat) {
    k < |view| && (forall i :: 0 <= i < |view| ==> EntryOk(view[i])) && all == buffer + CopyOut(view, k, left)
  }

  lemma CopiedMore(view: seq<Entry>, all: seq<byte>, buffer: seq<byte>, k: nat, left: nat, part: nat)
    requires Copied(view, all, buffer, k, left)
    requires left > 0 && part == if left > BUFFER_SIZE then BUFFER_SIZE else left
    ensures EntryOk(view[k]) && Copied(view, all, buffer + view[k].data[..part], Next(k, |view|), left - part)
  {
    CopyStep(view, k, left, part);
  }

  /** Freeing every entry, seen from index 0. */
  lemma FreedHome(before: seq<Entry>, after: seq<Entry>, c: nat)
    requires |before| == |after| && c < |before|
    requires forall i :: 0 <= i < |before| ==> after[i] == Freed(before[i])
    ensures Rotate(after, 0) == FreeAll(Rotate(Rotate(before, c), |before| - c))
  {
    RotateHome(before, c);
    assert after == FreeAll(before);
  }

  /** The entries `s` to `e` places after `base` are freed, the others are as before. */
  ghost predicate FreedBetween(before: seq<Entry>, after: seq<Entry>, base: nat, s: nat, e: nat)
    requires base < |before|
  {
    && |after| == |before|
    && forall i :: 0 <= i < |before| ==>
         after[i] == if s <= Offset(base, i, |before|) < e then Freed(before[i]) else before[i]
  }

  lemma FreedOneMore(before: seq<Entry>, after: seq<Entry>, base: nat, s: nat, e: nat)
    requires base < |before| && s <= e < |before| && FreedBetween(before, after, base, s, e)
    ensures var i := At(base, e, |before|);
            FreedBetween(before, after[i := Freed(after[i])], base, s, e + 1)
  {
    OffsetAt(base, e, |before|);
  }

  lemma FreedOk(before: seq<Entry>, after: seq<Entry>, base: nat, s: nat, e: nat)
    requires base < |before| && FreedBetween(before, after, base, s, e)
    requires forall i :: 0 <= i < |before| ==> EntryOk(before[i])
    ensures forall i :: 0 <= i < |after| ==> EntryOk(after[i])
  {
  }

  /** Seen from `base`, a contiguous part of the view was replaced. */
  lemma FreedRange(before: seq<Entry>, after: seq<Entry>, base: nat, s: nat, e: nat)
    requires base < |before| && s <= e <= |before| && FreedBetween(before, after, base, s, e)
    ensures Rotate(after, base) == Replace(Rotate(before, base), s, e)
  {
    forall k | 0 <= k < |before| ensures Rotate(after, base)[k] == Replace(Rotate(before, base), s, e)[k] {
      OffsetAt(base, k, |before|);
    }
  }

  /** Freeing the front of the view and moving `current` past it. */
  lemma FreedView(list: seq<Entry>, start: nat, k: nat, before: seq<Entry>)
    requires start < |list| && k <= |list| == |before|
    requires Rotate(list, start) == Replace(before, 0, k)
    ensures Rotate(list, At(start, k, |list|)) == before[k..] + FreeAll(before[..k])
  {
    RotateTwice(list, start, k);
  }

  lemma FrontFreed(r: Rx, view: seq<Entry>, k: nat, cur: nat)
    requires r.Ok() && k <= |r.view| && cur == At(r.cur, k, |r.view|)
    requires view == r.view[k..] + FreeAll(r.view[..k])
    ensures r.(view := view, cur := cur) == FreeFront(r, k)
  {
  }

  /** Freeing the entries from `cur` to `end`, with `current` moving past them. */
  lemma FrameFreed(r: Rx, before: seq<Entry>, after: seq<Entry>, end: nat, k: nat)
    requires r.Ok() && end < |before| == |r.view| && k == Offset(r.cur, end, |before|) + 1
    requires r.view == Rotate(before, r.cur) && FreedBetween(before, after, r.cur, 0, k)
    ensures r.(view := Rotate(after, Next(end, |before|)), cur := Next(end, |before|)) == FreeFront(r, k)
  {
    OffsetAt(r.cur, k - 1, |before|);
    FreedRange(before, after, r.cur, 0, k);
    FreedView(after, r.cur, k, r.view);
    FrontFreed(r, Rotate(after, Next(end, |before|)), k, Next(end, |before|));
  }

  /** The first `k` entries are used, and the run of them that no status ends starts at `s`. */
  ghost predicate ScannedTo(view: seq<Entry>, k: nat, s: nat) {
    && s <= k <= |view|
    && (forall i :: 0 <= i < k ==> view[i].count == 0)
    && (forall i :: s <= i < k ==> view[i].status == 0)
    && (s > 0 ==> view[s - 1].status != 0)
  }

  lemma ScanNext(view: seq<Entry>, k: nat, s: nat)
    requires ScannedTo(view, k, s) && k < |view| && view[k].count == 0
    ensures ScannedTo(view, k + 1, if view[k].status != 0 then k + 1 else s)
  {
  }

  lemma ScanResult(view: seq<Entry>, k: nat, s: nat)
    requires ScannedTo(view, k, s) && (k < |view| ==> view[k].count != 0)
    ensures FirstUnused(view, 0) == k && RunStart(view, k) == s
  {
    UnusedFrom(view, k);
    RunStartAt(view, k, s);
  }

  lemma RunStartAt(view: seq<Entry>, e: nat, s: nat)
    requires s <= e <= |view| && forall i :: s <= i < e ==> view[i].status == 0
    requires s > 0 ==> view[s - 1].status != 0
    ensures s == RunStart(view, e)
  {
  }

  lemma {:induction false} UnusedFrom(view: seq<Entry>, k: nat)
    requires k <= |view| && forall i :: 0 <= i < k ==> view[i].count == 0
    requires k < |view| ==> view[k].count != 0
    ensures FirstUnused(view, 0) == k
  {
  }
}
