/** Raw-mode extraction: buffers are handed over one at a time, and the last buffer's length
    is recovered from the total count modulo the buffer size.
 */
module RawReceive {
  import opened Cyclic
  import opened RxRing

  /** The number of bytes the driver takes from an entry it considers complete. */
  function RawSize(e: Entry): (size: nat)
    requires EntryOk(e)
    ensures size <= BUFFER_SIZE
  {
    if e.status & (STATUS_SHORT | STATUS_OVERRUN | STATUS_CRC | STATUS_ABORT) != 0 then 0
    else
      var total := if e.status != 0 && e.rcc != 0 then RCLR_VALUE - e.rcc else BUFFER_SIZE;
      if total > BUFFER_SIZE then total % 4096 else total
  }

  function GetRaw(r: Rx): (g: Got)
    requires r.Ok()
    ensures g.rx.Ok() && |g.rx.view| == |r.view|
    ensures g.delivered.Some? ==> 0 < |g.delivered.value| <= BUFFER_SIZE
  {
    var e := r.view[0];
    assert EntryOk(e);
    if e.status != 0 || (e.count == 0 && r.view[Next(0, |r.view|)].count == 0) then
      var size := RawSize(e);
      Got(RestartIfOverflow(FreeFront(r, 1)), if size > 0 then Some(e.data[..size]) else None, true)
    else
      Got(if e.count != 0 then RestartIfOverflow(r) else r, None, false)
  }
}
