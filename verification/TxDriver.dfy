/** The raw-mode transmit functions as they are written, over the entry array and the
    holding-buffer array. Each is proved to compute its function in `TxStream`.
 */
module TxDriver {
  import opened RxRing
  import opened TxRing
  import opened TxStream
  import opened TxEffects

  class Sender {
    const tx: Transmitter
    const slots: array<seq<byte>>
    var get: nat
    var put: nat
    var held: nat
    var active: bool
    var cnt: nat
    // the device and the history
    ghost var read: nat
    ghost var occupied: nat
    ghost var acks: nat
    ghost var lost: nat
    ghost var accepted: seq<byte>
    ghost var sent: seq<byte>

    ghost predicate Valid()
      reads this, tx, tx.list, slots
    {
      tx.list as object != slots as object && Ok(State())
    }

    ghost function State(): Stream
      reads this, tx, tx.list, slots
    {
      Stream(tx.State(), slots[..], get, put, held, active, cnt, read, occupied, acks, lost, accepted, sent)
    }

    constructor (entries: nat, holding: nat, blank: seq<byte>, cmr: bv16, loopMode: bool)
      requires entries > 0 && |blank| == BUFFER_SIZE
      ensures Valid() && fresh(tx) && fresh(tx.list) && fresh(slots)
      ensures tx.list.Length == entries && slots.Length == holding && Initial(State())
    {
      var ring := new Transmitter(entries, blank, cmr, loopMode);
      tx := ring;
      slots := new seq<byte>[holding](_ => []);
      get, put, held, active, cnt := 0, 0, 0, false, 0;
      read, occupied, acks, lost, accepted, sent := 0, 0, 0, 0, [], [];
    }

    method SaveTxBufferRequest(buf: seq<byte>) returns (saved: bool)
      requires Valid() && Fits(State(), buf)
      modifies slots, `put, `held
      ensures Valid() && State() == Save(old(State()), buf)
      ensures saved == (old(held) < slots.Length)
    {
      if held >= slots.Length { return false; }
      slots[put] := buf;
      held := held + 1;
      put := put + 1;
      if put >= slots.Length { put := 0; }
      saved := true;
      assert State() == Save(old(State()), buf);
    }

    method LoadNextTxHoldingBuffer() returns (loaded: bool)
      requires Valid()
      modifies this, tx, tx.list
      ensures Valid() && State() == LoadNext(old(State()))
      ensures loaded == CanLoad(old(State()))
    {
      loaded := false;
      if held != 0 {
        var buf := slots[get];
        var free := tx.list.Length - tx.used;
        var needed := |buf| / 4096;
        if |buf| % 4096 != 0 { needed := needed + 1; }
        if needed <= free {
          cnt := |buf|;
          tx.LoadTxDmaBuffer(buf);
          held := held - 1;
          get := get + 1;
          if get >= slots.Length { get := 0; }
          occupied := occupied + needed;
          loaded := true;
        }
      }
      assert State() == LoadNext(old(State()));
    }

    /** Starts the transmitter on the frame loaded last, if `xmit_cnt` says there is one. The
        channel is reset first. */
    method StartTransmitter(ghost len: nat)
      requires Valid() && !active && FitsLength(State(), len)
      modifies this, tx.list
      ensures Valid()
      ensures var s := old(State());
              State() == if s.cnt == 0 then s
                         else s.(tx := s.tx.(list := s.tx.list[s.tx.start := s.tx.list[s.tx.start].(rcc := 0)]),
                                 active := true, read := s.tx.start, occupied := Needed(len),
                                 acks := 0, lost := s.lost + s.occupied + s.acks)
    {
      if cnt != 0 {
        lost, acks := lost + occupied + acks, 0;
        tx.list[tx.start] := tx.list[tx.start].(rcc := 0);
        read, occupied := tx.start, Needed(len);
        active := true;
      }
    }

    /** A write while the transmitter is busy waits in a holding buffer if one is free. */
    method WriteBusy(buf: seq<byte>) returns (ret: nat)
      requires Valid() && Fits(State(), buf) && active
      modifies this, tx, tx.list, slots
      ensures Valid() && State() == TxStream.Write(old(State()), buf, seq(old(cnt), _ => 0))
      ensures ret == (if old(held) < slots.Length then |buf| else 0) && accepted == old(accepted) + buf[..ret]
    {
      if held >= slots.Length { return 0; }
      ret := |buf|;
      var _ := SaveTxBufferRequest(buf);
      accepted := accepted + buf;
      var _ := LoadNextTxHoldingBuffer();
    }

    method LoadAndStart(buf: seq<byte>)
      requires Valid() && Fits(State(), buf) && !active
      modifies this, tx, tx.list
      ensures Valid() && State() == Start(old(State()), buf) && accepted == old(accepted)
    {
      cnt := |buf|;
      tx.LoadTxDmaBuffer(buf);
      StartTransmitter(|buf|);
    }

    /** A write to an idle transmitter; with `xmit_cnt` set that many bytes at `xmit_buf` go first. */
    method WriteIdle(buf: seq<byte>, memory: seq<byte>) returns (ret: nat)
      requires Valid() && Fits(State(), buf) && cnt <= |memory| && !active
      modifies this, tx, tx.list
      ensures Valid() && State() == TxStream.Write(old(State()), buf, memory)
      ensures ret == (if old(cnt) == 0 then |buf| else 0) && accepted == old(accepted) + buf[..ret]
    {
      if cnt != 0 {
        ret := 0;
        LoadAndStart(memory[..cnt]);
      } else {
        ret := |buf|;
        accepted := accepted + buf;
        LoadAndStart(buf);
      }
    }

    /** A raw-mode write; `ret` bytes are accepted. `memory` is what lies at `xmit_buf`. */
    method Write(buf: seq<byte>, memory: seq<byte>) returns (ret: nat)
      requires Valid() && Fits(State(), buf) && cnt <= |memory|
      modifies this, tx, tx.list, slots
      ensures Valid() && State() == TxStream.Write(old(State()), buf, memory)
      ensures ret == if (if old(active) then old(held) < slots.Length else old(cnt) == 0) then |buf| else 0
      ensures accepted == old(accepted) + buf[..ret]
    {
      if active {
        ret := WriteBusy(buf);
      } else {
        ret := WriteIdle(buf, memory);
      }
    }

    /** The end-of-buffer interrupt; `wake` asks for writers to be woken. */
    method IsrTransmitDma() returns (wake: bool)
      requires Valid() && acks > 0
      modifies this, tx, tx.list
      ensures Valid() && State() == Step(old(State()), EobIrq)
      ensures wake == FirstFits(Held(old(State())), tx.list.Length, old(tx.used) - 1)
    {
      tx.used := tx.used - 1;
      acks := acks - 1;
      assert State() == Acknowledge(old(State()));
      CanLoadWhen(State());
      wake := LoadNextTxHoldingBuffer();
    }

    /** The end-of-transmission interrupt, nothing being left in the ring. */
    method IsrTransmitStatus(underrun: bool)
      requires Valid() && occupied == 0
      modifies this
      ensures Valid() && State() == Step(old(State()), DoneIrq(underrun))
    {
      if underrun { lost, acks := lost + acks, 0; }
      active := false;
      cnt := 0;
    }

    /** The transmit timer. */
    method TxTimeout()
      requires Valid()
      modifies `active, `cnt
      ensures Valid() && State() == Step(old(State()), TxStream.Timeout)
    {
      active := false;
      cnt := 0;
    }
  }
}
