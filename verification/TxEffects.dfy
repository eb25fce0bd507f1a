/** What each single step of raw-mode transmission does: when a write is accepted, when a waiting
    write is loaded, and what the interrupts and the timer leave behind.
 */
module TxEffects {
  import opened Cyclic
  import opened RxRing
  import opened TxRing
  import opened TxStream

  /** A write is accepted exactly if a busy transmitter has a holding buffer free, or an idle one
      has no count left over. */
  predicate Takes(s: Stream) {
    if s.active then s.held < |s.slots| else s.cnt == 0
  }

  lemma WriteAccepted(s: Stream, buf: seq<byte>, memory: seq<byte>)
    requires Ok(s) && Fits(s, buf) && s.cnt <= |memory|
    ensures Write(s, buf, memory).accepted == if Takes(s) then s.accepted + buf else s.accepted
    ensures Write(s, buf, memory).sent == s.sent
  {
  }

  /** The oldest of the waiting writes `q` finds enough free entries when `used` are counted. */
  predicate FirstFits(q: seq<seq<byte>>, n: nat, used: int) {
    q != [] && (|q[0]| + 4095) / 4096 <= n - used
  }

  lemma NeededIs(len: nat)
    ensures Needed(len) == (len + 4095) / 4096
  {
  }

  lemma CanLoadWhen(s: Stream)
    requires Ok(s)
    ensures CanLoad(s) <==> FirstFits(Held(s), |s.tx.list|, s.tx.used)
  {
    if s.held > 0 {
      HeldHead(s);
      NeededIs(|Held(s)[0]|);
    }
  }

  /** The oldest waiting write leaves the queue if it fits, and otherwise nothing happens. */
  lemma OldestLoaded(s: Stream)
    requires Ok(s)
    ensures var s' := LoadNext(s);
            if FirstFits(Held(s), |s.tx.list|, s.tx.used)
            then Held(s') == Held(s)[1..] && s'.tx.used == s.tx.used + Needed(|Held(s)[0]|) && s'.cnt == |Held(s)[0]|
            else s' == s
    ensures LoadNext(s).active == s.active && LoadNext(s).acks == s.acks && LoadNext(s).sent == s.sent
  {
    if s.held > 0 {
      HeldHead(s);
      NeededIs(|Held(s)[0]|);
    }
  }

  /** It then stands in the ring behind everything loaded before. */
  lemma LoadedBehind(s: Stream)
    requires Counted(s) && FirstFits(Held(s), |s.tx.list|, s.tx.used) && !EmptyIntoFull(s)
    ensures InRing(LoadNext(s)) == InRing(s) + Held(s)[0]
  {
    HeldHead(s);
    NeededIs(|Held(s)[0]|);
    LoadNextRing(s);
  }

  lemma SavedLast(s: Stream, buf: seq<byte>)
    requires Ok(s) && Fits(s, buf) && s.held < |s.slots|
    ensures var s' := Save(s, buf).(accepted := s.accepted + buf);
            Ok(s') && Held(s') == Held(s) + [buf] && s'.tx == s.tx && s'.active == s.active
  {
    var saved := Save(s, buf);
    assert Held(saved.(accepted := s.accepted + buf)) == Held(saved);
  }

  /** A write to a busy transmitter waits behind all earlier ones, of which the oldest is then loaded
      if it fits; without a free holding buffer nothing changes. */
  lemma BusyWriteQueues(s: Stream, buf: seq<byte>, memory: seq<byte>)
    requires Ok(s) && Fits(s, buf) && s.cnt <= |memory| && s.active
    ensures var s', q := Write(s, buf, memory), Held(s) + [buf];
            if s.held >= |s.slots| then s' == s
            else s'.active && Held(s') == if FirstFits(q, |s.tx.list|, s.tx.used) then q[1..] else q
  {
    if s.held < |s.slots| {
      SavedLast(s, buf);
      OldestLoaded(Save(s, buf).(accepted := s.accepted + buf));
    }
  }

  /** A non-empty write to an idle transmitter is in the ring and on its way. */
  lemma IdleWriteStarts(s: Stream, buf: seq<byte>, memory: seq<byte>)
    requires Tallied(s) && Fits(s, buf) && !s.active && s.cnt == 0 && buf != []
    ensures var s' := Write(s, buf, memory);
            && s'.active && s'.cnt == |buf| && s'.read == s.tx.current && InRing(s') == buf && Held(s') == Held(s)
            && s'.tx.start == s.tx.current && s'.tx.list[s.tx.current].rcc == 0
  {
    var t := s.(accepted := s.accepted + buf);
    assert Held(t) == Held(s);
    StartRing(t, buf);
  }

  /** An empty write only clears the count and the frame size of the entry at `current`. */
  lemma IdleEmptyWrite(s: Stream, memory: seq<byte>)
    requires Ok(s) && !s.active && s.cnt == 0
    ensures var s', i := Write(s, [], memory), s.tx.current;
            && !s'.active && s'.accepted == s.accepted && s'.tx.current == i && s'.tx.used == s.tx.used
            && s'.tx.list[i].count == 0 && s'.tx.list[i].rcc == 0
            && forall x :: 0 <= x < |s.tx.list| && x != i ==> s'.tx.list[x] == s.tx.list[x]
  {
    assert s.accepted + [] == s.accepted;
    assert Offset(s.tx.current, s.tx.current, |s.tx.list|) == 0;
  }

  /** With a count left over, that many bytes of memory are on their way instead. */
  lemma StaleWriteStarts(s: Stream, buf: seq<byte>, memory: seq<byte>)
    requires Tallied(s) && Fits(s, buf) && !s.active && 0 < s.cnt <= |memory|
    ensures var s' := Write(s, buf, memory);
            s'.active && InRing(s') == memory[..s.cnt] && Held(s') == Held(s) && s'.accepted == s.accepted
  {
    StartRing(s, memory[..s.cnt]);
  }

  /** An end-of-buffer interrupt takes one acknowledgement off the count and then tries the oldest
      waiting write. */
  lemma EobEffect(s: Stream)
    requires Ok(s) && s.acks > 0
    ensures var s', n := Step(s, EobIrq), |s.tx.list|;
            && s'.acks == s.acks - 1 && s'.active == s.active && s'.sent == s.sent
            && if FirstFits(Held(s), n, s.tx.used - 1)
               then Held(s') == Held(s)[1..] && s'.tx.used == s.tx.used - 1 + Needed(|Held(s)[0]|)
               else Held(s') == Held(s) && s'.tx.used == s.tx.used - 1
  {
    OldestLoaded(Acknowledge(s));
  }

  /** The end of transmission makes the transmitter idle and forgets outstanding acknowledgements
      only if it was an underrun. */
  lemma DoneEffect(s: Stream, reset: bool)
    requires Ok(s) && s.occupied == 0
    ensures var s' := Step(s, DoneIrq(reset));
            && !s'.active && s'.cnt == 0 && Held(s') == Held(s) && s'.tx == s.tx
            && s'.acks == if reset then 0 else s.acks
  {
    assert Held(Step(s, DoneIrq(reset))) == Held(s);
  }

  /** The timer makes the transmitter idle, whatever is left to send. */
  lemma TimeoutEffect(s: Stream)
    requires Ok(s)
    ensures Step(s, Timeout) == s.(active := false, cnt := 0)
  {
  }
}
