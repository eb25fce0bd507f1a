/** Raw-mode streaming: writes go into the transmit ring or wait in a circular set of holding
    buffers, and each end-of-buffer interrupt frees an entry and loads the next waiting write.
    The end-of-transmission interrupt may be served before end-of-buffer interrupts still
    outstanding, it may come while writes wait, and the transmit timer may fire at any time.
 */
module TxStream {
  import opened Cyclic
  import opened RxRing
  import opened TxRing

  /** The transmit side. `slots` are the holding buffers, `held` of them in use from `get` on;
      `cnt` is `xmit_cnt`. `read` is the entry the device sends next, `occupied` how many loaded
      entries it has not sent, `acks` how many sent entries have their interrupt still to be
      served, `lost` how many entries were in neither state any more when the channel was reset.
      `accepted` and `sent` record the bytes of accepted writes and the bytes the device has sent. */
  datatype Stream = Stream(tx: Tx, slots: seq<seq<byte>>, get: nat, put: nat, held: nat, active: bool, cnt: nat,
                           read: nat, occupied: nat, acks: nat, lost: nat, accepted: seq<byte>, sent: seq<byte>)

  predicate Fits(s: Stream, buf: seq<byte>) {
    FitsLength(s, |buf|)
  }

  predicate FitsLength(s: Stream, len: nat) {
    Needed(len) <= |s.tx.list| && len <= RCLR_VALUE
  }

  predicate Ok(s: Stream) {
    && s.tx.Ok() && s.read < |s.tx.list| && FitsLength(s, s.cnt)
    && s.held <= |s.slots|
    && (|s.slots| > 0 ==> s.get < |s.slots| && s.put == At(s.get, s.held, |s.slots|))
    && forall i :: 0 <= i < |s.slots| ==> Fits(s, s.slots[i])
  }

  /** Index of the next holding buffer. */
  function Bump(i: nat, n: nat): nat {
    if i + 1 >= n then 0 else i + 1
  }

  /** The waiting writes, oldest first. */
  function Held(s: Stream): (q: seq<seq<byte>>)
    requires Ok(s)
  {
    seq(s.held, j requires 0 <= j < s.held => s.slots[At(s.get, j, |s.slots|)])
  }

  function Save(s: Stream, buf: seq<byte>): (s': Stream)
    requires Ok(s) && Fits(s, buf)
    ensures Ok(s')
    ensures s.held < |s.slots| ==> Held(s') == Held(s) + [buf]
  {
    if s.held >= |s.slots| then s
    else s.(slots := s.slots[s.put := buf], held := s.held + 1, put := Bump(s.put, |s.slots|))
  }

  /** Whether the oldest waiting write fits into the free entries, as the driver counts them. */
  predicate CanLoad(s: Stream)
    requires Ok(s)
  {
    s.held > 0 && Needed(|s.slots[s.get]|) <= |s.tx.list| - s.tx.used
  }

  function LoadNext(s: Stream): (s': Stream)
    requires Ok(s)
    ensures Ok(s')
    ensures Held(s') == if CanLoad(s) then Held(s)[1..] else Held(s)
  {
    if !CanLoad(s) then s
    else
      var buf := s.slots[s.get];
      s.(tx := Load(s.tx, buf), held := s.held - 1, get := Bump(s.get, |s.slots|), cnt := |buf|,
         occupied := s.occupied + Needed(|buf|))
  }

  /** Loading `buf` on an idle transmitter and, unless it is empty, starting it. The start resets
      the channel: interrupts still outstanding are gone, and so is what was left to send. */
  function Start(s: Stream, buf: seq<byte>): (s': Stream)
    requires Ok(s) && Fits(s, buf)
    ensures Ok(s')
  {
    var tx := Load(s.tx, buf);
    if buf == [] then s.(tx := tx, cnt := 0)
    else
      s.(tx := tx.(list := tx.list[tx.start := tx.list[tx.start].(rcc := 0)]), cnt := |buf|, active := true,
         read := tx.start, occupied := Needed(|buf|), acks := 0, lost := s.lost + s.occupied + s.acks)
  }

  /** A write, accepted whole or not at all. An idle transmitter with `xmit_cnt` set refuses it
      and sends that many bytes of `memory`, what lies at `xmit_buf`, instead. */
  function Write(s: Stream, buf: seq<byte>, memory: seq<byte>): (s': Stream)
    requires Ok(s) && Fits(s, buf) && s.cnt <= |memory|
    ensures Ok(s')
  {
    if s.active then
      if s.held >= |s.slots| then s
      else LoadNext(Save(s, buf).(accepted := s.accepted + buf))
    else if s.cnt > 0 then Start(s, memory[..s.cnt])
    else Start(s.(accepted := s.accepted + buf), buf)
  }

  // ----- steps -----

  datatype Action =
    | Submit(buf: seq<byte>, memory: seq<byte>)  // a write
    | Sent                    // device: one entry has been sent
    | EobIrq                  // ISR for the transmit DMA channel
    | DoneIrq(reset: bool)    // ISR for end of transmission, nothing being left in the ring; an
                              // underrun makes it reset the channel
    | Timeout                 // the transmit timer

  function Acknowledge(s: Stream): (s': Stream)
    requires Ok(s) && s.acks > 0
    ensures Ok(s') && Held(s') == Held(s)
  {
    s.(tx := s.tx.(used := s.tx.used - 1), acks := s.acks - 1)
  }

  function Step(s: Stream, a: Action): (s': Stream)
    requires Ok(s)
    ensures Ok(s')
  {
    match a
    case Submit(buf, memory) => if Fits(s, buf) && s.cnt <= |memory| then Write(s, buf, memory) else s
    case Sent =>
      if s.occupied > 0 then
        s.(sent := s.sent + RingBytes(s.tx.list, s.read, 1), read := Next(s.read, |s.tx.list|),
           occupied := s.occupied - 1, acks := s.acks + 1)
      else s
    case EobIrq =>
      if s.acks > 0 then LoadNext(Acknowledge(s)) else s
    case DoneIrq(reset) =>
      if s.occupied > 0 then s
      else if reset then s.(active := false, cnt := 0, acks := 0, lost := s.lost + s.acks)
      else s.(active := false, cnt := 0)
    case Timeout => s.(active := false, cnt := 0)
  }

  function Run(s: Stream, actions: seq<Action>): (s': Stream)
    requires Ok(s)
    ensures Ok(s')
    decreases |actions|
  {
    if actions == [] then s else Run(Step(s, actions[0]), actions[1..])
  }

  // ----- conservation -----

  function Flatten(q: seq<seq<byte>>): seq<byte> {
    if q == [] then [] else q[0] + Flatten(q[1..])
  }

  lemma {:induction false} FlattenAppend(q: seq<seq<byte>>, b: seq<byte>)
    ensures Flatten(q + [b]) == Flatten(q) + b
  {
    if q == [] {
      assert q + [b] == [b];
      assert [b][1..] == [];
    } else {
      assert (q + [b])[1..] == q[1..] + [b];
      FlattenAppend(q[1..], b);
    }
  }

  /** The bytes loaded and not yet sent. */
  function InRing(s: Stream): seq<byte>
    requires Ok(s)
  {
    RingBytes(s.tx.list, s.read, s.occupied)
  }

  /** Accepted bytes are sent bytes, then ring bytes, then waiting bytes, in order. */
  ghost predicate Conserved(s: Stream) {
    Ok(s) && s.accepted == s.sent + InRing(s) + Flatten(Held(s))
  }

  /** The driver's count is the entries not yet sent, those sent and not yet acknowledged, and
      those whose acknowledgement was lost. */
  ghost predicate Tallied(s: Stream) {
    && Ok(s)
    && s.tx.used == s.occupied + s.acks + s.lost
    && s.occupied <= |s.tx.list|
    && s.tx.current == At(s.read, s.occupied, |s.tx.list|)
  }

  /** And every entry still to be sent has something to send. */
  ghost predicate Counted(s: Stream) {
    && Tallied(s)
    && (forall x :: 0 <= x < |s.tx.list| && Offset(s.read, x, |s.tx.list|) < s.occupied ==> s.tx.list[x].count > 0)
  }

  ghost predicate Inv(s: Stream) {
    Counted(s) && Conserved(s)
  }

  /** Loading at `current` does not touch the entries the device has still to send. */
  lemma LoadApart(s: Stream, buf: seq<byte>)
    requires Tallied(s) && Fits(s, buf) && s.occupied + Needed(|buf|) <= |s.tx.list|
    requires buf != [] || s.occupied < |s.tx.list|
    ensures var n, tx' := |s.tx.list|, Load(s.tx, buf);
            && tx'.current == At(s.read, s.occupied + Needed(|buf|), n)
            && forall x :: 0 <= x < n && Offset(s.read, x, n) < s.occupied ==> tx'.list[x] == s.tx.list[x]
  {
    var n := |s.tx.list|;
    forall x | 0 <= x < n && Offset(s.read, x, n) < s.occupied
      ensures Offset(s.tx.current, x, n) == Offset(s.read, x, n) + n - s.occupied
    {
    }
  }

  /** Loading at `current` puts the frame right behind what the device has still to send. */
  lemma LoadBehind(s: Stream, buf: seq<byte>)
    requires Tallied(s) && Fits(s, buf) && s.occupied + Needed(|buf|) <= |s.tx.list|
    requires buf != [] || s.occupied < |s.tx.list|
    ensures RingBytes(Load(s.tx, buf).list, s.read, s.occupied + Needed(|buf|)) == InRing(s) + buf
  {
    var tx', k := Load(s.tx, buf), Needed(|buf|);
    LoadApart(s, buf);
    RingBytesSplit(tx', s.read, s.occupied, k, s.tx.current, s.occupied + k);
    RingBytesSame(s.tx, tx', s.read, s.occupied);
    LoadedAll(s.tx, buf);
  }

  lemma LoadCounts(s: Stream, buf: seq<byte>)
    requires Counted(s) && Fits(s, buf) && s.occupied + Needed(|buf|) <= |s.tx.list|
    requires buf != [] || s.occupied < |s.tx.list|
    ensures var n, tx' := |s.tx.list|, Load(s.tx, buf);
            forall x :: 0 <= x < n && Offset(s.read, x, n) < s.occupied + Needed(|buf|) ==> tx'.list[x].count > 0
  {
    var n, tx' := |s.tx.list|, Load(s.tx, buf);
    LoadApart(s, buf);
    forall x | 0 <= x < n && s.occupied <= Offset(s.read, x, n) < s.occupied + Needed(|buf|)
      ensures tx'.list[x].count > 0
    {
      assert Offset(s.tx.current, x, n) == Offset(s.read, x, n) - s.occupied;
    }
  }

  /** The oldest waiting write is empty, meets a full ring and passes the free-entry check. */
  predicate EmptyIntoFull(s: Stream)
    requires Ok(s)
  {
    CanLoad(s) && s.slots[s.get] == [] && s.occupied == |s.tx.list|
  }

  lemma LoadNextTallies(s: Stream)
    requires Tallied(s)
    ensures Tallied(LoadNext(s))
  {
  }

  lemma LoadNextCounts(s: Stream)
    requires Counted(s) && !EmptyIntoFull(s)
    ensures Counted(LoadNext(s))
  {
    LoadNextTallies(s);
    if CanLoad(s) {
      LoadCounts(s, s.slots[s.get]);
    }
  }

  lemma HeldHead(s: Stream)
    requires Ok(s) && s.held > 0
    ensures Held(s)[0] == s.slots[s.get] && Flatten(Held(s)) == s.slots[s.get] + Flatten(Held(s)[1..])
  {
  }

  lemma LoadNextRing(s: Stream)
    requires Counted(s) && CanLoad(s) && !EmptyIntoFull(s)
    ensures InRing(LoadNext(s)) == InRing(s) + s.slots[s.get]
  {
    LoadBehind(s, s.slots[s.get]);
  }

  lemma Regroup(a: seq<byte>, b: seq<byte>, c: seq<byte>, d: seq<byte>)
    ensures a + b + (c + d) == a + (b + c) + d
  {
  }

  lemma LoadNextConserves(s: Stream)
    requires Counted(s) && Conserved(s) && !EmptyIntoFull(s)
    ensures Conserved(LoadNext(s))
  {
    if CanLoad(s) {
      HeldHead(s);
      LoadNextRing(s);
      Regroup(s.sent, InRing(s), s.slots[s.get], Flatten(Held(s)[1..]));
    }
  }

  /** Zeroing the count of an entry still to be sent takes its bytes out of the stream. */
  lemma FullRingLoses(s: Stream)
    requires Counted(s) && s.occupied == |s.tx.list|
    ensures var list := Load(s.tx, []).list;
            |RingBytes(list, s.read, s.occupied)| < |InRing(s)|
  {
    var n, tx' := |s.tx.list|, Load(s.tx, []);
    var next := Next(s.read, n);
    assert s.tx.list[s.read].count > 0 by { assert Offset(s.read, s.read, n) == 0; }
    forall x | 0 <= x < n && Offset(next, x, n) < n - 1 ensures tx'.list[x] == s.tx.list[x] {
      assert x != s.read;
    }
    RingBytesSame(s.tx, tx', next, n - 1);
  }

  /** Loading the next write keeps every accepted byte if and only if it is not an empty write
      meeting a full ring: the size check lets that one through and its count overwrites an
      entry that is still to be sent. */
  lemma LoadNextExact(s: Stream)
    requires Counted(s) && Conserved(s)
    ensures Conserved(LoadNext(s)) <==> !EmptyIntoFull(s)
  {
    if EmptyIntoFull(s) {
      EmptyIntoFullLoses(s);
    } else {
      LoadNextConserves(s);
    }
  }

  lemma EmptyIntoFullLoses(s: Stream)
    requires Counted(s) && Conserved(s) && EmptyIntoFull(s)
    ensures !Conserved(LoadNext(s))
  {
    var s' := LoadNext(s);
    HeldHead(s);
    FullRingLoses(s);
    assert |InRing(s')| < |InRing(s)|;
    assert Flatten(Held(s')) == Flatten(Held(s));
    assert |s'.accepted| == |s.sent| + |InRing(s)| + |Flatten(Held(s))|;
  }


  // ----- writes -----

  lemma SaveKeeps(s: Stream, buf: seq<byte>)
    requires Inv(s) && Fits(s, buf) && s.held < |s.slots|
    ensures Inv(Save(s, buf).(accepted := s.accepted + buf))
  {
    FlattenAppend(Held(s), buf);
    var s' := Save(s, buf).(accepted := s.accepted + buf);
    assert Held(s') == Held(s) + [buf];
    assert InRing(s') == InRing(s);
  }

  /** A start leaves exactly the new frame in the ring, from any state. */
  lemma StartRing(s: Stream, buf: seq<byte>)
    requires Tallied(s) && Fits(s, buf) && buf != []
    ensures var s' := Start(s, buf); Counted(s') && InRing(s') == buf && Held(s') == Held(s)
  {
    var idle, s' := Fresh(s), Start(s, buf);
    LoadCounts(idle, buf);
    LoadedAll(s.tx, buf);
    RingBytesSame(Load(s.tx, buf), s'.tx, s'.read, s'.occupied);
    assert Held(s') == Held(s);
  }

  /** The state with the channel reset and nothing in it. */
  function Fresh(s: Stream): (s': Stream)
    requires Tallied(s)
    ensures Counted(s')
  {
    s.(read := s.tx.current, occupied := 0, acks := 0, lost := s.lost + s.occupied + s.acks)
  }

  /** An empty write to an idle transmitter only touches the entry at `current`. */
  lemma EmptyStart(s: Stream)
    requires Counted(s) && s.occupied < |s.tx.list|
    ensures var s' := Start(s, []); Counted(s') && InRing(s') == InRing(s) && Held(s') == Held(s)
  {
    var s' := Start(s, []);
    LoadCounts(s, []);
    LoadBehind(s, []);
    assert InRing(s) + [] == InRing(s);
    assert Held(s') == Held(s);
  }

  /** An idle transmitter with nothing left over: everything loaded was sent, no byte waits, and
      `xmit_cnt` is clear. */
  ghost predicate Settled(s: Stream)
    requires Ok(s)
  {
    s.occupied == 0 && s.cnt == 0 && Flatten(Held(s)) == []
  }

  lemma SettledWriteKeeps(s: Stream, buf: seq<byte>, memory: seq<byte>)
    requires Inv(s) && !s.active && Settled(s) && Fits(s, buf)
    ensures Inv(Write(s, buf, memory))
  {
    var t := s.(accepted := s.accepted + buf);
    assert Held(t) == Held(s);
    if buf == [] {
      EmptyStart(t);
      assert InRing(t) == InRing(s) && s.accepted + [] == s.accepted;
    } else {
      StartRing(t, buf);
      assert s.accepted == s.sent;
    }
  }

  lemma RingNotEmpty(s: Stream)
    requires Counted(s) && s.occupied > 0
    ensures InRing(s) != []
  {
    assert Offset(s.read, s.read, |s.tx.list|) == 0;
  }

  lemma DifferInside(a: seq<byte>, b: seq<byte>, c: seq<byte>, d: seq<byte>)
    requires b != [] && (c == [] || c[0] != b[0])
    ensures a + b + d != a + c + d
  {
    if c == [] {
      assert |a + b + d| != |a + c + d|;
    } else {
      assert (a + b + d)[|a|] == b[0] && (a + c + d)[|a|] == c[0];
    }
  }

  /** A stale `xmit_cnt` sends bytes nobody wrote. */
  lemma StaleLoses(s: Stream) returns (memory: seq<byte>)
    requires Inv(s) && !s.active && s.cnt > 0
    ensures |memory| == s.cnt && !Conserved(Write(s, [], memory))
  {
    var x: byte := if |InRing(s)| > 0 && InRing(s)[0] == 0 then 1 else 0;
    memory := seq(s.cnt, _ => x);
    assert memory[..s.cnt] == memory;
    StartRing(s, memory);
    DifferInside(s.sent, memory, InRing(s), Flatten(Held(s)));
  }

  /** Entries still to be sent are lost to the next start. */
  lemma UnsentLoses(s: Stream)
    requires Inv(s) && !s.active && s.cnt == 0 && s.occupied > 0
    ensures Fits(s, [0]) && !Conserved(Write(s, [0], []))
  {
    var t := s.(accepted := s.accepted + [0]);
    assert Held(t) == Held(s);
    StartRing(t, [0]);
    RingNotEmpty(s);
  }

  /** Waiting writes are overtaken by the next one. */
  lemma WaitingOvertaken(s: Stream) returns (x: byte)
    requires Inv(s) && !s.active && s.cnt == 0 && s.occupied == 0 && Flatten(Held(s)) != []
    ensures Fits(s, [x]) && !Conserved(Write(s, [x], []))
  {
    var h, k := Flatten(Held(s)), |s.sent|;
    x := if h[0] == 0 then 1 else 0;
    var t := s.(accepted := s.accepted + [x]);
    assert Held(t) == Held(s);
    StartRing(t, [x]);
    assert s.accepted[k] == h[0];
    assert t.accepted[k] == h[0];
    assert (s.sent + [x] + h)[k] == x;
  }

  /** A write to an idle transmitter keeps every byte, whatever is written and whatever memory
      holds, if and only if the transmitter is settled. */
  lemma IdleWriteExact(s: Stream)
    requires Inv(s) && !s.active
    ensures (forall buf, memory :: Fits(s, buf) && s.cnt <= |memory| ==> Conserved(Write(s, buf, memory)))
            <==> Settled(s)
  {
    if Settled(s) {
      forall buf, memory | Fits(s, buf) && s.cnt <= |memory| ensures Conserved(Write(s, buf, memory)) {
        SettledWriteKeeps(s, buf, memory);
      }
    } else if s.cnt > 0 {
      var memory := StaleLoses(s);
      assert Fits(s, []);
    } else if s.occupied > 0 {
      UnsentLoses(s);
    } else {
      var x := WaitingOvertaken(s);
    }
  }

  // ----- every run -----

  /** The steps that lose or reorder bytes: loading an empty write onto a full ring, and a write to
      an idle transmitter that is not settled. */
  ghost predicate Fault(s: Stream, a: Action)
    requires Ok(s)
  {
    match a
    case Submit(buf, memory) =>
      && Fits(s, buf) && s.cnt <= |memory|
      && (if s.active then s.held < |s.slots| && EmptyIntoFull(Save(s, buf))
          else if s.cnt == 0 && buf == [] then s.occupied == |s.tx.list|
          else !Settled(s))
    case EobIrq => s.acks > 0 && EmptyIntoFull(Acknowledge(s))
    case _ => false
  }

  lemma LoadNextKeeps(s: Stream)
    requires Inv(s) && !EmptyIntoFull(s)
    ensures Inv(LoadNext(s))
  {
    LoadNextCounts(s);
    LoadNextConserves(s);
  }

  lemma WriteKeeps(s: Stream, buf: seq<byte>, memory: seq<byte>)
    requires Inv(s) && Fits(s, buf) && s.cnt <= |memory| && !Fault(s, Submit(buf, memory))
    ensures Inv(Write(s, buf, memory))
  {
    if s.active {
      if s.held < |s.slots| {
        SaveKeeps(s, buf);
        LoadNextKeeps(Save(s, buf).(accepted := s.accepted + buf));
      }
    } else if s.cnt == 0 && buf == [] {
      EmptyWriteKeeps(s, memory);
    } else {
      SettledWriteKeeps(s, buf, memory);
    }
  }

  lemma EmptyWriteKeeps(s: Stream, memory: seq<byte>)
    requires Inv(s) && !s.active && s.cnt == 0 && s.occupied < |s.tx.list|
    ensures Fits(s, []) && Inv(Write(s, [], memory))
  {
    EmptyStart(s);
    assert s.accepted + [] == s.accepted;
  }

  lemma SentKeeps(s: Stream)
    requires Inv(s) && s.occupied > 0
    ensures Inv(Step(s, Sent))
  {
    var s', n := Step(s, Sent), |s.tx.list|;
    RingBytesSplit(s.tx, s.read, 1, s.occupied - 1, Next(s.read, n), s.occupied);
    assert Held(s') == Held(s);
    forall x | 0 <= x < n && Offset(s'.read, x, n) < s'.occupied ensures s.tx.list[x].count > 0 {
      assert Offset(s.read, x, n) < s.occupied;
    }
  }

  lemma EobKeeps(s: Stream)
    requires Inv(s) && !Fault(s, EobIrq)
    ensures Inv(Step(s, EobIrq))
  {
    if s.acks > 0 {
      assert InRing(Acknowledge(s)) == InRing(s);
      LoadNextKeeps(Acknowledge(s));
    }
  }

  lemma IdleKeeps(s: Stream, a: Action)
    requires Inv(s) && (a.DoneIrq? || a.Timeout?)
    ensures Inv(Step(s, a))
  {
    assert Held(Step(s, a)) == Held(s) && InRing(Step(s, a)) == InRing(s);
  }

  lemma StepKeeps(s: Stream, a: Action)
    requires Inv(s) && !Fault(s, a)
    ensures Inv(Step(s, a))
  {
    match a
    case Submit(buf, memory) => if Fits(s, buf) && s.cnt <= |memory| { WriteKeeps(s, buf, memory); }
    case Sent => if s.occupied > 0 { SentKeeps(s); }
    case EobIrq => EobKeeps(s);
    case DoneIrq(_) => IdleKeeps(s, a);
    case Timeout => IdleKeeps(s, a);
  }

  ghost predicate Faultless(s: Stream, actions: seq<Action>)
    requires Ok(s)
    decreases |actions|
  {
    actions == [] || (!Fault(s, actions[0]) && Faultless(Step(s, actions[0]), actions[1..]))
  }

  /** In every run without such a step, interrupts in any order and timeouts included, the accepted
      bytes are the sent bytes, then the ring, then the holding buffers, in order. */
  lemma {:induction false} RunConserves(s: Stream, actions: seq<Action>)
    requires Inv(s) && Faultless(s, actions)
    ensures Inv(Run(s, actions))
    decreases |actions|
  {
    if actions != [] {
      StepKeeps(s, actions[0]);
      RunConserves(Step(s, actions[0]), actions[1..]);
    }
  }

  /** Serving an interrupt keeps every byte if and only if it does not load an empty write onto a
      full ring, and so does a write to a busy transmitter. */
  lemma BusyStepExact(s: Stream, a: Action)
    requires Inv(s) && (a.Submit? ==> s.active)
    ensures Conserved(Step(s, a)) <==> !Fault(s, a)
  {
    if !Fault(s, a) {
      StepKeeps(s, a);
    } else if a.EobIrq? {
      assert InRing(Acknowledge(s)) == InRing(s);
      LoadNextExact(Acknowledge(s));
    } else {
      SaveKeeps(s, a.buf);
      LoadNextExact(Save(s, a.buf).(accepted := s.accepted + a.buf));
    }
  }

  // ----- runs without underrun and timeout -----

  /** The transmitter goes idle while writes wait, by an underrun or by a timeout; or an empty
      write is loaded onto a full ring. */
  ghost predicate Disturbs(s: Stream, a: Action)
    requires Ok(s)
  {
    match a
    case Submit(buf, memory) => s.active && Fault(s, a)
    case EobIrq => Fault(s, a)
    case DoneIrq(_) => s.occupied == 0 && s.held > 0
    case Timeout => true
    case Sent => false
  }

  ghost predicate Undisturbed(s: Stream, actions: seq<Action>)
    requires Ok(s)
    decreases |actions|
  {
    actions == [] || (!Disturbs(s, actions[0]) && Undisturbed(Step(s, actions[0]), actions[1..]))
  }

  /** An idle transmitter has nothing left over. */
  ghost predicate Rested(s: Stream) {
    !s.active ==> s.occupied == 0 && s.held == 0 && s.cnt == 0
  }

  lemma RestedStep(s: Stream, a: Action)
    requires Inv(s) && Rested(s) && !Disturbs(s, a)
    ensures !Fault(s, a) && Rested(Step(s, a))
  {
    if !s.active { assert Held(s) == []; }
  }

  lemma {:induction false} UndisturbedFaultless(s: Stream, actions: seq<Action>)
    requires Inv(s) && Rested(s) && Undisturbed(s, actions)
    ensures Faultless(s, actions)
    decreases |actions|
  {
    if actions != [] {
      RestedStep(s, actions[0]);
      StepKeeps(s, actions[0]);
      UndisturbedFaultless(Step(s, actions[0]), actions[1..]);
    }
  }

  predicate Initial(s: Stream) {
    && Ok(s) && !s.active && s.held == 0 && s.cnt == 0 && s.occupied == 0 && s.acks == 0 && s.lost == 0
    && s.tx.used == 0 && s.read == s.tx.current && s.accepted == [] && s.sent == []
  }

  lemma InitialHolds(s: Stream)
    requires Initial(s)
    ensures Inv(s) && Rested(s)
  {
    assert Held(s) == [];
  }

  /** From the initial state, every run in which the transmitter does not go idle while writes wait
      and no empty write meets a full ring conserves every byte, even if the end of transmission
      is served before end-of-buffer interrupts that are then lost. */
  lemma StreamConserves(s: Stream, actions: seq<Action>)
    requires Initial(s) && Undisturbed(s, actions)
    ensures Conserved(Run(s, actions))
  {
    InitialHolds(s);
    UndisturbedFaultless(s, actions);
    RunConserves(s, actions);
  }

  /** A write that fills the ring followed by an empty write loses bytes. */
  lemma EmptyWriteLosesBytes(s: Stream, buf: seq<byte>)
    requires Initial(s) && |s.slots| > 0 && buf != [] && Fits(s, buf) && Needed(|buf|) == |s.tx.list|
    ensures var s' := Step(s, Submit(buf, []));
            Conserved(s') && !Conserved(Step(s', Submit([], buf)))
  {
    InitialHolds(s);
    var a := Submit(buf, []);
    RestedStep(s, a);
    StepKeeps(s, a);
    EmptyAfterFull(Step(s, a), buf);
  }

  lemma EmptyAfterFull(s: Stream, memory: seq<byte>)
    requires Inv(s) && s.active && s.held == 0 && |s.slots| > 0 && s.occupied == |s.tx.list| && s.acks == s.lost == 0
    requires s.cnt <= |memory|
    ensures !Conserved(Step(s, Submit([], memory)))
  {
    SaveKeeps(s, []);
    BusyStepExact(s, Submit([], memory));
  }
}
