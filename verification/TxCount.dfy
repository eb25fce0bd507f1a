/** What the driver's count of transmit entries in use is worth: in every run it is the entries
    still to be sent, those sent and not yet acknowledged, and those whose acknowledgement a reset
    of the DMA channel has swallowed. The last kind never comes back.
 */
module TxCount {
  import opened RxRing
  import opened TxRing
  import opened TxStream

  // ----- every run whatsoever -----

  lemma StartTallies(s: Stream, buf: seq<byte>)
    requires Tallied(s) && Fits(s, buf)
    ensures Tallied(Start(s, buf))
  {
  }

  lemma WriteTallies(s: Stream, buf: seq<byte>, memory: seq<byte>)
    requires Tallied(s) && Fits(s, buf) && s.cnt <= |memory|
    ensures Tallied(Write(s, buf, memory))
  {
    if s.active {
      if s.held < |s.slots| { LoadNextTallies(Save(s, buf).(accepted := s.accepted + buf)); }
    } else if s.cnt > 0 {
      StartTallies(s, memory[..s.cnt]);
    } else {
      StartTallies(s.(accepted := s.accepted + buf), buf);
    }
  }

  lemma StepTallies(s: Stream, a: Action)
    requires Tallied(s)
    ensures Tallied(Step(s, a))
  {
    match a
    case Submit(buf, memory) => if Fits(s, buf) && s.cnt <= |memory| { WriteTallies(s, buf, memory); }
    case Sent =>
    case EobIrq => if s.acks > 0 { LoadNextTallies(Acknowledge(s)); }
    case DoneIrq(_) =>
    case Timeout =>
  }

  /** In every run, faulty ones included, the count is what is unsent, unacknowledged and lost. */
  lemma {:induction false} RunTallies(s: Stream, actions: seq<Action>)
    requires Tallied(s)
    ensures Tallied(Run(s, actions))
    decreases |actions|
  {
    if actions != [] {
      StepTallies(s, actions[0]);
      RunTallies(Step(s, actions[0]), actions[1..]);
    }
  }

  // ----- when the count is exact -----

  /** What a write to an idle transmitter would send. */
  function Payload(s: Stream, buf: seq<byte>, memory: seq<byte>): (p: seq<byte>)
    requires s.cnt <= |memory|
  {
    if s.cnt > 0 then memory[..s.cnt] else buf
  }

  /** The step starts the transmitter. */
  predicate Starts(s: Stream, a: Action) {
    a.Submit? && !s.active && Fits(s, a.buf) && s.cnt <= |a.memory| && Payload(s, a.buf, a.memory) != []
  }

  /** The step resets the DMA channel. */
  predicate Resets(s: Stream, a: Action) {
    Starts(s, a) || (a.DoneIrq? && a.reset && s.occupied == 0)
  }

  /** The step resets the channel while entries are unsent or unacknowledged. */
  predicate Drops(s: Stream, a: Action) {
    Resets(s, a) && s.occupied + s.acks > 0
  }

  predicate DropsNone(s: Stream, actions: seq<Action>)
    requires Ok(s)
    decreases |actions|
  {
    actions == [] || (!Drops(s, actions[0]) && DropsNone(Step(s, actions[0]), actions[1..]))
  }

  lemma LostStep(s: Stream, a: Action)
    requires Ok(s)
    ensures Step(s, a).lost == s.lost + if Resets(s, a) then s.occupied + s.acks else 0
  {
  }

  lemma {:induction false} LostInRuns(s: Stream, actions: seq<Action>)
    requires Ok(s)
    ensures Run(s, actions).lost >= s.lost
    ensures Run(s, actions).lost == s.lost <==> DropsNone(s, actions)
    decreases |actions|
  {
    if actions != [] {
      LostStep(s, actions[0]);
      LostInRuns(Step(s, actions[0]), actions[1..]);
    }
  }

  /** The count equals the unsent and unacknowledged entries after a run if and only if no step of
      the run reset the channel while there were any. */
  lemma CountExact(s: Stream, actions: seq<Action>)
    requires Tallied(s) && s.lost == 0
    ensures var s' := Run(s, actions);
            s'.tx.used == s'.occupied + s'.acks <==> DropsNone(s, actions)
  {
    RunTallies(s, actions);
    LostInRuns(s, actions);
  }

  // ----- when the count stays within the ring -----

  /** The step starts the transmitter with more than the driver counts as free. */
  predicate Overfills(s: Stream, a: Action) {
    Starts(s, a) && Needed(|Payload(s, a.buf, a.memory)|) > |s.tx.list| - s.tx.used
  }

  predicate OverfillsNone(s: Stream, actions: seq<Action>)
    requires Ok(s)
    decreases |actions|
  {
    actions == [] || (!Overfills(s, actions[0]) && OverfillsNone(Step(s, actions[0]), actions[1..]))
  }

  /** At no point of the run does the count exceed the ring. */
  predicate Within(s: Stream, actions: seq<Action>)
    requires Ok(s)
    decreases |actions|
  {
    s.tx.used <= |s.tx.list| && (actions == [] || Within(Step(s, actions[0]), actions[1..]))
  }

  lemma WithinStep(s: Stream, a: Action)
    requires Tallied(s) && s.tx.used <= |s.tx.list|
    ensures var s' := Step(s, a); s'.tx.used <= |s'.tx.list| <==> !Overfills(s, a)
  {
  }

  /** The count stays within the ring throughout a run if and only if every start finds room by it. */
  lemma {:induction false} CountWithin(s: Stream, actions: seq<Action>)
    requires Tallied(s) && s.tx.used <= |s.tx.list|
    ensures Within(s, actions) <==> OverfillsNone(s, actions)
    decreases |actions|
  {
    if actions != [] {
      var s' := Step(s, actions[0]);
      WithinStep(s, actions[0]);
      StepTallies(s, actions[0]);
      if s'.tx.used <= |s'.tx.list| { CountWithin(s', actions[1..]); }
    }
  }

  /** An exact count stays within the ring. */
  lemma {:induction false} ExactWithin(s: Stream, actions: seq<Action>)
    requires Tallied(s) && s.lost == 0 && s.tx.used <= |s.tx.list| && DropsNone(s, actions)
    ensures Within(s, actions)
    decreases |actions|
  {
    if actions != [] {
      LostStep(s, actions[0]);
      WithinStep(s, actions[0]);
      StepTallies(s, actions[0]);
      ExactWithin(Step(s, actions[0]), actions[1..]);
    }
  }

  // ----- the failing run -----

  lemma RunNext(s: Stream, a: Action, rest: seq<Action>)
    requires Ok(s)
    ensures Run(s, [a] + rest) == Run(Step(s, a), rest)
  {
    assert ([a] + rest)[1..] == rest;
  }

  lemma RunFour(s: Stream, a: Action, b: Action, c: Action, d: Action)
    requires Ok(s)
    ensures Run(s, [a] + ([b] + ([c] + ([d] + [])))) == Step(Step(Step(Step(s, a), b), c), d)
  {
    RunNext(s, a, [b] + ([c] + ([d] + [])));
    RunNext(Step(s, a), b, [c] + ([d] + []));
    RunNext(Step(Step(s, a), b), c, [d] + []);
    RunNext(Step(Step(Step(s, a), b), c), d, []);
  }

  /** One entry, one write, sent; the end of transmission is served before the end-of-buffer
      interrupt, and the next write resets the channel: the count is 2 on a ring of 1. No byte is
      lost, yet nothing that waits will ever be loaded again. */
  lemma DoneBeforeEob(s: Stream, buf: seq<byte>)
    requires Initial(s) && |s.tx.list| == 1 && buf != [] && Fits(s, buf)
    ensures var s' := Run(s, [Submit(buf, []), Sent, DoneIrq(false), Submit(buf, [])]);
            s'.tx.used == 2 && s'.lost == 1 && Conserved(s')
  {
    var a := Submit(buf, []);
    RunFour(s, a, Sent, DoneIrq(false), a);
    assert [a] + ([Sent] + ([DoneIrq(false)] + ([a] + []))) == [a, Sent, DoneIrq(false), a];
    InitialHolds(s);
    RestedStep(s, a);
    StepKeeps(s, a);
    var s1 := Step(s, a);
    RestedStep(s1, Sent);
    StepKeeps(s1, Sent);
    var s2 := Step(s1, Sent);
    RestedStep(s2, DoneIrq(false));
    StepKeeps(s2, DoneIrq(false));
    var s3 := Step(s2, DoneIrq(false));
    RestedStep(s3, a);
    StepKeeps(s3, a);
  }

  // ----- what is lost stays lost -----

  /** The oldest waiting write does not fit beside the lost entries. */
  predicate Starved(s: Stream)
    requires Ok(s)
  {
    s.held > 0 && Needed(|s.slots[s.get]|) + s.lost > |s.tx.list|
  }

  lemma StarvedStep(s: Stream, a: Action)
    requires Tallied(s) && Starved(s)
    ensures Starved(Step(s, a)) && Held(s) <= Held(Step(s, a))
  {
    LostStep(s, a);
  }

  /** Once the lost entries leave no room for the oldest waiting write, no run ever loads it: every
      waiting write keeps its place for good. */
  lemma {:induction false} StarvedForever(s: Stream, actions: seq<Action>)
    requires Tallied(s) && Starved(s)
    ensures Starved(Run(s, actions)) && Held(s) <= Held(Run(s, actions))
    decreases |actions|
  {
    if actions != [] {
      StarvedStep(s, actions[0]);
      StepTallies(s, actions[0]);
      StarvedForever(Step(s, actions[0]), actions[1..]);
    }
  }
}
