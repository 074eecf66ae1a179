/** What a call of `write` has done when it returns, in every run of it beside reads. */
module StringRingOutcome {
  import opened Laps
  import opened Words
  import opened StringRing
  import opened StringRingInvariant
  import opened StringRingWait

  /** `acts` takes the call from its entry to its end, with any reads before, in between and after. */
  predicate EndsCall(s: Sys, chunk: seq<byte>, rest: nat, acts: seq<Action>, t: Sys) {
    && s.ring.buf != [] && WritingAndReading(acts)
    && EnabledRun(Apply(s, Enter(chunk, rest)), acts) && Exec(Apply(s, Enter(chunk, rest)), acts) == t
    && t.w.pc == Out
  }

  /** Between two calls of `write`, with no reset about. */
  predicate BetweenCalls(s: Sys) {
    && s.ring.buf != [] && s.w == NO_WRITER && !s.ring.writing && !s.ring.resetting
    && (s.r == Idle || s.r.Loaded?)
  }

  predicate BetweenMessages(s: Sys) {
    BetweenCalls(s) && s.ring.writingCursor == 0 && !s.ring.skip && s.log.acc == []
  }

  // ---------------------------------------------------------------- a message that fits

  /** In the call of `msg`, or just after it, with the log of before. */
  predicate Underway(s: Sys, msg: seq<byte>, before: Log)
    ensures Underway(s, msg, before) ==> s.ring.buf != []
  {
    var g := s.ring;
    && g.buf != [] && !g.resetting && (s.r == Idle || s.r.Loaded?)
    && if s.w.pc == Out then
         BetweenMessages(s) && s.log.rets == before.rets + [true] && s.log.sent == before.sent + [msg]
       else
         && !g.skip && (Early(s.w.pc) ==> s.w.seen == g.resetCount)
         && s.w.chunk == msg && s.w.rest == 0 && s.log.rets == before.rets && s.log.sent == before.sent
         && match s.w.pc
            case Reserve => |msg| + 5 < |g.buf| && s.log.acc == [] && s.w.copied == 0
            case Copy => g.remaining == 0 && s.log.acc == [] && s.w.copied <= |msg|
            case Finish => g.remaining == 0 && s.log.acc == msg
            case Publish => g.remaining == 0 && s.log.acc == msg
            case _ => g.remaining == |msg| && s.log.acc == [] && s.w.copied == 0
  }

  lemma UnderwayWrites(s: Sys, msg: seq<byte>, before: Log)
    requires Underway(s, msg, before) && s.w.pc != Out
    ensures Underway(WriterStep(s), msg, before)
  {
    hide Cell;
    hide Put;
    hide Padding;
    hide U32Bytes;
    assert [] + msg == msg;
  }

  lemma UnderwayStep(s: Sys, msg: seq<byte>, before: Log, a: Action)
    requires Underway(s, msg, before) && Enabled(s, a) && a in {W, Load, Take}
    ensures Underway(Apply(s, a), msg, before)
  {
    hide ReadAt;
    hide WriterStep;
    if a == W {
      UnderwayWrites(s, msg, before);
    }
  }

  lemma {:induction false} UnderwayRun(s: Sys, msg: seq<byte>, before: Log, acts: seq<Action>)
    requires Underway(s, msg, before) && WritingAndReading(acts) && EnabledRun(s, acts)
    ensures Underway(Exec(s, acts), msg, before)
    decreases |acts|
  {
    hide Underway;
    hide Apply;
    hide Enabled;
    if acts != [] {
      UnderwayStep(s, msg, before, acts[0]);
      UnderwayRun(Apply(s, acts[0]), msg, before, acts[1..]);
    }
  }

  /** A call whose message fits returns true, and the message has been sent. */
  lemma FittingCall(s: Sys, msg: seq<byte>, acts: seq<Action>, t: Sys)
    requires BetweenMessages(s) && msg != [] && |msg| + 5 < |s.ring.buf| && EndsCall(s, msg, 0, acts, t)
    ensures BetweenMessages(t) && |t.ring.buf| == |s.ring.buf|
    ensures t.log.rets == s.log.rets + [true] && t.log.sent == s.log.sent + [msg]
  {
    UnderwayRun(Apply(s, Enter(msg, 0)), msg, s.log, acts);
  }

  // ---------------------------------------------------------------- a message that does not

  /** After an oversized message has been refused: `writing_cursor_` is not zero, and `skip_` is set. */
  predicate Skipping(s: Sys) {
    BetweenCalls(s) && s.ring.writingCursor != 0 && s.ring.skip && s.log.acc == []
  }

  /** What the writer owns of the ring, up to the counters of the current message. */
  function Writers(g: Ring): Ring {
    g.(readingCursor := 0, readingBegin := 0, total := 0, remaining := 0, writingCursor := 0,
       skip := false, writing := false)
  }

  /** In a call that stores nothing: refused for its size, or swallowed. */
  predicate Fruitless(s: Sys, from: Sys, chunk: seq<byte>, rest: nat)
    ensures Fruitless(s, from, chunk, rest) ==> s.ring.buf != []
  {
    var g, h := s.ring, from.ring;
    && g.buf != [] && !g.resetting && (s.r == Idle || s.r.Loaded?)
    && Writers(g) == Writers(h) && s.log.sent == from.log.sent && s.log.acc == []
    && if s.w.pc == Out then
         && BetweenCalls(s) && s.log.rets == from.log.rets + [h.skip]
         && if h.skip && rest == 0 then g.writingCursor == 0 && !g.skip else g.writingCursor != 0 && g.skip
       else
         && g.skip == h.skip && s.w.chunk == chunk && s.w.rest == rest && s.log.rets == from.log.rets
         && match s.w.pc
            case Reserve => !h.skip && |chunk| + rest + 5 >= |g.buf|
            case Account => h.skip && g.writingCursor != 0
            case Finish => h.skip && g.writingCursor != 0
            case _ => false
  }

  lemma FruitlessStep(s: Sys, from: Sys, chunk: seq<byte>, rest: nat, a: Action)
    requires Fruitless(s, from, chunk, rest) && Enabled(s, a) && a in {W, Load, Take}
    ensures Fruitless(Apply(s, a), from, chunk, rest)
  {
    hide Cell;
    hide ReadAt;
  }

  lemma {:induction false} FruitlessRun(s: Sys, from: Sys, chunk: seq<byte>, rest: nat, acts: seq<Action>)
    requires Fruitless(s, from, chunk, rest) && WritingAndReading(acts) && EnabledRun(s, acts)
    ensures Fruitless(Exec(s, acts), from, chunk, rest)
    decreases |acts|
  {
    hide Fruitless;
    hide Apply;
    hide Enabled;
    if acts != [] {
      FruitlessStep(s, from, chunk, rest, acts[0]);
      FruitlessRun(Apply(s, acts[0]), from, chunk, rest, acts[1..]);
    }
  }

  /** The first call of an oversized message returns false, and what follows will be skipped. */
  lemma OversizedCall(s: Sys, chunk: seq<byte>, rest: nat, acts: seq<Action>, t: Sys)
    requires BetweenMessages(s) && chunk != [] && |chunk| + rest + 5 >= |s.ring.buf|
    requires EndsCall(s, chunk, rest, acts, t)
    ensures Skipping(t) && Writers(t.ring) == Writers(s.ring)
    ensures t.log.rets == s.log.rets + [false] && t.log.sent == s.log.sent
  {
    FruitlessRun(Apply(s, Enter(chunk, rest)), s, chunk, rest, acts);
  }

  /** A call that is skipped returns true and stores nothing; the last of a message ends the skipping. */
  lemma SkippedCall(s: Sys, chunk: seq<byte>, rest: nat, acts: seq<Action>, t: Sys)
    requires Skipping(s) && chunk != [] && EndsCall(s, chunk, rest, acts, t)
    ensures (if rest == 0 then BetweenMessages(t) else Skipping(t)) && Writers(t.ring) == Writers(s.ring)
    ensures t.log.rets == s.log.rets + [true] && t.log.sent == s.log.sent
  {
    FruitlessRun(Apply(s, Enter(chunk, rest)), s, chunk, rest, acts);
  }

  // ---------------------------------------------------------------- exactly

  /**
   * The size test is exact: of two messages, each written in one call, the second one is
   * sent if and only if the first one fits. Either way its call returns true.
   */
  lemma NextMessageIsSent(s: Sys, msg: seq<byte>, next: seq<byte>, a: seq<Action>, t: Sys, b: seq<Action>, u: Sys)
    requires BetweenMessages(s) && msg != [] && next != [] && |next| + 5 < |s.ring.buf|
    requires EndsCall(s, msg, 0, a, t) && EndsCall(t, next, 0, b, u)
    ensures u.log.sent == t.log.sent + [next] <==> |msg| + 5 < |s.ring.buf|
    ensures u.log.rets == s.log.rets + [|msg| + 5 < |s.ring.buf|] + [true]
    ensures u.log.sent == s.log.sent + if |msg| + 5 < |s.ring.buf| then [msg, next] else []
    ensures BetweenMessages(u)
  {
    if |msg| + 5 < |s.ring.buf| {
      FittingCall(s, msg, a, t);
      FittingCall(t, next, b, u);
      assert s.log.sent + [msg] + [next] == s.log.sent + [msg, next];
    } else {
      OversizedCall(s, msg, 0, a, t);
      SkippedCall(t, next, 0, b, u);
    }
  }

  /** Calls one after the other, each with the run that ends it. */
  predicate EndsCalls(s: Sys, calls: seq<Call>, runs: seq<seq<Action>>)
    requires |runs| == |calls| && s.ring.buf != []
    decreases |calls|
  {
    calls == [] ||
    (var t := Exec(Apply(s, Enter(calls[0].chunk, calls[0].rest)), runs[0]);
      EndsCall(s, calls[0].chunk, calls[0].rest, runs[0], t) && EndsCalls(t, calls[1..], runs[1..]))
  }

  function AfterCalls(s: Sys, calls: seq<Call>, runs: seq<seq<Action>>): (t: Sys)
    requires |runs| == |calls| && s.ring.buf != []
    ensures |t.ring.buf| == |s.ring.buf|
    decreases |calls|
  {
    if calls == [] then s
    else AfterCalls(Exec(Apply(s, Enter(calls[0].chunk, calls[0].rest)), runs[0]), calls[1..], runs[1..])
  }

  /** Parts of one message: non-empty, all but the last announcing more. */
  predicate Parts(calls: seq<Call>) {
    && calls != [] && (forall i :: 0 <= i < |calls| ==> calls[i].chunk != [])
    && (forall i :: 0 <= i < |calls| ==> (calls[i].rest == 0 <==> i == |calls| - 1))
  }

  lemma {:induction false} SkippedParts(s: Sys, calls: seq<Call>, runs: seq<seq<Action>>)
    requires |runs| == |calls| && Skipping(s) && Parts(calls) && EndsCalls(s, calls, runs)
    ensures var t := AfterCalls(s, calls, runs);
      && BetweenMessages(t) && Writers(t.ring) == Writers(s.ring) && t.log.sent == s.log.sent
      && t.log.rets == s.log.rets + seq(|calls|, _ => true)
    decreases |calls|
  {
    hide EndsCall;
    hide Writers;
    var t := Exec(Apply(s, Enter(calls[0].chunk, calls[0].rest)), runs[0]);
    SkippedCall(s, calls[0].chunk, calls[0].rest, runs[0], t);
    if |calls| == 1 {
      assert calls[1..] == [];
      assert AfterCalls(t, [], runs[1..]) == t;
      assert seq(1, _ => true) == [true];
    } else {
      SkippedParts(t, calls[1..], runs[1..]);
      assert [true] + seq(|calls| - 1, _ => true) == seq(|calls|, _ => true);
    }
  }

  /**
   * An oversized message written in any number of parts: its first part is refused, all
   * others return true, nothing is stored or sent, and the ring is as before. Skipping
   * outlasts the message if and only if it had only one part.
   */
  lemma OversizedParts(s: Sys, calls: seq<Call>, runs: seq<seq<Action>>)
    requires |runs| == |calls| && BetweenMessages(s) && Parts(calls) && EndsCalls(s, calls, runs)
    requires |calls[0].chunk| + calls[0].rest + 5 >= |s.ring.buf|
    ensures var t := AfterCalls(s, calls, runs);
      && (Skipping(t) <==> |calls| == 1) && (BetweenMessages(t) <==> |calls| > 1)
      && Writers(t.ring) == Writers(s.ring) && t.log.sent == s.log.sent
      && t.log.rets == s.log.rets + [false] + seq(|calls| - 1, _ => true)
  {
    var t := Exec(Apply(s, Enter(calls[0].chunk, calls[0].rest)), runs[0]);
    OversizedCall(s, calls[0].chunk, calls[0].rest, runs[0], t);
    hide EndsCall;
    hide Writers;
    if |calls| == 1 {
      assert calls[1..] == [];
      assert AfterCalls(t, [], runs[1..]) == t;
      assert seq(0, _ => true) == [];
    } else {
      SkippedParts(t, calls[1..], runs[1..]);
    }
  }

  /** Such runs exist: the writer's own steps. */
  lemma FruitlessCallEnds(s: Sys, chunk: seq<byte>, rest: nat) returns (acts: seq<Action>, t: Sys)
    requires chunk != [] && (Skipping(s) || (BetweenMessages(s) && |chunk| + rest + 5 >= |s.ring.buf|))
    ensures EndsCall(s, chunk, rest, acts, t)
  {
    hide Cell;
    var s1 := Apply(s, Enter(chunk, rest));
    var s2 := WriterStep(s1);
    LeadsByOne(s1, W);
    acts, t := [W], s2;
    if s2.w.pc != Out {
      LeadsByOne(s2, W);
      LeadsOn(s1, [W], s2, [W], WriterStep(s2));
      acts, t := [W] + [W], WriterStep(s2);
    }
  }
}
