/** What `reset` does to a writer in the middle of a call, and to everything after it. */
module StringRingReset {
  import opened Laps
  import opened Words
  import opened StringRing
  import opened StringRingInvariant
  import opened StringRingWait

  // ---------------------------------------------------------------- leaving

  /** A writer that entered before `reset` bumped its count and has not passed its check. */
  predicate Caught(s: Sys) {
    s.ring.buf != [] && Early(s.w.pc) && s.w.seen != s.ring.resetCount && !s.ring.skip && s.ring.writing
    && (s.w.pc == Reserve ==> |s.w.chunk| + s.w.rest + 5 < |s.ring.buf|)
  }

  /**
   * A writer that is waiting, or on its way to, when `reset` starts publishes nothing of
   * its message, whatever the other thread does meanwhile: it can only leave with `false`,
   * and until it has left, the ring is not cleared.
   */
  lemma {:induction false} CaughtWriterPublishesNothing(s: Sys, acts: seq<Action>)
    requires Caught(s) && Resetting(s)
    requires EnabledRun(s, acts) && forall i :: 0 <= i < |acts| ==> !acts[i].Enter?
    ensures var t := Exec(s, acts);
      if t.w.pc == Out then t.log.rets == s.log.rets + [false] && (t.log.sent == s.log.sent || t.log.sent == [])
      else Caught(t) && Resetting(t) && t.log.rets == s.log.rets && t.log.sent == s.log.sent
    decreases |acts|
  {
    hide Cell;
    hide Put;
    hide ReadAt;
    if acts != [] {
      var t := Apply(s, acts[0]);
      if t.w.pc == Out {
        GoneStaysGone(t, acts[1..]);
      } else {
        CaughtWriterPublishesNothing(t, acts[1..]);
      }
    }
  }

  /** Outside `write` and with no further call, nothing is published any more. */
  lemma {:induction false} GoneStaysGone(s: Sys, acts: seq<Action>)
    requires s.ring.buf != [] && s.w.pc == Out
    requires EnabledRun(s, acts) && forall i :: 0 <= i < |acts| ==> !acts[i].Enter?
    ensures var t := Exec(s, acts);
      t.w.pc == Out && t.log.rets == s.log.rets && (t.log.sent == s.log.sent || t.log.sent == [])
    decreases |acts|
  {
    hide ReadAt;
    if acts != [] {
      GoneStaysGone(Apply(s, acts[0]), acts[1..]);
    }
  }

  /** With the flag of `reset` up, every run that is long enough ends the call: only the writer can move. */
  lemma {:induction false} FlagEndsCall(s: Sys, acts: seq<Action>) returns (k: nat)
    requires s.ring.buf != [] && s.r == Raised && s.ring.resetting && OnTrack(s)
    requires s.w.pc != Out ==> s.ring.writing
    requires EnabledRun(s, acts) && |acts| >= Distance(s)
    ensures k <= |acts| && k <= Distance(s) && Exec(s, acts[..k]).w.pc == Out
    ensures forall i :: 0 <= i < k ==> acts[i] == W
    decreases |acts|
  {
    hide Distance;
    hide OnTrack;
    DistanceOfOut(s);
    if s.w.pc == Out {
      k := 0;
    } else {
      assert acts[0] == W;
      TrackedStep(s);
      hide WriterStep;
      k := FlagEndsCall(WriterStep(s), acts[1..]);
      k := k + 1;
      assert acts[..k][1..] == acts[1..][..k - 1];
    }
  }

  lemma DistanceOfOut(s: Sys)
    requires s.ring.buf != []
    ensures Distance(s) == 0 <==> s.w.pc == Out
  {
  }

  /** And the writer's own steps are such a run. */
  lemma {:induction false} WriterEndsUnderFlag(s: Sys) returns (k: nat)
    requires s.ring.buf != [] && s.r == Raised && s.ring.resetting && OnTrack(s)
    ensures var acts := seq(k, _ => W);
      && EnabledRun(s, acts) && Exec(s, acts).w.pc == Out && Exec(s, acts).r == Raised && Exec(s, acts).ring.resetting
    decreases Distance(s)
  {
    hide Distance;
    hide OnTrack;
    if s.w.pc == Out {
      k := 0;
    } else {
      TrackedStep(s);
      hide WriterStep;
      k := WriterEndsUnderFlag(WriterStep(s));
      k := k + 1;
      assert seq(k, _ => W)[1..] == seq(k - 1, _ => W);
    }
  }

  /** The next step of a `reset` that has bumped its count raises the flag, and leaves the writer on track. */
  function FlagUp(s: Sys): (t: Sys)
    requires s.ring.buf != []
    ensures |t.ring.buf| == |s.ring.buf|
  {
    if s.r == Bumped then Apply(s, Reset) else s
  }

  function FlagActs(s: Sys): seq<Action> {
    if s.r == Bumped then [Reset] else []
  }

  lemma FlagLeads(s: Sys)
    requires s.ring.buf != [] && Resetting(s) && OnTrack(s) && (s.ring.resetting <==> s.r == Raised)
    ensures Leads(s, FlagActs(s), FlagUp(s))
    ensures var t := FlagUp(s);
      && t.r == Raised && t.ring.resetting && OnTrack(t) && t.w == s.w && t.log == s.log
      && t.ring == s.ring.(resetting := true)
  {
    hide Cell;
    if s.r == Bumped {
      LeadsByOne(s, Reset);
    }
  }

  /** A call that is on track when `reset` is under way comes to its end. */
  lemma CallEndsInReset(s: Sys) returns (acts: seq<Action>)
    requires s.ring.buf != [] && Resetting(s) && OnTrack(s) && (s.ring.resetting <==> s.r == Raised)
    ensures EnabledRun(s, acts) && Exec(s, acts).w.pc == Out
    ensures Exec(s, acts).r == Raised && Exec(s, acts).ring.resetting
    ensures forall i :: 0 <= i < |acts| ==> acts[i] == W || acts[i] == Reset
  {
    hide OnTrack;
    FlagLeads(s);
    var k := WriterEndsUnderFlag(FlagUp(s));
    RunThen(s, FlagActs(s), seq(k, _ => W));
    acts := FlagActs(s) + seq(k, _ => W);
  }

  /** A writer that is waiting, or on its way to, when `reset` starts leaves, and with `false`. */
  lemma CaughtWriterLeaves(s: Sys) returns (acts: seq<Action>)
    requires Inv(s) && Caught(s) && Resetting(s)
    ensures EnabledRun(s, acts) && forall i :: 0 <= i < |acts| ==> acts[i] == W || acts[i] == Reset
    ensures var t := Exec(s, acts);
      t.w.pc == Out && t.log.rets == s.log.rets + [false] && (t.log.sent == s.log.sent || t.log.sent == [])
  {
    hide Caught;
    InvOnTrack(s);
    hide Layout;
    hide WriterOk;
    acts := CallEndsInReset(s);
    CaughtWriterPublishesNothing(s, acts);
  }

  // ---------------------------------------------------------------- ending

  /** What `reset` leaves behind, with no writer inside `write`. */
  predicate ResetDone(s: Sys) {
    && s.w.pc == Out && s.r == Idle && !s.ring.resetting && !s.ring.writing
    && s.ring.cursor == s.ring.reserved == s.ring.readingCursor == s.ring.writingCursor == 0
    && s.log.recs == [] && s.log.sent == [] && s.log.got == [] && s.log.calls == []
  }

  lemma ClearedAndDone(s: Sys)
    requires Inv(s) && s.r == Raised && s.w.pc == Out
    ensures Permitted(s, Reset) && Permitted(Apply(s, Reset), Reset) && ResetDone(Apply(Apply(s, Reset), Reset))
  {
    hide Layout;
    hide WriterOk;
  }

  /**
   * The steps of the writer and of `reset` bring both to their end: no `reset` under way
   * waits for ever for a writer that the invariant speaks of, nor the writer for it.
   */
  lemma {:induction false} ResetReturns(s: Sys) returns (acts: seq<Action>)
    requires Inv(s) && Resetting(s)
    ensures PermittedRun(s, acts) && forall i :: 0 <= i < |acts| ==> acts[i] == W || acts[i] == Reset
    ensures Inv(Exec(s, acts)) && ResetDone(Exec(s, acts))
    decreases s.r == Bumped, Distance(s)
  {
    hide Inv;
    hide Distance;
    hide OnTrack;
    hide WriterStep;
    InvOnTrack(s);
    if s.r == Raised && s.w.pc == Out {
      ClearedAndDone(s);
      InvKept(s, Reset);
      InvKept(Apply(s, Reset), Reset);
      acts := [Reset, Reset];
      assert acts[1..] == [Reset] && acts[1..][1..] == [];
      assert PermittedRun(Apply(Apply(s, Reset), Reset), []);
      assert PermittedRun(Apply(s, Reset), [Reset]);
    } else {
      var a := if s.r == Bumped then Reset else W;
      if a == W {
        NotWaitingUnderFlag(s);
        TrackedStep(s);
      }
      InvKept(s, a);
      var more := ResetReturns(Apply(s, a));
      acts := [a] + more;
      assert acts[1..] == more;
    }
  }

  lemma NotWaitingUnderFlag(s: Sys)
    requires Inv(s) && s.r == Raised
    ensures !Waiting(s)
  {
  }

  // ---------------------------------------------------------------- as good as new

  /**
   * What a run can tell of a state: not the stale bytes, not the counters of a finished
   * message, not how many resets there have been.
   */
  function Seen(s: Sys): Sys {
    var g := s.ring;
    var between := (s.w.pc == Out && g.writingCursor == 0) || s.w.pc == Reserve;
    s.(ring := g.(buf := [], resetCount := 0,
                  total := if between then 0 else g.total,
                  remaining := if between then 0 else g.remaining),
       w := s.w.(seen := if Early(s.w.pc) && s.w.seen == g.resetCount then 1 else 0))
  }

  predicate Guarding(pc: WriterPc) {
    pc in {Guard, GuardEnd, Check, PutFlag, PutLength}
  }

  lemma SamePlacing(s: Sys, t: Sys)
    requires s.ring.buf != [] && Seen(s) == Seen(t) && |s.ring.buf| == |t.ring.buf|
    requires BeforeSkip(s.w.pc)
    ensures Seen(WriterStep(s)) == Seen(WriterStep(t))
  {
    hide Cell;
    hide Put;
  }

  lemma SameGuarding(s: Sys, t: Sys)
    requires s.ring.buf != [] && Seen(s) == Seen(t) && |s.ring.buf| == |t.ring.buf|
    requires Guarding(s.w.pc)
    ensures Seen(WriterStep(s)) == Seen(WriterStep(t))
  {
    hide Cell;
    hide Put;
  }

  lemma SameCopying(s: Sys, t: Sys)
    requires Inv(s) && Inv(t) && Seen(s) == Seen(t) && |s.ring.buf| == |t.ring.buf|
    requires s.w.pc != Out && !BeforeSkip(s.w.pc) && !Guarding(s.w.pc)
    ensures Seen(WriterStep(s)) == Seen(WriterStep(t))
  {
    hide Cell;
    hide Put;
    hide Layout;
    hide MessageAt;
    hide HeaderAt;
  }

  lemma SameStepOfWriter(s: Sys, t: Sys)
    requires Inv(s) && Inv(t) && Seen(s) == Seen(t) && |s.ring.buf| == |t.ring.buf|
    requires s.w.pc != Out
    ensures Seen(WriterStep(s)) == Seen(WriterStep(t))
  {
    hide Inv;
    hide Seen;
    hide WriterStep;
    if BeforeSkip(s.w.pc) {
      SamePlacing(s, t);
    } else if Guarding(s.w.pc) {
      SameGuarding(s, t);
    } else {
      SameCopying(s, t);
    }
  }

  lemma SameRead(s: Sys, t: Sys)
    requires Inv(s) && Inv(t) && Seen(s) == Seen(t) && |s.ring.buf| == |t.ring.buf| && s.r.Loaded?
    ensures Seen(Apply(s, Take)) == Seen(Apply(t, Take))
  {
    hide Stored;
    hide WriterOk;
    hide ReadAt;
    ReadsFirstRecord(s);
    ReadsFirstRecord(t);
  }

  /** States that look the same allow the same steps and go on looking the same. */
  lemma SameStep(s: Sys, t: Sys, a: Action)
    requires Inv(s) && Inv(t) && Seen(s) == Seen(t) && |s.ring.buf| == |t.ring.buf|
    requires Permitted(s, a)
    ensures Permitted(t, a) && Seen(Apply(s, a)) == Seen(Apply(t, a))
  {
    hide Stored;
    hide MessageAt;
    hide HeaderAt;
    hide Cell;
    hide WriterStep;
    hide TakeStep;
    if a == W {
      SameStepOfWriter(s, t);
    } else if a == Take {
      SameRead(s, t);
    }
  }

  lemma {:induction false} SameRun(s: Sys, t: Sys, acts: seq<Action>)
    requires Inv(s) && Inv(t) && Seen(s) == Seen(t) && |s.ring.buf| == |t.ring.buf|
    requires PermittedRun(s, acts)
    ensures PermittedRun(t, acts) && Seen(Exec(s, acts)) == Seen(Exec(t, acts))
    decreases |acts|
  {
    hide Inv;
    hide Seen;
    hide Apply;
    hide Permitted;
    if acts != [] {
      SameStep(s, t, acts[0]);
      InvKept(s, acts[0]);
      InvKept(t, acts[0]);
      SameRun(Apply(s, acts[0]), Apply(t, acts[0]), acts[1..]);
    }
  }

  /** A newly constructed ring, whose writer has already returned `rets`. */
  function NewRing(n: nat, rets: seq<bool>): Sys {
    Init(n).(log := NO_LOG.(rets := rets))
  }

  /** The last two steps of `reset`: clear the ring, lower the flag. */
  function FinishReset(s: Sys): (t: Sys)
    requires s.ring.buf != []
    ensures |t.ring.buf| == |s.ring.buf|
  {
    Apply(Apply(s, Reset), Reset)
  }

  /**
   * A ring that has been reset is as good as a new one: exactly the same runs are
   * possible afterwards, with the same messages sent and read and the same returns.
   */
  lemma ResetIsFresh(s: Sys, acts: seq<Action>)
    requires Inv(s) && s.r == Raised && Enabled(s, Reset)
    ensures
      var done := FinishReset(s);
      var unused := NewRing(|s.ring.buf|, s.log.rets);
      && (PermittedRun(done, acts) <==> PermittedRun(unused, acts))
      && (PermittedRun(done, acts) ==> Exec(done, acts).log == Exec(unused, acts).log)
  {
    var n, done := |s.ring.buf|, FinishReset(s);
    var unused := NewRing(n, s.log.rets);
    KeptByReset(s);
    KeptByReset(Apply(s, Reset));
    UnusedInv(n, s.log.rets);
    UnusedLooksCleared(s);
    hide Apply;
    hide Permitted;
    hide Inv;
    if PermittedRun(done, acts) {
      SameRun(done, unused, acts);
    }
    if PermittedRun(unused, acts) {
      SameRun(unused, done, acts);
    }
  }

  lemma UnusedInv(n: nat, rets: seq<bool>)
    requires 0 < n <= U32_LIMIT
    ensures Inv(NewRing(n, rets))
  {
    hide Stored;
    hide Cell;
    FirstCell(n);
    NothingStored(FreshRing(n).buf, 0);
  }

  lemma UnusedLooksCleared(s: Sys)
    requires Shape(s) && s.r == Raised && s.w == NO_WRITER
    ensures Seen(FinishReset(s)) == Seen(NewRing(|s.ring.buf|, s.log.rets))
  {
    hide Cell;
    FirstCell(|s.ring.buf|);
  }

  // ---------------------------------------------------------------- split

  /** The writer spins in `_notify`, waiting for a cursor nobody will move. */
  predicate Stuck(s: Sys) {
    && s.ring.buf != [] && (s.w.pc == PublishSkip || s.w.pc == Publish)
    && s.ring.cursor != s.ring.writingBegin && s.ring.writing && s.r != Cleared
  }

  /** Neither the write nor the reset waiting for it ever comes to an end. */
  lemma {:induction false} StuckForever(s: Sys, acts: seq<Action>)
    requires Stuck(s) && EnabledRun(s, acts)
    ensures Stuck(Exec(s, acts)) && Exec(s, acts).log.rets == s.log.rets
    decreases |acts|
  {
    hide Cell;
    hide ReadAt;
    if acts != [] {
      StuckForever(Apply(s, acts[0]), acts[1..]);
    }
  }

  /** In a `reset`, on the way to a publication for which the cursor is out of place. */
  predicate Doomed(s: Sys)
    ensures Doomed(s) ==> s.ring.buf != []
  {
    var g, total := s.ring, |s.w.chunk| + s.w.rest + 5;
    && g.buf != [] && Resetting(s) && !g.skip && g.writing
    && (Early(s.w.pc) ==> s.w.seen == g.resetCount)
    && match s.w.pc
       case Out => false
       case Reserve => g.reserved != g.cursor && total < |g.buf| && (s.w.rest == 0 || NeedsSkip(g, total))
       case PutSkip => g.writingBegin != g.cursor
       case PublishSkip => g.writingBegin != g.cursor
       case Publish => g.writingBegin != g.cursor
       case _ => g.writingBegin != g.cursor && s.w.rest == 0
  }

  lemma DoomedWrites(s: Sys)
    requires Doomed(s) && Enabled(s, W)
    ensures Doomed(WriterStep(s)) && WriterStep(s).log.rets == s.log.rets
  {
    hide Cell;
    hide Put;
    hide Padding;
    hide Begin;
    hide End;
    hide U32Bytes;
  }

  lemma DoomedStep(s: Sys, a: Action)
    requires Doomed(s) && Enabled(s, a)
    ensures Doomed(Apply(s, a)) && Apply(s, a).log.rets == s.log.rets
  {
    hide Cell;
    hide WriterStep;
    if a == W {
      DoomedWrites(s);
    }
  }

  /** Such a call never returns, and the `reset` never ends, whatever anybody does. */
  lemma {:induction false} DoomedForever(s: Sys, acts: seq<Action>)
    requires Doomed(s) && EnabledRun(s, acts)
    ensures Doomed(Exec(s, acts)) && Exec(s, acts).log.rets == s.log.rets
    decreases |acts|
  {
    hide Doomed;
    hide Apply;
    hide Enabled;
    if acts != [] {
      DoomedStep(s, acts[0]);
      DoomedForever(Apply(s, acts[0]), acts[1..]);
    }
  }

  /** A call that leaves no message begun has left a place unused exactly if it was turned away. */
  lemma HoleIffTurnedAway(s: Sys)
    requires Inv(s) && s.w.pc != Out && WriterStep(s).w.pc == Out && WriterStep(s).ring.writingCursor == 0
    ensures var t := WriterStep(s);
      t.ring.reserved == t.ring.cursor <==> t.log.rets == s.log.rets + [true]
  {
    hide Cell;
    hide Put;
    hide Stored;
    hide MessageAt;
    assert (s.log.rets + [true])[|s.log.rets|] != (s.log.rets + [false])[|s.log.rets|];
  }

  /** Between the first two statements of `reset`, and outside `write`. */
  predicate Split(s: Sys) {
    && s.ring.buf != [] && s.r == Bumped && s.w == NO_WRITER
    && !s.ring.writing && !s.ring.resetting && !s.ring.skip
  }

  /**
   * A call entered between the first two statements of `reset` returns in some
   * continuation if and only if what it publishes is in place, so the condition on the
   * timing of `reset` is exact; otherwise it returns in none.
   */
  lemma LateCallReturns(s: Sys, chunk: seq<byte>, rest: nat)
    requires Split(s) && chunk != [] && (s.ring.writingCursor == 0 ==> |chunk| + rest + 5 < |s.ring.buf|)
    ensures var t := Apply(s, Enter(chunk, rest));
      (exists acts :: EnabledRun(t, acts) && Exec(t, acts).w.pc == Out) <==> ResetNotSplit(s, Enter(chunk, rest))
  {
    var t := Apply(s, Enter(chunk, rest));
    if InPlace(s.ring, chunk, rest) {
      assert OnTrack(t);
      var acts := CallEndsInReset(t);
    } else {
      assert Doomed(t);
      forall acts | EnabledRun(t, acts)
        ensures Exec(t, acts).w.pc != Out
      {
        DoomedForever(t, acts);
      }
    }
  }

  /**
   * For a message of one call that is if and only if no write has been turned away there,
   * leaving a place unused.
   */
  lemma LateMessageReturns(s: Sys, msg: seq<byte>)
    requires Inv(s) && s.r == Bumped && s.w.pc == Out && s.ring.writingCursor == 0
    requires msg != [] && |msg| + 5 < |s.ring.buf|
    ensures var t := Apply(s, Enter(msg, 0));
      (exists acts :: EnabledRun(t, acts) && Exec(t, acts).w.pc == Out) <==> s.ring.reserved == s.ring.cursor
  {
    hide Layout;
    hide WriterOk;
    LateCallReturns(s, msg, 0);
  }

  /**
   * The same for a message of several calls: if its place is not at the cursor, its first
   * calls return, and its last one does not, unless it comes after the flag.
   */
  lemma LateLastChunkReturns(s: Sys, chunk: seq<byte>)
    requires Split(s) && s.ring.writingCursor != 0 && chunk != []
    ensures var t := Apply(s, Enter(chunk, 0));
      (exists acts :: EnabledRun(t, acts) && Exec(t, acts).w.pc == Out) <==> s.ring.writingBegin == s.ring.cursor
  {
    LateCallReturns(s, chunk, 0);
  }
}
