/**
 * Chunking does not show in any run, waits and reads included: not in what is sent, not
 * before the last chunk, and not in the ring.
 */
module StringRingChunks {
  import opened Laps
  import opened Words
  import opened StringRing
  import opened StringRingInvariant
  import opened StringRingFifo
  import opened StringRingWait
  import opened StringRingCalls

  // ---------------------------------------------------------------- what is sent

  /** Calls that all announce more add no message. */
  lemma {:induction false} PartsAddNothing(calls: seq<Call>, parts: seq<Call>)
    requires forall i :: 0 <= i < |parts| ==> parts[i].rest > 0
    ensures Assemble(calls + parts).messages == Assemble(calls).messages
    decreases |parts|
  {
    hide Assemble;
    if parts == [] {
      assert calls + parts == calls;
    } else {
      var front, last := parts[..|parts| - 1], parts[|parts| - 1];
      PartsAddNothing(calls, front);
      AssembleNext(calls + front, last);
      assert calls + parts == calls + front + [last];
    }
  }

  /** The calls that write a message in chunks add this message. */
  lemma {:induction false} ChunksAddMessage(calls: seq<Call>, chunks: seq<seq<byte>>)
    requires chunks != [] && NoEmptyChunk(chunks)
    requires Assemble(calls).acc == [] || Assemble(calls).announced == |Assemble(calls).acc| + |Joined(chunks)|
    ensures Assemble(calls + ChunkCalls(chunks)).messages ==
      Assemble(calls).messages + [Assemble(calls).acc + Joined(chunks)]
    decreases |chunks|
  {
    hide Assemble;
    var p, rest, c := Assemble(calls), chunks[1..], Call(chunks[0], |Joined(chunks[1..])|);
    AssembleNext(calls, c);
    assert Joined(chunks) == chunks[0] + Joined(rest);
    assert ChunkCalls(chunks) == [c] + ChunkCalls(rest);
    if rest == [] {
      assert Joined(rest) == [] && ChunkCalls(rest) == [];
      assert chunks[0] + [] == chunks[0];
      assert calls + ([c] + []) == calls + [c];
    } else {
      assert Joined(rest) == rest[0] + Joined(rest[1..]);
      hide ChunkCalls;
      hide Joined;
      ChunksAddMessage(calls + [c], rest);
      assert calls + ([c] + ChunkCalls(rest)) == calls + [c] + ChunkCalls(rest);
      assert p.acc + (chunks[0] + Joined(rest)) == p.acc + chunks[0] + Joined(rest);
    }
  }

  lemma {:induction false} CallsOnlyGrow(s: Sys, acts: seq<Action>)
    requires s.ring.buf != [] && Reset !in acts
    ensures s.log.calls <= Exec(s, acts).log.calls
    decreases |acts|
  {
    hide Cell;
    hide Put;
    hide ReadAt;
    if acts != [] {
      CallsOnlyGrow(Apply(s, acts[0]), acts[1..]);
    }
  }

  /** What has been sent is what the completed calls assemble to, and reads are of it. */
  lemma SentIsAssembled(s: Sys)
    requires Steady(s)
    ensures s.log.sent == Assemble(s.log.calls).messages && s.log.got <= s.log.sent
    ensures s.w.pc == Out ==> InFlight(s.w) == []
    ensures s.w.pc == Out && s.ring.writingCursor == 0 ==> Assemble(s.log.calls).acc == []
  {
    hide Assemble;
    hide Unread;
    hide Begun;
  }

  /**
   * Before the last chunk no read returns anything of a message: whatever the threads do,
   * as long as all calls entered announce more, nothing new has been sent, and all that is
   * read had been sent before.
   */
  lemma PartsStayHidden(s: Sys, acts: seq<Action>)
    requires Steady(s) && s.w.pc == Out && PermittedRun(s, acts) && Reset !in acts
    requires forall i :: 0 <= i < |Entered(acts)| ==> Entered(acts)[i].rest > 0
    ensures var t := Exec(s, acts);
      t.log.sent == s.log.sent && t.log.got <= s.log.sent
  {
    hide Steady;
    hide Assemble;
    hide PermittedRun;
    hide Exec;
    hide Entered;
    var t, entered := Exec(s, acts), Entered(acts);
    SteadyRun(s, acts);
    CallsOnlyGrow(s, acts);
    SentIsAssembled(s);
    SentIsAssembled(t);
    hide InFlight;
    var m := |t.log.calls| - |s.log.calls|;
    var parts := t.log.calls[|s.log.calls|..];
    assert t.log.calls == s.log.calls + parts;
    forall i | 0 <= i < |parts|
      ensures parts[i].rest > 0
    {
      assert (t.log.calls + InFlight(t.w))[|s.log.calls| + i] == (s.log.calls + entered)[|s.log.calls| + i];
    }
    PartsAddNothing(s.log.calls, parts);
  }

  lemma ChunksRunSends(s: Sys, chunks: seq<seq<byte>>, acts: seq<Action>)
    requires Steady(s) && s.w.pc == Out && s.ring.writingCursor == 0
    requires chunks != [] && NoEmptyChunk(chunks)
    requires PermittedRun(s, acts) && Reset !in acts && Entered(acts) == ChunkCalls(chunks)
    requires Exec(s, acts).w.pc == Out
    ensures Exec(s, acts).log.sent == s.log.sent + [Joined(chunks)]
  {
    hide Steady;
    hide Assemble;
    hide PermittedRun;
    hide Exec;
    hide ChunkCalls;
    hide Joined;
    SteadyRun(s, acts);
    SentIsAssembled(s);
    SentIsAssembled(Exec(s, acts));
    assert s.log.calls + [] + ChunkCalls(chunks) == s.log.calls + ChunkCalls(chunks);
    assert Exec(s, acts).log.calls + [] == Exec(s, acts).log.calls;
    ChunksAddMessage(s.log.calls, chunks);
    assert [] + Joined(chunks) == Joined(chunks);
  }

  lemma OneChunk(msg: seq<byte>)
    ensures ChunkCalls([msg]) == [Call(msg, 0)] && Joined([msg]) == msg
  {
    assert [msg][1..] == [];
    assert ChunkCalls([]) == [];
  }

  // ---------------------------------------------------------------- where a call ends

  /** The ring without the reader's fields, which is all the writer shares with it but reads in the guard alone. */
  function Bare(g: Ring): (r: Ring)
    ensures r.buf == g.buf
  {
    g.(readingCursor := 0, readingBegin := 0)
  }

  /** A writer with nobody beside it. */
  function Lone(g: Ring, w: Writer): Sys {
    Sys(g, w, Idle, NO_LOG)
  }

  /** Nothing makes the writer wait. */
  predicate Free(g: Ring, w: Writer) {
    g.buf != [] && g.readingBegin == 0 && OnTrack(Lone(g, w))
  }

  lemma FreeStep(g: Ring, w: Writer)
    requires Free(g, w) && w.pc != Out
    ensures var t := WriterStep(Lone(g, w));
      Free(t.ring, t.w) && Distance(Lone(t.ring, t.w)) < Distance(Lone(g, w))
  {
    TrackedStep(Lone(g, w));
    hide OnTrack;
    hide Cell;
    hide Put;
  }

  /** The ring when the call has come to its end. */
  ghost function EndRing(g: Ring, w: Writer): (r: Ring)
    requires Free(g, w)
    ensures |r.buf| == |g.buf|
    decreases Distance(Lone(g, w))
  {
    if w.pc == Out then g
    else
      FreeStep(g, w);
      var t := WriterStep(Lone(g, w));
      EndRing(t.ring, t.w)
  }

  /** The same writer at the same ring, but for the reader's fields, which only the guard looks at. */
  predicate SameWriter(s: Sys, t: Sys) {
    && s.ring.buf != [] && t.w == s.w
    && t.ring == s.ring.(readingCursor := t.ring.readingCursor, readingBegin := t.ring.readingBegin)
  }

  lemma SameWhileEarly(s: Sys, t: Sys)
    requires SameWriter(s, t) && Early(s.w.pc)
    requires s.w.pc == Guard || s.w.pc == GuardEnd ==> t.ring == s.ring
    ensures SameWriter(WriterStep(s), WriterStep(t)) && Bare(WriterStep(t).ring) == Bare(WriterStep(s).ring)
    ensures WriterStep(t).ring.readingBegin == t.ring.readingBegin
    ensures WriterStep(t).ring.readingCursor == t.ring.readingCursor
  {
    hide Cell;
    hide Put;
    hide Padding;
  }

  lemma SameWhileStoring(s: Sys, t: Sys)
    requires SameWriter(s, t) && s.w.pc in {Out, PutFlag, PutLength, Account, Copy}
    ensures SameWriter(WriterStep(s), WriterStep(t)) && Bare(WriterStep(t).ring) == Bare(WriterStep(s).ring)
    ensures WriterStep(t).ring.readingBegin == t.ring.readingBegin
    ensures WriterStep(t).ring.readingCursor == t.ring.readingCursor
  {
    hide Cell;
    hide Put;
    hide U32Bytes;
  }

  lemma SameAtFinish(s: Sys, t: Sys)
    requires SameWriter(s, t) && s.w.pc == Finish
    ensures SameWriter(WriterStep(s), WriterStep(t)) && Bare(WriterStep(t).ring) == Bare(WriterStep(s).ring)
    ensures WriterStep(t).ring.readingBegin == t.ring.readingBegin
    ensures WriterStep(t).ring.readingCursor == t.ring.readingCursor
  {
    hide Cell;
    hide Put;
    hide U32Bytes;
  }

  lemma SameAtPublish(s: Sys, t: Sys)
    requires SameWriter(s, t) && s.w.pc == Publish
    ensures SameWriter(WriterStep(s), WriterStep(t)) && Bare(WriterStep(t).ring) == Bare(WriterStep(s).ring)
    ensures WriterStep(t).ring.readingBegin == t.ring.readingBegin
    ensures WriterStep(t).ring.readingCursor == t.ring.readingCursor
  {
    hide Cell;
    hide Put;
    hide U32Bytes;
  }

  lemma SameWhileLate(s: Sys, t: Sys)
    requires SameWriter(s, t) && !Early(s.w.pc)
    ensures SameWriter(WriterStep(s), WriterStep(t)) && Bare(WriterStep(t).ring) == Bare(WriterStep(s).ring)
    ensures WriterStep(t).ring.readingBegin == t.ring.readingBegin
    ensures WriterStep(t).ring.readingCursor == t.ring.readingCursor
  {
    hide WriterStep;
    match s.w.pc
    case Finish => SameAtFinish(s, t);
    case Publish => SameAtPublish(s, t);
    case _ => SameWhileStoring(s, t);
  }

  /** The writer looks neither at the other thread nor at the log. */
  lemma WriterAlone(s: Sys, t: Sys)
    requires s.ring.buf != [] && t.ring == s.ring && t.w == s.w
    ensures WriterStep(t).ring == WriterStep(s).ring && WriterStep(t).w == WriterStep(s).w
  {
    hide WriterStep;
    if Early(s.w.pc) {
      SameWhileEarly(s, t);
      SameWhileEarly(s, s);
    } else {
      SameWhileLate(s, t);
      SameWhileLate(s, s);
    }
  }

  /** Outside the guard it does not look at the reader's fields. */
  lemma WriterBare(s: Sys)
    requires s.ring.buf != [] && s.w.pc != Guard && s.w.pc != GuardEnd
    ensures var t := WriterStep(Lone(Bare(s.ring), s.w));
      t.ring == Bare(WriterStep(s).ring) && t.w == WriterStep(s).w
  {
    hide WriterStep;
    var t := Lone(Bare(s.ring), s.w);
    if Early(s.w.pc) {
      SameWhileEarly(s, t);
    } else {
      SameWhileLate(s, t);
    }
  }

  lemma BareIsFree(s: Sys)
    requires s.ring.buf != [] && OnTrack(s)
    ensures Free(Bare(s.ring), s.w)
  {
    hide Cell;
  }

  /** Where the call the writer is in will leave the ring. */
  ghost function Outcome(s: Sys): (r: Ring)
    requires s.ring.buf != [] && OnTrack(s)
    ensures |r.buf| == |s.ring.buf|
  {
    BareIsFree(s);
    EndRing(Bare(s.ring), s.w)
  }

  lemma GuardsLeadOn(g: Ring, w: Writer)
    requires Free(g, w) && (w.pc == Guard || w.pc == GuardEnd)
    ensures Free(g, w.(pc := Check)) && EndRing(g, w) == EndRing(g, w.(pc := Check))
  {
    hide Cell;
    var t := WriterStep(Lone(g, w));
    FreeStep(g, w);
    if t.w.pc == Guard {
      FreeStep(g, t.w);
      assert WriterStep(Lone(g, t.w)) == Lone(g, w.(pc := Check));
    }
  }

  /** No step inside a call changes where the call ends. */
  lemma OutcomeKept(s: Sys)
    requires s.ring.buf != [] && OnTrack(s) && s.w.pc != Out && !s.ring.resetting
    ensures OnTrack(WriterStep(s)) && Outcome(WriterStep(s)) == Outcome(s)
  {
    hide Cell;
    hide OnTrack;
    TrackedStep(s);
    BareIsFree(s);
    BareIsFree(WriterStep(s));
    if s.w.pc == Guard || s.w.pc == GuardEnd {
      GuardMoves(s);
      hide WriterStep;
      GuardsLeadOn(Bare(s.ring), s.w);
      if WriterStep(s).w.pc != Check {
        GuardsLeadOn(Bare(s.ring), WriterStep(s).w);
      }
    } else {
      WriterBare(s);
      hide WriterStep;
    }
  }

  lemma GuardMoves(s: Sys)
    requires s.ring.buf != [] && (s.w.pc == Guard || s.w.pc == GuardEnd)
    ensures var t := WriterStep(s);
      t.ring == s.ring && t.w == s.w.(pc := t.w.pc) && t.w.pc in {Guard, GuardEnd, Check}
  {
    hide Cell;
  }

  /** Steps taken alone that end a call end it where it ends. */
  lemma {:induction false} StepsEnd(s: Sys, k: nat)
    requires Free(s.ring, s.w) && StepsEnabled(s, k) && Steps(s, k).w.pc == Out
    ensures EndRing(s.ring, s.w) == Steps(s, k).ring
    decreases k
  {
    hide WriterStep;
    hide OnTrack;
    if k > 0 && s.w.pc != Out {
      FreeStep(s.ring, s.w);
      WriterAlone(s, Lone(s.ring, s.w));
      StepsEnd(WriterStep(s), k - 1);
    }
  }

  lemma OutcomeOfCall(g: Ring, chunk: seq<byte>, rest: nat)
    requires Ready(Lone(g, NO_WRITER), chunk, rest) && g.readingBegin == 0
    ensures var t := Apply(Lone(g, NO_WRITER), Enter(chunk, rest));
      Free(t.ring, t.w) && EndRing(t.ring, t.w) == WriteCall(g, chunk, rest)
  {
    var t := Apply(Lone(g, NO_WRITER), Enter(chunk, rest));
    ReadyIsFree(g, chunk, rest);
    hide Ready;
    hide Apply;
    var k := CallRuns(Lone(g, NO_WRITER), chunk, rest);
    StepsEnd(t, k);
    hide WriteCall;
  }

  lemma ReadyIsFree(g: Ring, chunk: seq<byte>, rest: nat)
    requires Ready(Lone(g, NO_WRITER), chunk, rest) && g.readingBegin == 0
    ensures var t := Apply(Lone(g, NO_WRITER), Enter(chunk, rest)); Free(t.ring, t.w)
  {
    hide Cell;
  }

  // ---------------------------------------------------------------- the ring

  /** Each of the calls can start where the one before has ended. */
  predicate CallsReady(g: Ring, calls: seq<Call>)
    requires g.buf != []
    decreases |calls|
  {
    calls == [] ||
    (Ready(Lone(g, NO_WRITER), calls[0].chunk, calls[0].rest)
     && CallsReady(WriteCall(g, calls[0].chunk, calls[0].rest), calls[1..]))
  }

  lemma {:induction false} ChunksReady(g: Ring, chunks: seq<seq<byte>>)
    requires g.buf != [] && chunks != [] && NoEmptyChunk(chunks)
    requires Ready(Lone(g, NO_WRITER), chunks[0], |Joined(chunks[1..])|)
    ensures CallsReady(g, ChunkCalls(chunks))
    decreases |chunks|
  {
    hide Ready;
    hide WriteCall;
    var c, rest := Call(chunks[0], |Joined(chunks[1..])|), chunks[1..];
    assert ChunkCalls(chunks)[0] == c && ChunkCalls(chunks)[1..] == ChunkCalls(rest);
    if rest != [] {
      assert Joined(rest) == rest[0] + Joined(rest[1..]);
      NextReady(g, c.chunk, c.rest, rest[0]);
      ChunksReady(WriteCall(g, c.chunk, c.rest), rest);
    }
  }

  lemma NextReady(g: Ring, chunk: seq<byte>, rest: nat, next: seq<byte>)
    requires g.buf != [] && Ready(Lone(g, NO_WRITER), chunk, rest) && next != [] && |next| <= rest
    ensures Ready(Lone(WriteCall(g, chunk, rest), NO_WRITER), next, rest - |next|)
  {
    var log := NO_LOG.(rets := [true], sent := if rest == 0 then [chunk] else [],
                       acc := if rest == 0 then [] else chunk);
    var t := Sys(WriteCall(g, chunk, rest), NO_WRITER, Idle, log);
    assert [] + chunk == chunk && [] + [true] == [true] && [] + [chunk] == [chunk];
    assert CallDone(Lone(g, NO_WRITER), t, chunk, rest);
    ReadyForNext(Lone(g, NO_WRITER), t, chunk, rest, next);
  }

  /** The reader does not touch what the writer has. */
  lemma ReaderAside(s: Sys, a: Action)
    requires s.ring.buf != [] && Enabled(s, a) && (a == Load || a == Take)
    ensures Bare(Apply(s, a).ring) == Bare(s.ring) && Apply(s, a).w == s.w
    ensures OnTrack(s) ==> OnTrack(Apply(s, a)) && Outcome(Apply(s, a)) == Outcome(s)
  {
    hide Cell;
    hide ReadAt;
  }

  lemma EntersOutcome(s: Sys, chunk: seq<byte>, rest: nat)
    requires Steady(s) && s.w.pc == Out && chunk != [] && Ready(Lone(Bare(s.ring), NO_WRITER), chunk, rest)
    ensures var t := Apply(s, Enter(chunk, rest));
      OnTrack(s) && OnTrack(t) && Outcome(s) == Bare(s.ring) && Outcome(t) == WriteCall(Bare(s.ring), chunk, rest)
  {
    hide Cell;
    hide Layout;
    hide WriterOk;
    OutcomeOfCall(Bare(s.ring), chunk, rest);
    hide WriteCall;
  }

  lemma SteadyFacts(s: Sys)
    requires Steady(s)
    ensures OnTrack(s) && !s.ring.resetting
  {
    InvOnTrack(s);
    hide OnTrack;
    hide Layout;
    hide WriterOk;
  }

  /** One step of a run, and the calls still to be entered. */
  lemma StepOutcome(s: Sys, a: Action, calls: seq<Call>)
    requires Steady(s) && Permitted(s, a) && a != Reset
    requires OnTrack(s) && CallsReady(Outcome(s), calls) && Entered([a]) <= calls
    ensures Steady(Apply(s, a)) && OnTrack(Apply(s, a))
    ensures var left := calls[|Entered([a])|..];
      && CallsReady(Outcome(Apply(s, a)), left)
      && WriteCalls(Outcome(Apply(s, a)), left) == WriteCalls(Outcome(s), calls)
  {
    hide Steady;
    hide OnTrack;
    hide Ready;
    hide WriteCall;
    hide Contract;
    CallsGrow(s, a);
    SteadyFacts(s);
    SteadyFacts(Apply(s, a));
    assert Entered([a]) == if a.Enter? && a.chunk != [] then [Call(a.chunk, a.rest)] else [];
    if a == W {
      OutcomeKept(s);
    } else if a.Enter? {
      hide EndRing;
      if a.chunk != [] {
        OutIsBare(s);
        EntersOutcome(s, a.chunk, a.rest);
      } else {
        RingAlone(s, Apply(s, a));
      }
    } else {
      ReaderAside(s, a);
    }
  }

  lemma OutIsBare(s: Sys)
    requires s.ring.buf != [] && OnTrack(s) && s.w.pc == Out
    ensures Outcome(s) == Bare(s.ring)
  {
    hide OnTrack;
  }

  lemma RingAlone(s: Sys, t: Sys)
    requires s.ring.buf != [] && t.ring == s.ring && t.w == s.w && OnTrack(s) && OnTrack(t)
    ensures Outcome(t) == Outcome(s)
  {
    hide OnTrack;
  }

  lemma {:induction false} RunOutcome(s: Sys, acts: seq<Action>)
    requires Steady(s) && PermittedRun(s, acts) && Reset !in acts
    requires OnTrack(s) && CallsReady(Outcome(s), Entered(acts))
    ensures Steady(Exec(s, acts)) && OnTrack(Exec(s, acts))
    ensures Outcome(Exec(s, acts)) == WriteCalls(Outcome(s), Entered(acts))
    decreases |acts|
  {
    hide Steady;
    hide OnTrack;
    hide CallsReady;
    hide Outcome;
    hide Apply;
    hide Permitted;
    if acts == [] {
      NoCalls(Outcome(s));
    } else {
      var a := acts[0];
      assert Entered(acts) == Entered([a]) + Entered(acts[1..]);
      assert Entered(acts)[|Entered([a])|..] == Entered(acts[1..]);
      StepOutcome(s, a, Entered(acts));
      RunOutcome(Apply(s, a), acts[1..]);
    }
  }

  lemma NoCalls(g: Ring)
    requires g.buf != []
    ensures WriteCalls(g, []) == g
  {
  }

  /** The contract makes the first call of a run fit. */
  lemma {:induction false} FirstCallFits(s: Sys, acts: seq<Action>)
    requires Steady(s) && s.w.pc == Out && s.ring.writingCursor == 0
    requires PermittedRun(s, acts) && Reset !in acts && Entered(acts) != []
    ensures |Entered(acts)[0].chunk| + Entered(acts)[0].rest + 5 < |s.ring.buf|
    decreases |acts|
  {
    hide Steady;
    hide ReadAt;
    SteadyFacts(s);
    var a := acts[0];
    if !(a.Enter? && a.chunk != []) {
      CallsGrow(s, a);
      FirstCallFits(Apply(s, a), acts[1..]);
    }
  }

  /** A message that is about to be begun can be written in chunks. */
  lemma FirstChunkReady(s: Sys, chunks: seq<seq<byte>>)
    requires Steady(s) && s.w.pc == Out && s.ring.writingCursor == 0
    requires chunks != [] && NoEmptyChunk(chunks) && |Joined(chunks)| + 5 < |s.ring.buf|
    ensures Ready(Lone(Bare(s.ring), NO_WRITER), chunks[0], |Joined(chunks[1..])|)
    ensures Joined(chunks) != [] && Ready(Lone(Bare(s.ring), NO_WRITER), Joined(chunks), 0)
  {
    assert Joined(chunks) == chunks[0] + Joined(chunks[1..]);
    hide Joined;
    hide Layout;
    hide Cell;
  }

  /**
   * Chunking is invisible in every run, waits and reads included: two writers, one sending
   * a message in chunks and one at once, have sent the same when both are done, and left
   * the same ring, but for where the reader has got to.
   */
  lemma ChunkedRunsSendTheSame(s: Sys, chunks: seq<seq<byte>>, piecewise: seq<Action>, whole: seq<Action>)
    requires Steady(s) && s.w.pc == Out && s.ring.writingCursor == 0
    requires chunks != [] && NoEmptyChunk(chunks)
    requires PermittedRun(s, piecewise) && Reset !in piecewise && Entered(piecewise) == ChunkCalls(chunks)
    requires PermittedRun(s, whole) && Reset !in whole && Entered(whole) == [Call(Joined(chunks), 0)]
    requires Exec(s, piecewise).w.pc == Out && Exec(s, whole).w.pc == Out
    ensures Exec(s, piecewise).log.sent == Exec(s, whole).log.sent == s.log.sent + [Joined(chunks)]
    ensures Bare(Exec(s, piecewise).ring) == Bare(Exec(s, whole).ring)
      == WriteCall(Bare(s.ring), Joined(chunks), 0)
  {
    hide Steady;
    hide Ready;
    hide OnTrack;
    hide Joined;
    hide ChunkCalls;
    hide PermittedRun;
    hide Exec;
    hide Outcome;
    hide WriteCall;
    var msg, g := Joined(chunks), Bare(s.ring);
    SteadyFacts(s);
    FirstCallFits(s, whole);
    OutIsBare(s);
    FirstChunkReady(s, chunks);
    OneChunk(msg);
    ChunksReady(g, chunks);
    assert CallsReady(g, [Call(msg, 0)]) by {
      assert [Call(msg, 0)][1..] == [];
    }
    ChunksRunSends(s, chunks, piecewise);
    ChunksRunSends(s, [msg], whole);
    RunOutcome(s, piecewise);
    RunOutcome(s, whole);
    OutIsBare(Exec(s, piecewise));
    OutIsBare(Exec(s, whole));
    ChunkingInvisible(g, chunks);
    OneCall(g, msg);
  }

  lemma OneCall(g: Ring, msg: seq<byte>)
    requires g.buf != []
    ensures WriteCalls(g, [Call(msg, 0)]) == WriteCall(g, msg, 0)
  {
    hide WriteCall;
    CallsStep(g, Call(msg, 0), []);
    assert [Call(msg, 0)] + [] == [Call(msg, 0)];
    CallsEnd(WriteCall(g, msg, 0));
  }
}
