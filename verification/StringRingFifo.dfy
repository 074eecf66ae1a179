/** What the readers of the byte ring get, over every run. */
module StringRingFifo {
  import opened Laps
  import opened Words
  import opened StringRing
  import opened StringRingInvariant

  // ---------------------------------------------------------------- messages

  /** The log agrees with the reference reading of the completed write calls. */
  ghost predicate Assembled(s: Sys) {
    var p, g := Assemble(s.log.calls), s.ring;
    && p.messages == s.log.sent
    && (p.acc != [] ==> p.announced == g.total - 5)
    && (if (s.w.pc == Finish || s.w.pc == Publish) && g.remaining == s.w.rest then
          s.log.acc == p.acc + s.w.chunk
        else
          && s.log.acc == p.acc
          && (s.w.pc == Finish || s.w.pc == Publish ==>
            s.log.acc != [] && g.remaining == g.total - 5 - |s.log.acc| - |s.w.chunk|))
  }

  lemma AssembleNext(calls: seq<Call>, c: Call)
    ensures Assemble(calls + [c]) ==
      var p := Assemble(calls);
      var announced := if p.acc == [] then |c.chunk| + c.rest else p.announced;
      var acc := p.acc + c.chunk;
      if c.rest > 0 then Pile(p.messages, acc, announced)
      else if |acc| == announced then Pile(p.messages + [acc], [], 0)
      else Pile(p.messages, [], 0)
  {
    assert (calls + [c])[..|calls|] == calls;
  }

  lemma AssembledByFinish(s: Sys)
    requires Inv(s) && Assembled(s) && s.w.pc == Finish
    ensures Assembled(WriterStep(s))
  {
    hide Layout;
    hide Begun;
    hide Put;
    AssembleNext(s.log.calls, Call(s.w.chunk, s.w.rest));
  }

  lemma AssembledByPublish(s: Sys)
    requires Inv(s) && Assembled(s) && s.w.pc == Publish
    ensures Assembled(WriterStep(s))
  {
    hide Layout;
    hide Begun;
    AssembleNext(s.log.calls, Call(s.w.chunk, s.w.rest));
  }

  lemma AssembledByPlacing(s: Sys)
    requires Inv(s) && Assembled(s) && (Early(s.w.pc) || s.w.pc == PutFlag || s.w.pc == PutLength)
    ensures Assembled(WriterStep(s))
  {
    hide Cell;
    hide Layout;
    hide Begun;
    hide Assemble;
    hide Put;
  }

  lemma AssembledByCopying(s: Sys)
    requires Inv(s) && Assembled(s) && (s.w.pc == Account || s.w.pc == Copy)
    ensures Assembled(WriterStep(s))
  {
    hide Cell;
    hide Layout;
    hide Begun;
    hide Assemble;
    hide Put;
  }

  lemma AssembledByReader(s: Sys, a: Action)
    requires Inv(s) && Assembled(s) && Permitted(s, a) && a != W
    ensures Assembled(Apply(s, a))
  {
    hide Layout;
    hide Begun;
    hide Assemble;
    hide ReadAt;
    if a == Reset && s.r == Raised {
      AssembledNothing(Apply(s, a));
    }
  }

  lemma AssembledKept(s: Sys, a: Action)
    requires Inv(s) && Assembled(s) && Permitted(s, a)
    ensures Assembled(Apply(s, a))
  {
    hide Inv;
    hide Assembled;
    hide WriterStep;
    if a != W {
      AssembledByReader(s, a);
    } else if s.w.pc == Finish {
      AssembledByFinish(s);
    } else if s.w.pc == Publish {
      AssembledByPublish(s);
    } else if s.w.pc == Account || s.w.pc == Copy {
      AssembledByCopying(s);
    } else {
      AssembledByPlacing(s);
    }
  }

  lemma AssembledNothing(s: Sys)
    requires s.log.calls == [] && s.log.sent == [] && s.log.acc == [] && s.w.pc == Out
    ensures Assembled(s)
  {
  }

  // ---------------------------------------------------------------- calls

  /** The write calls of a run that are not turned away for being empty. */
  function Entered(acts: seq<Action>): seq<Call>
    decreases |acts|
  {
    if acts == [] then []
    else
      (if acts[0].Enter? && acts[0].chunk != [] then [Call(acts[0].chunk, acts[0].rest)] else [])
      + Entered(acts[1..])
  }

  /** The call the writer is in the middle of. */
  function InFlight(w: Writer): seq<Call> {
    if w.pc == Out then [] else [Call(w.chunk, w.rest)]
  }

  ghost predicate Steady(s: Sys)
    ensures Steady(s) ==> s.ring.buf != []
  {
    Inv(s) && Assembled(s) && (s.r == Idle || s.r.Loaded?)
  }

  lemma CallsByWriter(s: Sys)
    requires s.ring.buf != [] && s.w.pc != Out && !s.ring.skip
    requires Early(s.w.pc) ==> s.w.seen == s.ring.resetCount
    requires s.w.pc == Reserve ==> |s.w.chunk| + s.w.rest + 5 < |s.ring.buf|
    ensures WriterStep(s).log.calls + InFlight(WriterStep(s).w) == s.log.calls + InFlight(s.w)
  {
    hide Cell;
    hide Put;
  }

  lemma CallsGrow(s: Sys, a: Action)
    requires Steady(s) && Permitted(s, a) && a != Reset
    ensures Steady(Apply(s, a))
    ensures Apply(s, a).log.calls + InFlight(Apply(s, a).w) == s.log.calls + InFlight(s.w) + Entered([a])
  {
    hide Layout;
    hide Begun;
    hide Assembled;
    hide ReadAt;
    hide WriterStep;
    InvKept(s, a);
    AssembledKept(s, a);
    assert Entered([a]) == if a.Enter? && a.chunk != [] then [Call(a.chunk, a.rest)] else [];
    if a == W {
      CallsByWriter(s);
      WriterLeavesReader(s);
    }
  }

  lemma {:induction false} SteadyRun(s: Sys, acts: seq<Action>)
    requires Steady(s) && PermittedRun(s, acts) && Reset !in acts
    ensures Steady(Exec(s, acts))
    ensures Exec(s, acts).log.calls + InFlight(Exec(s, acts).w) == s.log.calls + InFlight(s.w) + Entered(acts)
    decreases |acts|
  {
    hide Steady;
    hide Apply;
    hide Permitted;
    hide InFlight;
    if acts != [] {
      EnteredFirst(acts);
      hide Entered;
      var t := Apply(s, acts[0]);
      CallsGrow(s, acts[0]);
      SteadyRun(t, acts[1..]);
    }
  }

  lemma EnteredFirst(acts: seq<Action>)
    requires acts != []
    ensures Entered(acts) == Entered([acts[0]]) + Entered(acts[1..])
  {
  }

  /**
   * First in, first out. Take any interleaving of write calls, writer steps and reads.
   * Assemble the completed calls into messages: what the reads returned, followed by
   * what the unread records hold, is exactly that list, in order and byte for byte.
   */
  lemma Fifo(n: nat, acts: seq<Action>)
    requires 0 < n <= U32_LIMIT && PermittedRun(Init(n), acts) && Reset !in acts
    ensures var t := Exec(Init(n), acts);
      && t.log.calls + InFlight(t.w) == Entered(acts)
      && Assemble(t.log.calls).messages == t.log.got + Texts(t.log.recs)
      && t.log.got <= Assemble(t.log.calls).messages
  {
    InvInit(n);
    SteadyRun(Init(n), acts);
  }

  // ---------------------------------------------------------------- resets

  /** The write calls that count after a step: an entered call, unless it is turned away; none after a clearing. */
  function CountedAfter(s: Sys, a: Action, calls: seq<Call>): seq<Call>
    requires s.ring.buf != []
  {
    if a == Reset && s.r == Raised then []
    else if a.Enter? && Apply(s, a).w.pc != Out then calls + [Call(a.chunk, a.rest)]
    else if a == W && s.w.pc == Check && WriterStep(s).w.pc == Out && calls != [] then calls[..|calls| - 1]
    else calls
  }

  /** The write calls entered in the course of a run since the ring was last cleared. */
  function EnteredSinceClear(s: Sys, acts: seq<Action>, calls: seq<Call>): seq<Call>
    requires s.ring.buf != []
    decreases |acts|
  {
    if acts == [] then calls else EnteredSinceClear(Apply(s, acts[0]), acts[1..], CountedAfter(s, acts[0], calls))
  }

  lemma CountedByWriter(s: Sys)
    requires s.ring.buf != [] && s.w.pc != Out && !s.ring.skip
    requires s.w.pc == Reserve ==> |s.w.chunk| + s.w.rest + 5 < |s.ring.buf|
    ensures WriterStep(s).log.calls + InFlight(WriterStep(s).w) ==
      CountedAfter(s, W, s.log.calls + InFlight(s.w))
  {
    hide Cell;
    hide Put;
    var all := s.log.calls + InFlight(s.w);
    assert all[..|all| - 1] == s.log.calls;
  }

  lemma CountedKept(s: Sys, a: Action)
    requires Inv(s) && Permitted(s, a)
    ensures Apply(s, a).log.calls + InFlight(Apply(s, a).w) == CountedAfter(s, a, s.log.calls + InFlight(s.w))
  {
    hide Layout;
    hide Begun;
    hide ReadAt;
    hide WriterStep;
    if a == W {
      CountedByWriter(s);
    }
  }

  /**
   * The same with any number of resets, for the calls entered since the ring was last
   * cleared and not turned away.
   */
  lemma {:induction false} FifoSinceReset(s: Sys, acts: seq<Action>)
    requires Inv(s) && Assembled(s) && PermittedRun(s, acts)
    ensures var t := Exec(s, acts);
      && Inv(t) && Assembled(t)
      && t.log.calls + InFlight(t.w) == EnteredSinceClear(s, acts, s.log.calls + InFlight(s.w))
      && Assemble(t.log.calls).messages == t.log.got + Texts(t.log.recs)
    decreases |acts|
  {
    if acts != [] {
      hide Stored;
      hide WriterOk;
      hide Apply;
      hide Permitted;
      hide CountedAfter;
      InvKept(s, acts[0]);
      AssembledKept(s, acts[0]);
      CountedKept(s, acts[0]);
      FifoSinceReset(Apply(s, acts[0]), acts[1..]);
    }
  }

  // ---------------------------------------------------------------- memory

  /** Every store and every load of the next step falls inside the buffer. */
  predicate AccessesInside(s: Sys)
    requires s.ring.buf != []
  {
    var g, n := s.ring, |s.ring.buf|;
    && (s.w.pc == PutLength ==> Cell(g.writingCursor, n) + 4 <= n)
    && (s.w.pc == Copy ==> Cell(g.writingCursor, n) + |s.w.chunk| <= n)
    && (s.r.Loaded? && !g.resetting && g.readingBegin != Cell(s.r.c, n)
        && g.buf[Cell(g.readingCursor, n)] != Code(Skip) ==>
      && Cell(g.readingCursor + 1, n) + 4 <= n
      && Cell(g.readingCursor + 5, n) + U32Value(Get(g.buf, Cell(g.readingCursor + 1, n), 4)) <= n)
  }

  /** Headers and payloads never straddle the end of the buffer. */
  lemma Contiguous(s: Sys)
    requires Inv(s)
    ensures AccessesInside(s)
  {
    StoresInside(s);
    LoadsInside(s);
  }

  lemma StoresInside(s: Sys)
    requires Inv(s)
    ensures var g, n := s.ring, |s.ring.buf|;
      && (s.w.pc == PutLength ==> Cell(g.writingCursor, n) + 4 <= n)
      && (s.w.pc == Copy ==> Cell(g.writingCursor, n) + |s.w.chunk| <= n)
  {
    hide Cell;
    hide MessageAt;
    hide Layout;
    if s.w.pc == PutLength || s.w.pc == Copy {
      LapOffset(s.ring.writingBegin, s.ring.writingCursor, |s.ring.buf|);
    }
  }

  lemma LoadsInside(s: Sys)
    requires Inv(s)
    ensures var g, n := s.ring, |s.ring.buf|;
      s.r.Loaded? && !g.resetting && g.readingBegin != Cell(s.r.c, n)
      && g.buf[Cell(g.readingCursor, n)] != Code(Skip) ==>
        && Cell(g.readingCursor + 1, n) + 4 <= n
        && Cell(g.readingCursor + 5, n) + U32Value(Get(g.buf, Cell(g.readingCursor + 1, n), 4)) <= n
  {
    hide Cell;
    hide WriterOk;
    var g, n := s.ring, |s.ring.buf|;
    if s.r.Loaded? && g.readingBegin != Cell(s.r.c, n) {
      SameCell(g.readingCursor, s.r.c, n);
      FirstStored(g.buf, s.log.recs, g.readingCursor, g.cursor);
      if s.log.recs[0].flag != Skip {
        LapOffset(g.readingCursor, g.readingCursor + 1, n);
        LapOffset(g.readingCursor, g.readingCursor + 5, n);
      }
    }
  }

  function WindowSize(s: Sys): nat {
    if s.w.pc == PutSkip then 1 else s.ring.total
  }

  /** The writer changes only cells of the place of its message, or of the SKIP flag. */
  lemma StoresInWindow(s: Sys)
    requires Inv(s) && s.w.pc != Out && WriterStep(s).ring.buf != s.ring.buf
    ensures var g, n, m := s.ring, |s.ring.buf|, WindowSize(s);
      && 0 < m && Cell(g.writingBegin, n) + m <= n
      && (!Condemned(s) ==> g.writingBegin == g.cursor && g.writingBegin + m <= g.readingCursor + n)
      && forall k :: 0 <= k < n && !(Cell(g.writingBegin, n) <= k < Cell(g.writingBegin, n) + m) ==>
        WriterStep(s).ring.buf[k] == g.buf[k]
  {
    hide Cell;
    hide Stored;
    hide MessageAt;
    hide Put;
    var g := s.ring;
    if s.w.pc == PutLength || s.w.pc == Copy {
      LapOffset(g.writingBegin, g.writingCursor, |g.buf|);
    }
  }

  /**
   * No step of the writer touches a byte that is published and not yet read, unless the
   * flag of `reset` is up, or about to be and the place of the message beside a hole; after
   * that nothing of the ring is read.
   */
  lemma NoOverwrite(s: Sys, a: Action, p: nat)
    requires Inv(s) && Permitted(s, a) && (a == W || a.Enter?)
    requires s.ring.readingCursor <= p < s.ring.cursor
    ensures var n := |s.ring.buf|;
      Apply(s, a).ring.buf[Cell(p, n)] == s.ring.buf[Cell(p, n)] || Condemned(s)
  {
    hide Cell;
    hide Stored;
    hide WriterOk;
    hide WriterStep;
    var g, n := s.ring, |s.ring.buf|;
    if a == W {
      if WriterStep(s).ring.buf != g.buf && !Condemned(s) {
        StoresInWindow(s);
        RunsApart(p, 1, g.cursor, WindowSize(s), n);
      }
    }
  }
}
