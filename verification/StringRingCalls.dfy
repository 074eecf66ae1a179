/**
 * `write` as one function of the ring, when nothing makes it wait: the steps of the
 * state machine add up to it, and how a message is cut into chunks does not show.
 */
module StringRingCalls {
  import opened Laps
  import opened Words
  import opened StringRing
  import opened StringRingInvariant
  import opened StringRingFifo
  import opened StringRingWait

  // ---------------------------------------------------------------- one call

  /** Where the record of a new message of `total` bytes goes. */
  function Place(g: Ring, total: nat): nat
    requires g.buf != []
  {
    if Cell(g.reserved, |g.buf|) + total >= |g.buf| then g.reserved + Padding(g.reserved, |g.buf|) else g.reserved
  }

  /** SKIP if the lap is too short, then flag and length. */
  function Opened(g: Ring, total: nat): (r: Ring)
    requires g.buf != [] && total >= 5
    ensures |r.buf| == |g.buf|
  {
    var n, at := |g.buf|, Place(g, total);
    var skipped := if at != g.reserved then Put(g.buf, Cell(g.reserved, n), [Code(Skip)]) else g.buf;
    var flagged := Put(skipped, Cell(at, n), [Code(Ok)]);
    g.(buf := Put(flagged, Cell(at + 1, n), U32Bytes(total - 5)),
       writingBegin := at, writingCursor := at + 5,
       cursor := g.cursor + (at - g.reserved),
       reserved := at + total,
       total := total, remaining := total - 5)
  }

  function Appended(g: Ring, chunk: seq<byte>): (r: Ring)
    requires g.buf != []
    ensures |r.buf| == |g.buf|
  {
    g.(buf := Put(g.buf, Cell(g.writingCursor, |g.buf|), chunk),
       remaining := g.remaining - |chunk|,
       writingCursor := g.writingCursor + |chunk|)
  }

  function Closed(g: Ring): Ring {
    g.(cursor := g.cursor + g.total, writingBegin := g.writingBegin + g.total, writingCursor := 0, skip := false)
  }

  function WriteCall(g: Ring, chunk: seq<byte>, rest: nat): (r: Ring)
    requires g.buf != []
    ensures |r.buf| == |g.buf|
  {
    var begun := if g.writingCursor == 0 then Opened(g, |chunk| + rest + 5) else g;
    var appended := Appended(begun, chunk);
    if rest == 0 then Closed(appended) else appended
  }

  // ---------------------------------------------------------------- steps

  /** `k` steps of the writer alone, all of them enabled. */
  function Steps(s: Sys, k: nat): (t: Sys)
    requires s.ring.buf != []
    ensures |t.ring.buf| == |s.ring.buf|
    decreases k
  {
    if k == 0 then s else Steps(WriterStep(s), k - 1)
  }

  predicate StepsEnabled(s: Sys, k: nat)
    requires s.ring.buf != []
    decreases k
  {
    k == 0 || (Enabled(s, W) && StepsEnabled(WriterStep(s), k - 1))
  }

  lemma {:induction false} StepsAdd(s: Sys, j: nat, k: nat)
    requires s.ring.buf != []
    ensures Steps(s, j + k) == Steps(Steps(s, j), k)
    ensures StepsEnabled(s, j) && StepsEnabled(Steps(s, j), k) ==> StepsEnabled(s, j + k)
    decreases j
  {
    hide WriterStep;
    if j > 0 {
      StepsAdd(WriterStep(s), j - 1, k);
    }
  }

  lemma StepOnce(s: Sys)
    requires s.ring.buf != []
    ensures Steps(s, 1) == WriterStep(s)
    ensures StepsEnabled(s, 1) <==> Enabled(s, W)
  {
    hide WriterStep;
    assert Steps(WriterStep(s), 0) == WriterStep(s);
    assert StepsEnabled(WriterStep(s), 0);
  }

  /** The state after the rest of the chunk has been stored at once. */
  function Copied(s: Sys): (t: Sys)
    requires s.ring.buf != [] && s.w.copied <= |s.w.chunk|
    ensures |t.ring.buf| == |s.ring.buf|
  {
    var g, k, chunk := s.ring, s.w.copied, s.w.chunk;
    s.(ring := g.(buf := Put(g.buf, Cell(g.writingCursor, |g.buf|) + k, chunk[k..]),
                  writingCursor := g.writingCursor + |chunk|),
       w := s.w.(pc := Finish, copied := |chunk|),
       log := s.log.(acc := s.log.acc + chunk))
  }

  lemma CopiedAfterOne(s: Sys)
    requires s.ring.buf != [] && s.w.pc == Copy && s.w.copied < |s.w.chunk|
    requires Cell(s.ring.writingCursor, |s.ring.buf|) + |s.w.chunk| <= |s.ring.buf|
    ensures Copied(CopyStep(s)) == Copied(s)
  {
    hide Cell;
    hide Put;
    var g, k, chunk := s.ring, s.w.copied, s.w.chunk;
    var at := Cell(g.writingCursor, |g.buf|);
    PutPut(g.buf, at + k, [chunk[k]], chunk[k + 1..]);
    assert [chunk[k]] + chunk[k + 1..] == chunk[k..];
  }

  lemma CopiedAtEnd(s: Sys)
    requires s.ring.buf != [] && s.w.pc == Copy && s.w.copied == |s.w.chunk|
    ensures CopyStep(s) == Copied(s)
  {
    assert s.w.chunk[s.w.copied..] == [];
    PutNothing(s.ring.buf, Cell(s.ring.writingCursor, |s.ring.buf|) + s.w.copied);
  }

  /** The byte-wise copy loop stores the chunk. */
  lemma {:induction false} CopyRuns(s: Sys)
    requires s.ring.buf != [] && s.w.pc == Copy && s.w.copied <= |s.w.chunk|
    requires Cell(s.ring.writingCursor, |s.ring.buf|) + |s.w.chunk| <= |s.ring.buf|
    ensures var k := |s.w.chunk| - s.w.copied + 1;
      StepsEnabled(s, k) && Steps(s, k) == Copied(s)
    decreases |s.w.chunk| - s.w.copied
  {
    hide Cell;
    hide Put;
    hide Copied;
    StepOnce(s);
    if s.w.copied < |s.w.chunk| {
      CopiedAfterOne(s);
      CopyRuns(CopyStep(s));
      StepsAdd(s, 1, |s.w.chunk| - s.w.copied);
    } else {
      CopiedAtEnd(s);
    }
  }

  /** The end of a call whose chunk is in the buffer. */
  lemma ClosingRuns(s: Sys) returns (k: nat)
    requires s.ring.buf != [] && s.w.pc == Finish && !s.ring.skip
    requires s.ring.remaining == s.w.rest && s.ring.cursor == s.ring.writingBegin
    ensures StepsEnabled(s, k)
    ensures var t := Steps(s, k);
      && t.w == NO_WRITER && t.r == s.r && t.log.rets == s.log.rets + [true]
      && t.log.sent == s.log.sent + (if s.w.rest == 0 then [s.log.acc] else [])
      && t.log.acc == (if s.w.rest == 0 then [] else s.log.acc)
      && t.ring == (if s.w.rest == 0 then Closed(s.ring) else s.ring).(writing := false)
  {
    hide Cell;
    hide Put;
    var s1 := WriterStep(s);
    StepOnce(s);
    k := 1;
    if s.w.rest == 0 {
      StepOnce(s1);
      StepsAdd(s, 1, 1);
      k := 2;
    }
  }

  /** From the accounting of the chunk to its last byte in the buffer. */
  lemma CopyingRuns(s: Sys)
    requires s.ring.buf != [] && s.w.pc == Account && !s.ring.skip && s.w.copied == 0 && s.w.chunk != []
    requires s.ring.remaining == |s.w.chunk| + s.w.rest
    requires Cell(s.ring.writingCursor, |s.ring.buf|) + |s.w.chunk| <= |s.ring.buf|
    ensures StepsEnabled(s, |s.w.chunk| + 2)
    ensures Steps(s, |s.w.chunk| + 2) == s.(ring := Appended(s.ring, s.w.chunk),
                                            w := s.w.(pc := Finish, copied := |s.w.chunk|),
                                            log := s.log.(acc := s.log.acc + s.w.chunk))
  {
    hide Cell;
    hide Put;
    hide Copied;
    hide Appended;
    hide Steps;
    hide StepsEnabled;
    var s1 := WriterStep(s);
    AccountStep(s);
    hide WriterStep;
    StepOnce(s);
    CopyRuns(s1);
    CopiedWhole(s);
    StepsAdd(s, 1, |s.w.chunk| + 1);
  }

  lemma AccountStep(s: Sys)
    requires s.ring.buf != [] && s.w.pc == Account && !s.ring.skip && s.ring.remaining == |s.w.chunk| + s.w.rest
    ensures WriterStep(s) == s.(ring := s.ring.(remaining := s.w.rest), w := s.w.(pc := Copy)) && Enabled(s, W)
  {
    hide Cell;
    hide Put;
  }

  lemma CopiedWhole(s: Sys)
    requires s.ring.buf != [] && s.w.copied == 0 && s.ring.remaining == |s.w.chunk| + s.w.rest
    ensures Copied(s.(ring := s.ring.(remaining := s.w.rest), w := s.w.(pc := Copy))) ==
      s.(ring := Appended(s.ring, s.w.chunk), w := s.w.(pc := Finish, copied := |s.w.chunk|),
         log := s.log.(acc := s.log.acc + s.w.chunk))
  {
    hide Cell;
    hide Put;
    assert s.w.chunk[0..] == s.w.chunk;
  }

  /** From the accounting of the chunk on: copy, and publish if it is the last one. */
  lemma TailRuns(s: Sys) returns (k: nat)
    requires s.ring.buf != [] && s.w.pc == Account && !s.ring.skip && s.w.copied == 0 && s.w.chunk != []
    requires s.ring.remaining == |s.w.chunk| + s.w.rest
    requires Cell(s.ring.writingCursor, |s.ring.buf|) + |s.w.chunk| <= |s.ring.buf|
    requires s.ring.cursor == s.ring.writingBegin
    ensures StepsEnabled(s, k) && Steps(s, k).w == NO_WRITER
    ensures Steps(s, k).log.rets == s.log.rets + [true]
    ensures Steps(s, k).log.sent == s.log.sent + if s.w.rest == 0 then [s.log.acc + s.w.chunk] else []
    ensures Steps(s, k).log.acc == if s.w.rest == 0 then [] else s.log.acc + s.w.chunk
    ensures Steps(s, k).r == s.r
    ensures var appended := Appended(s.ring, s.w.chunk);
      Steps(s, k).ring == (if s.w.rest == 0 then Closed(appended) else appended).(writing := false)
  {
    hide Cell;
    hide Put;
    hide Closed;
    hide WriterStep;
    CopyingRuns(s);
    k := ClosingRuns(Steps(s, |s.w.chunk| + 2));
    StepsAdd(s, |s.w.chunk| + 2, k);
    k := |s.w.chunk| + 2 + k;
  }

  /** The message's place, once the SKIP is out, does not contain the reader. */
  predicate Unhindered(g: Ring, total: nat)
    requires g.buf != []
  {
    var b := Cell(Place(g, total), |g.buf|);
    !(b < g.readingBegin < b + total)
  }

  lemma SkipRuns(s: Sys) returns (k: nat)
    requires s.ring.buf != [] && s.w.pc == Reserve && |s.w.chunk| + s.w.rest + 5 < |s.ring.buf|
    requires s.ring.cursor == s.ring.reserved
    ensures StepsEnabled(s, k)
    ensures
      var g, n, total, t := s.ring, |s.ring.buf|, |s.w.chunk| + s.w.rest + 5, Steps(s, k);
      var at := Place(g, total);
      && t.w == s.w.(pc := Guard) && t.r == s.r && t.log == s.log.(recs := t.log.recs)
      && t.ring == g.(buf := if at != g.reserved then Put(g.buf, Cell(g.reserved, n), [Code(Skip)]) else g.buf,
                      writingBegin := at, writingCursor := at, cursor := at, reserved := at + total,
                      total := total, remaining := total - 5)
  {
    hide Cell;
    hide Put;
    var s1 := WriterStep(s);
    StepOnce(s);
    k := 1;
    if s1.w.pc == PutSkip {
      var s2 := WriterStep(s1);
      StepOnce(s1);
      StepOnce(s2);
      StepsAdd(s1, 1, 1);
      StepsAdd(s, 1, 2);
      k := 3;
    }
  }

  lemma GuardRuns(s: Sys) returns (k: nat)
    requires s.ring.buf != [] && s.w.pc == Guard && !s.ring.resetting && s.w.seen == s.ring.resetCount
    requires !Blocked(s.ring)
    ensures StepsEnabled(s, k) && Steps(s, k) == s.(w := s.w.(pc := PutFlag))
  {
    hide Cell;
    var s1 := WriterStep(s);
    StepOnce(s);
    StepOnce(s1);
    StepsAdd(s, 1, 1);
    k := 2;
    if s1.w.pc == GuardEnd {
      var s2 := WriterStep(s1);
      StepOnce(s2);
      StepsAdd(s, 2, 1);
      k := 3;
    }
  }

  lemma HeaderRuns(s: Sys)
    requires s.ring.buf != [] && s.w.pc == PutFlag && s.ring.total > 5
    ensures StepsEnabled(s, 2)
    ensures
      var g, n := s.ring, |s.ring.buf|;
      var flagged := Put(g.buf, Cell(g.writingCursor, n), [Code(Ok)]);
      Steps(s, 2) == s.(ring := g.(buf := Put(flagged, Cell(g.writingCursor + 1, n), U32Bytes(g.total - 5)),
                                   writingCursor := g.writingCursor + 5),
                        w := s.w.(pc := Account))
  {
    hide Steps;
    hide StepsEnabled;
    HeaderSteps(s);
    StepOnce(s);
    StepOnce(WriterStep(s));
    hide WriterStep;
    StepsAdd(s, 1, 1);
  }

  lemma HeaderSteps(s: Sys)
    requires s.ring.buf != [] && s.w.pc == PutFlag && s.ring.total > 5
    ensures Enabled(s, W) && Enabled(WriterStep(s), W)
    ensures
      var g, n := s.ring, |s.ring.buf|;
      var flagged := Put(g.buf, Cell(g.writingCursor, n), [Code(Ok)]);
      WriterStep(WriterStep(s)) ==
        s.(ring := g.(buf := Put(flagged, Cell(g.writingCursor + 1, n), U32Bytes(g.total - 5)),
                      writingCursor := g.writingCursor + 5),
           w := s.w.(pc := Account))
  {
    hide Cell;
    hide Put;
    hide U32Bytes;
  }

  lemma HeadRuns(s: Sys) returns (k: nat)
    requires s.ring.buf != [] && s.w.pc == Reserve && |s.w.chunk| + s.w.rest + 5 < |s.ring.buf|
    requires s.ring.cursor == s.ring.reserved && !s.ring.resetting && s.w.seen == s.ring.resetCount
    requires s.w.chunk != [] && Unhindered(s.ring, |s.w.chunk| + s.w.rest + 5)
    ensures StepsEnabled(s, k)
    ensures
      var t := Steps(s, k);
      && t.w == s.w.(pc := Account) && t.r == s.r && t.log == s.log.(recs := t.log.recs)
      && t.ring == Opened(s.ring, |s.w.chunk| + s.w.rest + 5)
  {
    hide WriterStep;
    hide Cell;
    hide Put;
    var total := |s.w.chunk| + s.w.rest + 5;
    k := SkipRuns(s);
    var s1 := Steps(s, k);
    PlaceEndsInLap(s.ring, total);
    var j := GuardRuns(s1);
    var s2 := Steps(s1, j);
    StepsAdd(s, k, j);
    HeaderRuns(s2);
    StepsAdd(s, k + j, 2);
    k := k + j + 2;
  }

  lemma PlaceEndsInLap(g: Ring, total: nat)
    requires g.buf != [] && 5 < total < |g.buf|
    ensures var n, at := |g.buf|, Place(g, total);
      && Cell(at, n) + total < n
      && Cell(at + total, n) == Cell(at, n) + total
      && Cell(at + 5, n) == Cell(at, n) + 5
  {
    hide Cell;
    var n, at := |g.buf|, Place(g, total);
    PaddingEndsLap(g.reserved, n);
    LapOffset(at, at + total, n);
    LapOffset(at, at + 5, n);
  }

  // ---------------------------------------------------------------- whole calls

  /** A call of `write` can start now and will neither wait nor be turned away. */
  predicate Ready(s: Sys, chunk: seq<byte>, rest: nat)
    ensures Ready(s, chunk, rest) ==> s.ring.buf != []
  {
    var g, n := s.ring, |s.ring.buf|;
    && n > 0 && s.w == NO_WRITER && !g.writing && !g.resetting && !g.skip && chunk != []
    && if g.writingCursor == 0 then
         |chunk| + rest + 5 < n && g.cursor == g.reserved && Unhindered(g, |chunk| + rest + 5)
       else
         && g.cursor == g.writingBegin && g.remaining == |chunk| + rest
         && Cell(g.writingCursor, n) + |chunk| + rest < n
  }

  /** It can whenever the invariant holds, the contract is kept and the place is free. */
  lemma ReadyFromInv(s: Sys, chunk: seq<byte>, rest: nat)
    requires Inv(s) && s.w.pc == Out && (s.r == Idle || s.r.Loaded?) && chunk != []
    requires Contract(s, Enter(chunk, rest))
    requires if s.ring.writingCursor == 0 then Unhindered(s.ring, |chunk| + rest + 5)
      else s.ring.remaining == |chunk| + rest
    ensures Ready(s, chunk, rest)
  {
    hide Cell;
    hide Stored;
    var g := s.ring;
    if g.writingCursor != 0 {
      LapOffset(g.cursor, g.writingCursor, |g.buf|);
    }
  }

  /** What a call leaves behind: the ring of `WriteCall`, `true`, and the message if it is complete. */
  ghost predicate CallDone(s: Sys, t: Sys, chunk: seq<byte>, rest: nat)
    requires s.ring.buf != []
  {
    && t.w == NO_WRITER && t.r == s.r
    && t.ring == WriteCall(s.ring, chunk, rest)
    && t.log.rets == s.log.rets + [true]
    && t.log.sent == s.log.sent + (if rest == 0 then [s.log.acc + chunk] else [])
    && t.log.acc == if rest == 0 then [] else s.log.acc + chunk
  }

  lemma OpenedFields(g: Ring, total: nat)
    requires g.buf != [] && 5 < total < |g.buf|
    ensures var n, o := |g.buf|, Opened(g, total);
      && o.writingCursor > 0 && o.remaining == total - 5 && o.skip == g.skip && o.resetting == g.resetting
      && (g.cursor == g.reserved ==> o.cursor == o.writingBegin)
      && Cell(o.writingCursor, n) + total - 5 < n
    ensures Opened(g.(writing := true), total) == Opened(g, total).(writing := true)
    ensures Opened(g, total).writing == g.writing
  {
    hide Cell;
    hide Put;
    PlaceEndsInLap(g, total);
  }

  lemma FinishedFlag(o: Ring, chunk: seq<byte>)
    requires o.buf != [] && !o.writing
    ensures Appended(o.(writing := true), chunk).(writing := false) == Appended(o, chunk)
    ensures Closed(Appended(o.(writing := true), chunk)).(writing := false) == Closed(Appended(o, chunk))
  {
    hide Cell;
    hide Put;
  }

  lemma NewCallRuns(s: Sys, chunk: seq<byte>, rest: nat) returns (k: nat)
    requires Ready(s, chunk, rest) && s.ring.writingCursor == 0
    ensures StepsEnabled(Apply(s, Enter(chunk, rest)), k)
    ensures CallDone(s, Steps(Apply(s, Enter(chunk, rest)), k), chunk, rest)
  {
    hide Cell;
    hide Put;
    hide WriterStep;
    hide Opened;
    hide Appended;
    hide Closed;
    var g, e, total := s.ring, Apply(s, Enter(chunk, rest)), |chunk| + rest + 5;
    OpenedFields(g, total);
    var j := HeadRuns(e);
    var m := TailRuns(Steps(e, j));
    StepsAdd(e, j, m);
    k := j + m;
    FinishedFlag(Opened(g, total), chunk);
  }

  lemma ContinuedCallRuns(s: Sys, chunk: seq<byte>, rest: nat) returns (k: nat)
    requires Ready(s, chunk, rest) && s.ring.writingCursor != 0
    ensures StepsEnabled(Apply(s, Enter(chunk, rest)), k)
    ensures CallDone(s, Steps(Apply(s, Enter(chunk, rest)), k), chunk, rest)
  {
    hide Cell;
    hide Put;
    hide WriterStep;
    k := TailRuns(Apply(s, Enter(chunk, rest)));
  }

  /** One call: the steps of the state machine, taken alone, add up to `WriteCall`. */
  lemma CallRuns(s: Sys, chunk: seq<byte>, rest: nat) returns (k: nat)
    requires Ready(s, chunk, rest)
    ensures StepsEnabled(Apply(s, Enter(chunk, rest)), k)
    ensures CallDone(s, Steps(Apply(s, Enter(chunk, rest)), k), chunk, rest)
  {
    if s.ring.writingCursor == 0 {
      k := NewCallRuns(s, chunk, rest);
    } else {
      k := ContinuedCallRuns(s, chunk, rest);
    }
  }

  // ---------------------------------------------------------------- chunks

  function Joined(chunks: seq<seq<byte>>): seq<byte> {
    if chunks == [] then [] else chunks[0] + Joined(chunks[1..])
  }

  predicate NoEmptyChunk(chunks: seq<seq<byte>>) {
    forall i :: 0 <= i < |chunks| ==> chunks[i] != []
  }

  /** The calls that write the chunks one after the other, each announcing what remains. */
  function ChunkCalls(chunks: seq<seq<byte>>): seq<Call> {
    if chunks == [] then [] else [Call(chunks[0], |Joined(chunks[1..])|)] + ChunkCalls(chunks[1..])
  }

  function WriteCalls(g: Ring, calls: seq<Call>): (r: Ring)
    requires g.buf != []
    ensures |r.buf| == |g.buf|
    decreases |calls|
  {
    if calls == [] then g else WriteCalls(WriteCall(g, calls[0].chunk, calls[0].rest), calls[1..])
  }

  lemma AppendedFields(g: Ring, a: seq<byte>)
    requires g.buf != [] && Cell(g.writingCursor, |g.buf|) + |a| < |g.buf|
    ensures Appended(g, a).writingCursor == g.writingCursor + |a|
    ensures Cell(Appended(g, a).writingCursor, |g.buf|) == Cell(g.writingCursor, |g.buf|) + |a|
  {
    hide Cell;
    LapOffset(g.writingCursor, g.writingCursor + |a|, |g.buf|);
  }

  lemma AppendAppend(g: Ring, a: seq<byte>, b: seq<byte>)
    requires g.buf != [] && Cell(g.writingCursor, |g.buf|) + |a| + |b| < |g.buf|
    ensures Appended(Appended(g, a), b) == Appended(g, a + b)
  {
    hide Cell;
    hide Put;
    var n, h, t := |g.buf|, Appended(g, a), Appended(Appended(g, a), b);
    assert Cell(h.writingCursor, n) == Cell(g.writingCursor, n) + |a| by {
      LapOffset(g.writingCursor, g.writingCursor + |a|, n);
    }
    PutPut(g.buf, Cell(g.writingCursor, n), a, b);
    assert t.buf == Appended(g, a + b).buf;
    assert t.remaining == Appended(g, a + b).remaining;
  }

  /** In the middle of a message: the remaining chunks are one chunk. */
  lemma {:induction false} ChunksAppend(g: Ring, chunks: seq<seq<byte>>)
    requires g.buf != [] && g.writingCursor != 0 && chunks != [] && NoEmptyChunk(chunks)
    requires Cell(g.writingCursor, |g.buf|) + |Joined(chunks)| < |g.buf|
    ensures WriteCalls(g, ChunkCalls(chunks)) == Closed(Appended(g, Joined(chunks)))
    decreases |chunks|
  {
    hide Cell;
    hide Put;
    var rest, calls := chunks[1..], ChunkCalls(chunks);
    assert calls[1..] == ChunkCalls(rest);
    if rest == [] {
      assert Joined(chunks) == chunks[0];
    } else {
      assert Joined(rest) == rest[0] + Joined(rest[1..]);
      var h := Appended(g, chunks[0]);
      LapOffset(g.writingCursor, h.writingCursor, |g.buf|);
      ChunksAppend(h, rest);
      AppendAppend(g, chunks[0], Joined(rest));
    }
  }

  /**
   * However a message that fits is cut into non-empty chunks, buffer and cursors end up
   * as after one call with the whole of it.
   */
  lemma ChunkingInvisible(g: Ring, chunks: seq<seq<byte>>)
    requires g.buf != [] && g.writingCursor == 0 && chunks != [] && NoEmptyChunk(chunks)
    requires |Joined(chunks)| + 5 < |g.buf|
    ensures Joined(chunks) != []
    ensures WriteCalls(g, ChunkCalls(chunks)) == WriteCall(g, Joined(chunks), 0)
  {
    hide Cell;
    hide Put;
    hide Opened;
    hide Appended;
    hide Closed;
    hide WriteCalls;
    var rest := chunks[1..];
    assert Joined(chunks) == chunks[0] + Joined(rest);
    CallsStep(g, Call(chunks[0], |Joined(rest)|), ChunkCalls(rest));
    if rest == [] {
      assert Joined(chunks) == chunks[0];
      CallsEnd(WriteCall(g, chunks[0], 0));
    } else {
      assert Joined(rest) == rest[0] + Joined(rest[1..]);
      OpenedFields(g, |Joined(chunks)| + 5);
      PiecesAppend(Opened(g, |Joined(chunks)| + 5), chunks);
    }
  }

  lemma CallsStep(g: Ring, c: Call, calls: seq<Call>)
    requires g.buf != []
    ensures WriteCalls(g, [c] + calls) == WriteCalls(WriteCall(g, c.chunk, c.rest), calls)
  {
    hide WriteCall;
    assert ([c] + calls)[1..] == calls;
  }

  lemma CallsEnd(g: Ring)
    requires g.buf != []
    ensures WriteCalls(g, []) == g
  {
  }

  lemma PiecesAppend(o: Ring, chunks: seq<seq<byte>>)
    requires o.buf != [] && o.writingCursor != 0 && |chunks| > 1 && NoEmptyChunk(chunks)
    requires Cell(o.writingCursor, |o.buf|) + |Joined(chunks)| < |o.buf|
    ensures WriteCalls(Appended(o, chunks[0]), ChunkCalls(chunks[1..])) == Closed(Appended(o, Joined(chunks)))
  {
    hide Cell;
    hide Appended;
    hide Closed;
    AppendedFields(o, chunks[0]);
    hide WriteCall;
    ChunksAppend(Appended(o, chunks[0]), chunks[1..]);
    AppendAppend(o, chunks[0], Joined(chunks[1..]));
  }

  /**
   * Until its last chunk the published cursor stays, or passes the padding of a SKIP and
   * stops in front of the message.
   */
  lemma PartsKeepCursor(g: Ring, chunk: seq<byte>, rest: nat)
    requires g.buf != [] && rest > 0 && g.cursor == g.reserved
    ensures var t := WriteCall(g, chunk, rest);
      if g.writingCursor != 0 then t.cursor == g.cursor
      else
        && t.cursor == t.writingBegin == Place(g, |chunk| + rest + 5)
        && (t.cursor != g.cursor ==> Cell(t.cursor, |g.buf|) == 0 && t.cursor == g.cursor + Padding(g.cursor, |g.buf|))
  {
    hide Cell;
    PaddingEndsLap(g.reserved, |g.buf|);
  }

  // ---------------------------------------------------------------- calls as runs

  lemma {:induction false} StepsAsRun(s: Sys, k: nat)
    requires s.ring.buf != [] && StepsEnabled(s, k)
    ensures EnabledRun(s, seq(k, _ => W)) && Exec(s, seq(k, _ => W)) == Steps(s, k)
    ensures Entered(seq(k, _ => W)) == []
    decreases k
  {
    hide WriterStep;
    if k > 0 {
      assert seq(k, _ => W)[1..] == seq(k - 1, _ => W);
      StepsAsRun(WriterStep(s), k - 1);
    }
  }

  /** The writer alone, from the entry of a call to its return. */
  lemma CallAsRun(s: Sys, chunk: seq<byte>, rest: nat) returns (acts: seq<Action>)
    requires Ready(s, chunk, rest)
    ensures EnabledRun(s, acts) && CallDone(s, Exec(s, acts), chunk, rest)
    ensures Entered(acts) == [Call(chunk, rest)] && forall i :: 0 <= i < |acts| ==> acts[i].Enter? || acts[i].W?
  {
    hide Ready;
    hide WriterStep;
    var e := Enter(chunk, rest);
    var k := CallRuns(s, chunk, rest);
    StepsAsRun(Apply(s, e), k);
    acts := [e] + seq(k, _ => W);
    assert acts[1..] == seq(k, _ => W);
    assert Enabled(s, e) by {
      ReadyEnables(s, chunk, rest);
    }
    ReadyEnables(s, chunk, rest);
  }

  lemma ReadyEnables(s: Sys, chunk: seq<byte>, rest: nat)
    requires Ready(s, chunk, rest)
    ensures s.w.pc == Out && chunk != []
  {
  }

  /** After a chunk that is not the last, the next one can be written at once. */
  lemma ReadyForNext(s: Sys, t: Sys, chunk: seq<byte>, rest: nat, next: seq<byte>)
    requires Ready(s, chunk, rest) && CallDone(s, t, chunk, rest)
    requires next != [] && |next| <= rest
    ensures Ready(t, next, rest - |next|) && t.ring.writingCursor != 0
  {
    hide Cell;
    hide Opened;
    hide Put;
    var g := s.ring;
    if g.writingCursor == 0 {
      OpenedFields(g, |chunk| + rest + 5);
      AppendedFields(Opened(g, |chunk| + rest + 5), chunk);
    } else {
      AppendedFields(g, chunk);
    }
  }

  lemma {:induction false} ChunksRun(s: Sys, chunks: seq<seq<byte>>) returns (acts: seq<Action>)
    requires chunks != [] && NoEmptyChunk(chunks) && Ready(s, chunks[0], |Joined(chunks[1..])|)
    ensures EnabledRun(s, acts) && Entered(acts) == ChunkCalls(chunks)
    ensures Exec(s, acts).ring == WriteCalls(s.ring, ChunkCalls(chunks))
    ensures Exec(s, acts).log.sent == s.log.sent + [s.log.acc + Joined(chunks)]
    decreases |chunks|
  {
    hide Ready;
    hide WriteCall;
    hide Apply;
    hide Enabled;
    var chunk, rest := chunks[0], chunks[1..];
    acts := CallAsRun(s, chunk, |Joined(rest)|);
    var t := Exec(s, acts);
    if rest == [] {
      assert ChunkCalls(chunks)[1..] == [];
      assert Joined(chunks) == chunks[0];
    } else {
      assert Joined(rest) == rest[0] + Joined(rest[1..]);
      ReadyForNext(s, t, chunk, |Joined(rest)|, rest[0]);
      assert t.log.sent == s.log.sent && t.log.acc == s.log.acc + chunk;
      var more := ChunksRun(t, rest);
      RunThen(s, acts, more);
      EnteredAppend(acts, more);
      acts := acts + more;
      assert ChunkCalls(chunks)[1..] == ChunkCalls(rest);
      assert s.log.acc + chunk + Joined(rest) == s.log.acc + Joined(chunks);
    }
  }

  lemma {:induction false} EnteredAppend(a: seq<Action>, b: seq<Action>)
    ensures Entered(a + b) == Entered(a) + Entered(b)
    decreases |a|
  {
    if a == [] {
      assert a + b == b;
    } else {
      assert (a + b)[1..] == a[1..] + b;
      EnteredAppend(a[1..], b);
    }
  }

  /**
   * Two writers at the same ring, one sending a message in chunks and one at once: when
   * both have returned the rings are equal, and the same message has been sent.
   */
  lemma ChunkedRunsAgree(s: Sys, chunks: seq<seq<byte>>) returns (piecewise: seq<Action>, whole: seq<Action>)
    requires chunks != [] && NoEmptyChunk(chunks) && s.ring.writingCursor == 0 && s.log.acc == []
    requires Joined(chunks) != [] && Ready(s, Joined(chunks), 0)
    ensures EnabledRun(s, piecewise) && Entered(piecewise) == ChunkCalls(chunks)
    ensures EnabledRun(s, whole) && Entered(whole) == [Call(Joined(chunks), 0)]
    ensures Exec(s, piecewise).ring == Exec(s, whole).ring
    ensures Exec(s, piecewise).log.sent == Exec(s, whole).log.sent == s.log.sent + [Joined(chunks)]
  {
    assert Joined(chunks) == chunks[0] + Joined(chunks[1..]);
    assert Ready(s, chunks[0], |Joined(chunks[1..])|);
    ChunkingInvisible(s.ring, chunks);
    hide Ready;
    hide WriteCall;
    piecewise := ChunksRun(s, chunks);
    whole := CallAsRun(s, Joined(chunks), 0);
    assert [] + Joined(chunks) == Joined(chunks);
  }
}
