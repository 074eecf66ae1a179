/**
 * WebSocket framing when connections come and go: `send` is two writes, and a reset of the
 * sending buffer may fall anywhere, between the two as well.
 */
module FramingOverResets {
  import opened Laps
  import opened Words
  import opened StringRing
  import opened StringRingInvariant
  import opened StringRingFifo
  import opened StringRingWait
  import opened StringRingOutcome
  import opened WebSocketFraming

  /** Where the client is in `send`: outside, in the first write, between the two, in the second. */
  datatype Phase = Outside | First(payload: seq<byte>) | Gap(payload: seq<byte>) | Second(payload: seq<byte>)

  /** `kept` are the payloads whose sends began since the ring was last cleared and were not turned away at once. */
  datatype Sender = Sender(phase: Phase, kept: seq<seq<byte>>)

  /** The client begins a `send`, goes on to its second write, or something else happens. */
  datatype Move = Send(payload: seq<byte>) | GoOn | Other(a: Action)

  const NO_SENDER := Sender(Outside, [])

  predicate Allowed(s: Sys, c: Sender, m: Move) {
    match m
    case Send(_) => c.phase == Outside
    case GoOn => c.phase.Gap?
    case Other(a) => !a.Enter?
  }

  function ActionOf(pre: nat, c: Sender, m: Move): Action
    requires m.GoOn? ==> c.phase.Gap?
  {
    match m
    case Send(payload) => Enter(Header(pre), |payload|)
    case GoOn => Enter(c.phase.payload, 0)
    case Other(a) => a
  }

  function WithoutLast(kept: seq<seq<byte>>): seq<seq<byte>> {
    if kept == [] then [] else kept[..|kept| - 1]
  }

  /** The client after a step of a thread; a call that ends is judged by what it returned. */
  function AfterStep(s: Sys, c: Sender, t: Sys): Sender {
    if s.w.pc == Out || t.w.pc != Out then c
    else
      var ok := |t.log.rets| > 0 && t.log.rets[|t.log.rets| - 1];
      match c.phase
      case First(payload) => if ok then Sender(Gap(payload), c.kept) else Sender(Outside, WithoutLast(c.kept))
      case _ => Sender(Outside, c.kept)
  }

  function Moved(pre: nat, s: Sys, c: Sender, m: Move): Sender
    requires s.ring.buf != [] && Allowed(s, c, m)
  {
    var t := Apply(s, ActionOf(pre, c, m));
    match m
    case Send(payload) => if t.w.pc != Out then Sender(First(payload), c.kept + [payload]) else c
    case GoOn => Sender(if t.w.pc != Out then Second(c.phase.payload) else Outside, c.kept)
    case Other(a) => if a == Reset && s.r == Raised then Sender(c.phase, []) else AfterStep(s, c, t)
  }

  /** The ring is cleared after the first write of a send and before its second one. */
  predicate Cuts(s: Sys, c: Sender, m: Move) {
    m == Other(Reset) && s.r == Raised && c.phase.Gap? && c.phase.payload != []
  }

  predicate SendRun(pre: nat, s: Sys, c: Sender, moves: seq<Move>)
    requires s.ring.buf != []
    decreases |moves|
  {
    moves == [] ||
    (Allowed(s, c, moves[0]) && Permitted(s, ActionOf(pre, c, moves[0])) && !Cuts(s, c, moves[0])
     && SendRun(pre, Apply(s, ActionOf(pre, c, moves[0])), Moved(pre, s, c, moves[0]), moves[1..]))
  }

  function After(pre: nat, s: Sys, c: Sender, moves: seq<Move>): (r: (Sys, Sender))
    requires s.ring.buf != [] && SendRun(pre, s, c, moves)
    ensures |r.0.ring.buf| == |s.ring.buf|
    decreases |moves|
  {
    if moves == [] then (s, c)
    else After(pre, Apply(s, ActionOf(pre, c, moves[0])), Moved(pre, s, c, moves[0]), moves[1..])
  }

  // ---------------------------------------------------------------- invariant

  /** The calls that count are those of the kept sends, the last one perhaps half done. */
  ghost predicate CallsFramed(pre: nat, s: Sys, c: Sender)
    requires s.ring.buf != []
  {
    var calls, all := s.log.calls + InFlight(s.w), FrameCalls(pre, c.kept);
    match c.phase
    case Outside => s.w.pc == Out && (calls == all || (s.r == Raised && calls <= all))
    case First(p) => s.w.pc != Out && s.w.chunk == Header(pre) && HalfSent(pre, c.kept, p, calls)
    case Gap(p) => s.w.pc == Out && if p == [] then calls == all else HalfSent(pre, c.kept, p, calls)
    case Second(p) => s.w.pc != Out && !Early(s.w.pc) && p != [] && calls == all
  }

  /** The first write of the last send has been entered, and not the second. */
  ghost predicate HalfSent(pre: nat, kept: seq<seq<byte>>, p: seq<byte>, calls: seq<Call>) {
    kept != [] && kept[|kept| - 1] == p && calls == FrameCalls(pre, WithoutLast(kept)) + [Call(Header(pre), |p|)]
  }

  ghost predicate Good(pre: nat, s: Sys, c: Sender)
    ensures Good(pre, s, c) ==> s.ring.buf != []
  {
    pre > 0 && Inv(s) && Assembled(s) && CallsFramed(pre, s, c) && (s.r == Cleared ==> s.log.calls == [])
  }

  lemma HalfIsPrefix(pre: nat, kept: seq<seq<byte>>, p: seq<byte>, calls: seq<Call>)
    requires HalfSent(pre, kept, p, calls)
    ensures calls <= FrameCalls(pre, kept)
    ensures p == [] ==> calls == FrameCalls(pre, kept)
    ensures p != [] ==> calls + [Call(p, 0)] == FrameCalls(pre, kept)
  {
    hide Header;
  }

  lemma WholeAgain(pre: nat, kept: seq<seq<byte>>, p: seq<byte>)
    ensures HalfSent(pre, kept + [p], p, FrameCalls(pre, kept) + [Call(Header(pre), |p|)])
    ensures WithoutLast(kept + [p]) == kept
  {
    hide Header;
    assert (kept + [p])[..|kept|] == kept;
  }

  /** A call that returns, returns true unless it is turned away. */
  lemma ReturnValue(s: Sys)
    requires Inv(s) && s.w.pc != Out && WriterStep(s).w.pc == Out
    ensures WriterStep(s).log.rets == s.log.rets + [s.w.pc != Check]
  {
    hide Cell;
    hide Put;
    hide Layout;
    hide Begun;
  }

  /** Inside a message a call does not begin with a reservation. */
  lemma InsideMessage(pre: nat, s: Sys, p: seq<byte>, kept: seq<seq<byte>>)
    requires pre > 0 && Inv(s) && Assembled(s) && s.w.pc == Out && p != [] && HalfSent(pre, kept, p, s.log.calls)
    ensures s.ring.writingCursor != 0 && |p| + 5 < |s.ring.buf|
  {
    hide Header;
    hide Assemble;
    var front := FrameCalls(pre, WithoutLast(kept));
    FramesAssemble(pre, WithoutLast(kept), front);
    SendAssembles(pre, front, p);
    AssembleNext(front, Call(Header(pre), |p|));
    hide FrameCalls;
    hide Layout;
  }

  lemma GoodAfterSend(pre: nat, s: Sys, c: Sender, payload: seq<byte>)
    requires Good(pre, s, c) && Allowed(s, c, Send(payload)) && Permitted(s, ActionOf(pre, c, Send(payload)))
    ensures var m := Send(payload);
      CallsFramed(pre, Apply(s, ActionOf(pre, c, m)), Moved(pre, s, c, m))
  {
    hide Header;
    hide FrameCalls;
    hide Assembled;
    hide HalfSent;
    CountedKept(s, Enter(Header(pre), |payload|));
    hide Layout;
    hide WriterOk;
    WholeAgain(pre, c.kept, payload);
  }

  lemma GoodAfterGoOn(pre: nat, s: Sys, c: Sender)
    requires Good(pre, s, c) && Allowed(s, c, GoOn) && Permitted(s, ActionOf(pre, c, GoOn))
    ensures CallsFramed(pre, Apply(s, ActionOf(pre, c, GoOn)), Moved(pre, s, c, GoOn))
  {
    hide Header;
    hide FrameCalls;
    hide HalfSent;
    var p := c.phase.payload;
    CountedKept(s, Enter(p, 0));
    assert s.log.calls + InFlight(s.w) == s.log.calls;
    if p != [] {
      InsideMessage(pre, s, p, c.kept);
      HalfIsPrefix(pre, c.kept, p, s.log.calls);
      NotCleared(pre, s, p, c.kept);
    }
    hide Assembled;
    hide Layout;
    hide WriterOk;
  }

  lemma NotCleared(pre: nat, s: Sys, p: seq<byte>, kept: seq<seq<byte>>)
    requires HalfSent(pre, kept, p, s.log.calls) && (s.r == Cleared ==> s.log.calls == [])
    ensures s.r != Cleared
  {
    hide Header;
  }

  lemma GoodAfterWrite(pre: nat, s: Sys, c: Sender)
    requires Good(pre, s, c) && s.w.pc != Out && Permitted(s, W)
    ensures CallsFramed(pre, WriterStep(s), Moved(pre, s, c, Other(W)))
  {
    hide Header;
    hide FrameCalls;
    hide HalfSent;
    CountedKept(s, W);
    if WriterStep(s).w.pc == Out {
      GoodAfterReturn(pre, s, c);
    } else {
      WriterGoesOn(s);
      hide Inv;
      hide Assembled;
      hide WriterStep;
      hide Permitted;
    }
  }

  lemma GoodAfterReturn(pre: nat, s: Sys, c: Sender)
    requires Good(pre, s, c) && s.w.pc != Out && Permitted(s, W) && WriterStep(s).w.pc == Out
    ensures CallsFramed(pre, WriterStep(s), Moved(pre, s, c, Other(W)))
  {
    hide Header;
    hide FrameCalls;
    hide HalfSent;
    CountedKept(s, W);
    ReturnValue(s);
    hide Inv;
    hide Assembled;
    hide WriterStep;
    hide Permitted;
    if c.phase.First? {
      FirstReturns(pre, s, c);
    }
  }

  /** A first write that returns has been counted, or taken back. */
  lemma FirstReturns(pre: nat, s: Sys, c: Sender)
    requires c.phase.First? && HalfSent(pre, c.kept, c.phase.payload, s.log.calls + InFlight(s.w))
    ensures var calls, p := s.log.calls + InFlight(s.w), c.phase.payload;
      && calls != [] && calls[..|calls| - 1] == FrameCalls(pre, WithoutLast(c.kept))
      && (p == [] ==> calls == FrameCalls(pre, c.kept))
  {
    hide Header;
    HalfIsPrefix(pre, c.kept, c.phase.payload, s.log.calls + InFlight(s.w));
  }

  lemma WriterGoesOn(s: Sys)
    requires s.ring.buf != [] && s.w.pc != Out && WriterStep(s).w.pc != Out
    ensures var t := WriterStep(s);
      t.w.chunk == s.w.chunk && t.w.rest == s.w.rest && t.r == s.r && (!Early(s.w.pc) ==> !Early(t.w.pc))
  {
    hide Cell;
    hide Put;
  }

  lemma GoodAfterOther(pre: nat, s: Sys, c: Sender, a: Action)
    requires Good(pre, s, c) && !a.Enter? && a != W && Permitted(s, a) && !Cuts(s, c, Other(a))
    ensures CallsFramed(pre, Apply(s, a), Moved(pre, s, c, Other(a)))
  {
    hide Header;
    hide Assembled;
    hide HalfSent;
    hide ReadAt;
    hide FrameCalls;
    CountedKept(s, a);
    hide Layout;
    hide WriterOk;
    NoFrames(pre);
  }

  lemma NoFrames(pre: nat)
    ensures FrameCalls(pre, []) == []
  {
  }

  lemma GoodKept(pre: nat, s: Sys, c: Sender, m: Move)
    requires Good(pre, s, c) && Allowed(s, c, m) && Permitted(s, ActionOf(pre, c, m)) && !Cuts(s, c, m)
    ensures Good(pre, Apply(s, ActionOf(pre, c, m)), Moved(pre, s, c, m))
  {
    var a := ActionOf(pre, c, m);
    InvKept(s, a);
    AssembledKept(s, a);
    ClearedStays(s, a);
    match m
    case Send(payload) => GoodAfterSend(pre, s, c, payload);
    case GoOn => GoodAfterGoOn(pre, s, c);
    case Other(_) =>
      hide CallsFramed;
      if a == W {
        GoodAfterWrite(pre, s, c);
      } else {
        GoodAfterOther(pre, s, c, a);
      }
  }

  lemma ClearedStays(s: Sys, a: Action)
    requires Inv(s) && Permitted(s, a) && (s.r == Cleared ==> s.log.calls == [])
    ensures Apply(s, a).r == Cleared ==> Apply(s, a).log.calls == []
  {
    hide Layout;
    hide WriterOk;
    hide ReadAt;
    hide WriterStep;
    if a == W {
      WriterLeavesReader(s);
    }
  }

  lemma {:induction false} GoodAlways(pre: nat, s: Sys, c: Sender, moves: seq<Move>)
    requires Good(pre, s, c) && SendRun(pre, s, c, moves)
    ensures Good(pre, After(pre, s, c, moves).0, After(pre, s, c, moves).1)
    decreases |moves|
  {
    hide Good;
    hide Permitted;
    hide Cuts;
    hide Apply;
    hide Moved;
    if moves != [] {
      GoodKept(pre, s, c, moves[0]);
      GoodAlways(pre, Apply(s, ActionOf(pre, c, moves[0])), Moved(pre, s, c, moves[0]), moves[1..]);
    }
  }

  // ---------------------------------------------------------------- framing

  /** All that was sent since the last clearing is frames of the kept payloads, in order. */
  ghost predicate Intact(pre: nat, s: Sys, c: Sender) {
    Framed(pre, s.log.sent) && Stripped(pre, s.log.sent) <= c.kept
  }

  lemma ReadsAreFirst(s: Sys)
    requires Inv(s)
    ensures s.log.got <= s.log.sent
    ensures s.r != Raised && s.log.recs == [] ==> s.log.got == s.log.sent
  {
    hide Unread;
    hide WriterOk;
  }

  lemma StrippedFirst(pre: nat, got: seq<seq<byte>>, sent: seq<seq<byte>>)
    requires got <= sent && Framed(pre, sent)
    ensures Framed(pre, got) && Stripped(pre, got) <= Stripped(pre, sent)
  {
    assert forall i :: 0 <= i < |got| ==> got[i] == sent[i];
    assert Stripped(pre, got) == Stripped(pre, sent)[..|got|];
  }

  lemma GoodIsIntact(pre: nat, s: Sys, c: Sender)
    requires Good(pre, s, c)
    ensures Intact(pre, s, c) && s.log.got <= s.log.sent
    ensures Framed(pre, s.log.got) && Stripped(pre, s.log.got) <= c.kept
    ensures c.phase == Outside && s.r != Raised ==>
      Stripped(pre, s.log.sent) == c.kept && (s.log.recs == [] ==> s.log.got == s.log.sent)
  {
    hide Header;
    hide Assemble;
    hide Inv;
    hide Framed;
    hide Stripped;
    var calls := s.log.calls + InFlight(s.w);
    assert s.log.calls <= FrameCalls(pre, c.kept) by {
      if c.phase.First? || c.phase.Gap? {
        HalfIsPrefixOrWhole(pre, c, calls);
      }
    }
    hide HalfSent;
    FramesAssemble(pre, c.kept, s.log.calls);
    hide FrameCalls;
    ReadsAreFirst(s);
    StrippedFirst(pre, s.log.got, s.log.sent);
  }

  lemma HalfIsPrefixOrWhole(pre: nat, c: Sender, calls: seq<Call>)
    requires c.phase.First? || c.phase.Gap?
    requires HalfSent(pre, c.kept, c.phase.payload, calls) || calls == FrameCalls(pre, c.kept)
    ensures calls <= FrameCalls(pre, c.kept)
  {
    hide Header;
    if HalfSent(pre, c.kept, c.phase.payload, calls) {
      HalfIsPrefix(pre, c.kept, c.phase.payload, calls);
    }
  }

  lemma GoodAtStart(n: nat, pre: nat)
    requires 0 < n <= U32_LIMIT && pre > 0
    ensures Good(pre, Init(n), NO_SENDER)
  {
    InvInit(n);
  }

  /**
   * Framing survives resets. In every interleaving of sends, reads and any number of
   * resets, in which no clearing falls between the two writes of a send, everything sent
   * and read since the last clearing has exactly the headroom and is, without it, the
   * payloads sent since then, in order; all of them, once the client is outside `send`.
   */
  lemma FramingSurvivesResets(n: nat, pre: nat, moves: seq<Move>)
    requires 0 < n <= U32_LIMIT && pre > 0 && SendRun(pre, Init(n), NO_SENDER, moves)
    ensures var (t, c) := After(pre, Init(n), NO_SENDER, moves);
      && Framed(pre, t.log.sent) && Stripped(pre, t.log.sent) <= c.kept
      && Framed(pre, t.log.got) && Stripped(pre, t.log.got) <= c.kept
      && (c.phase == Outside && t.r != Raised ==> Stripped(pre, t.log.sent) == c.kept)
      && (c.phase == Outside && t.r != Raised && t.log.recs == [] ==> Stripped(pre, t.log.got) == c.kept)
  {
    GoodAtStart(n, pre);
    GoodAlways(pre, Init(n), NO_SENDER, moves);
    var r := After(pre, Init(n), NO_SENDER, moves);
    GoodIsIntact(pre, r.0, r.1);
  }

  // ---------------------------------------------------------------- exactly

  lemma MoveAndOn(pre: nat, s: Sys, c: Sender, m: Move, more: seq<Move>)
    requires s.ring.buf != [] && Allowed(s, c, m) && Permitted(s, ActionOf(pre, c, m)) && !Cuts(s, c, m)
    requires SendRun(pre, Apply(s, ActionOf(pre, c, m)), Moved(pre, s, c, m), more)
    ensures SendRun(pre, s, c, [m] + more)
    ensures After(pre, s, c, [m] + more) == After(pre, Apply(s, ActionOf(pre, c, m)), Moved(pre, s, c, m), more)
  {
    hide Permitted;
    hide Cuts;
    hide Apply;
    hide Moved;
    assert ([m] + more)[0] == m && ([m] + more)[1..] == more;
  }

  lemma SecondMoves(pre: nat, s: Sys, c: Sender)
    requires s.ring.buf != [] && s.w.pc != Out && c.phase.Second?
    ensures var d := Moved(pre, s, c, Other(W));
      d.kept == c.kept && (WriterStep(s).w.pc != Out ==> d.phase.Second?)
  {
    hide WriterStep;
  }

  /** Alone in a ring that has just been cleared, a second write goes through to its end. */
  lemma {:induction false} SecondEnds(pre: nat, s: Sys, c: Sender, msg: seq<byte>, before: Log)
    returns (moves: seq<Move>)
    requires Inv(s) && s.r == Idle && Underway(s, msg, before) && (s.w.pc != Out ==> c.phase.Second?)
    requires s.w.pc != Out ==> s.ring.cursor == s.ring.readingCursor == 0 && s.w.pc != PutSkip && s.w.pc != PublishSkip
    ensures SendRun(pre, s, c, moves)
    ensures After(pre, s, c, moves).1.kept == c.kept && After(pre, s, c, moves).0.w.pc == Out
    ensures Underway(After(pre, s, c, moves).0, msg, before)
    decreases Distance(s)
  {
    if s.w.pc == Out {
      moves := [];
    } else {
      var t := WriterStep(s);
      AloneStep(s);
      UnderwayWrites(s, msg, before);
      SecondMoves(pre, s, c);
      hide Inv;
      hide Underway;
      hide WriterStep;
      hide Distance;
      hide Moved;
      hide Permitted;
      var more := SecondEnds(pre, t, Moved(pre, s, c, Other(W)), msg, before);
      hide SendRun;
      hide After;
      MoveAndOn(pre, s, c, Other(W), more);
      moves := [Other(W)] + more;
    }
  }

  lemma AloneStep(s: Sys)
    requires Inv(s) && s.r == Idle && s.w.pc != Out && s.w.pc != PutSkip && s.w.pc != PublishSkip
    requires s.ring.cursor == s.ring.readingCursor == 0
    ensures Permitted(s, W) && Inv(WriterStep(s)) && Distance(WriterStep(s)) < Distance(s)
    ensures var t := WriterStep(s);
      && t.r == Idle
      && (t.w.pc != Out ==> t.ring.cursor == t.ring.readingCursor == 0 && t.w.pc != PutSkip && t.w.pc != PublishSkip)
  {
    FirstCell(|s.ring.buf|);
    InvOnTrack(s);
    TrackedStep(s);
    AloneFits(s);
    KeptByWriter(s);
    AlonePlaced(s);
  }

  lemma AloneFits(s: Sys)
    requires Inv(s) && s.r == Idle && s.w.pc != Out && s.ring.cursor == s.ring.readingCursor == 0
    ensures NotExactlyFull(s, W) && !Waiting(s)
  {
    hide Stored;
    hide MessageAt;
    FirstCell(|s.ring.buf|);
  }

  lemma AlonePlaced(s: Sys)
    requires Inv(s) && s.r == Idle && s.w.pc != Out && s.w.pc != PutSkip && s.w.pc != PublishSkip
    requires s.ring.cursor == s.ring.readingCursor == 0
    ensures var t := WriterStep(s);
      t.w.pc != Out ==> t.ring.cursor == t.ring.readingCursor == 0 && t.w.pc != PutSkip && t.w.pc != PublishSkip
  {
    hide Put;
    hide Stored;
    hide MessageAt;
    FirstCell(|s.ring.buf|);
    hide Cell;
  }

  /** After a cut the second write publishes its payload bare, as a message of its own. */
  lemma CutSendsBarePayload(pre: nat, s: Sys, c: Sender) returns (moves: seq<Move>)
    requires Good(pre, s, c) && Permitted(s, Reset) && Cuts(s, c, Other(Reset))
    ensures var t, d := Apply(s, Reset), Moved(pre, s, c, Other(Reset));
      && SendRun(pre, t, d, moves)
      && After(pre, t, d, moves).0.log.sent == [c.phase.payload]
      && After(pre, t, d, moves).0.log.rets == s.log.rets + [true]
      && After(pre, t, d, moves).1.kept == []
  {
    var p := c.phase.payload;
    InsideMessage(pre, s, p, c.kept);
    var t, d := Apply(s, Reset), Moved(pre, s, c, Other(Reset));
    var t1 := Apply(t, Reset);
    var t2 := Apply(t1, Enter(p, 0));
    ClearedLeads(s, p);
    hide Inv;
    assert Moved(pre, t, d, Other(Reset)) == d;
    var d2 := Moved(pre, t1, d, GoOn);
    assert d2 == Sender(Second(p), []);
    hide Good;
    hide Permitted;
    hide Moved;
    hide Apply;
    var more := SecondEnds(pre, t2, d2, p, NO_LOG.(rets := s.log.rets));
    var r := After(pre, t2, d2, more);
    assert r.0.log.sent == [p] && r.0.log.rets == s.log.rets + [true] by {
      SentWhenOut(r.0, p, NO_LOG.(rets := s.log.rets));
    }
    hide SendRun;
    hide After;
    MoveAndOn(pre, t1, d, GoOn, more);
    MoveAndOn(pre, t, d, Other(Reset), [GoOn] + more);
    moves := [Other(Reset)] + ([GoOn] + more);
  }

  lemma SentWhenOut(s: Sys, msg: seq<byte>, before: Log)
    requires Underway(s, msg, before) && s.w.pc == Out && before.sent == []
    ensures s.log.sent == [msg] && s.log.rets == before.rets + [true]
  {
  }

  lemma ClearedLeads(s: Sys, p: seq<byte>)
    requires Inv(s) && s.r == Raised && Permitted(s, Reset) && p != [] && |p| + 5 < |s.ring.buf|
    ensures var t := Apply(s, Reset);
      var t1 := Apply(t, Reset);
      var t2 := Apply(t1, Enter(p, 0));
      && Inv(t) && Permitted(t, Reset) && Permitted(t1, Enter(p, 0)) && Inv(t2) && t2.r == Idle
      && t.r == Cleared && t1.w.pc == Out && t2.w.pc == Reserve && t2.ring.cursor == t2.ring.readingCursor == 0
      && Underway(t2, p, NO_LOG.(rets := s.log.rets))
  {
    hide Stored;
    hide MessageAt;
    FirstCell(|s.ring.buf|);
    var t := Apply(s, Reset);
    InvKept(s, Reset);
    InvKept(t, Reset);
    InvKept(Apply(t, Reset), Enter(p, 0));
  }

  /**
   * The condition is exact: a clearing leaves framing intact in every later run without
   * a cut if and only if it does not itself fall between the two writes of a send.
   */
  lemma ClearingKeepsFraming(pre: nat, s: Sys, c: Sender)
    requires Good(pre, s, c) && s.r == Raised && Permitted(s, Reset)
    ensures var t, d := Apply(s, Reset), Moved(pre, s, c, Other(Reset));
      (forall moves | SendRun(pre, t, d, moves) :: Intact(pre, After(pre, t, d, moves).0, After(pre, t, d, moves).1))
      <==> !Cuts(s, c, Other(Reset))
  {
    hide Good;
    hide Intact;
    var t, d := Apply(s, Reset), Moved(pre, s, c, Other(Reset));
    if Cuts(s, c, Other(Reset)) {
      var moves := CutSendsBarePayload(pre, s, c);
      NotIntact(pre, After(pre, t, d, moves).0, After(pre, t, d, moves).1);
    } else {
      GoodKept(pre, s, c, Other(Reset));
      forall moves | SendRun(pre, t, d, moves)
        ensures Intact(pre, After(pre, t, d, moves).0, After(pre, t, d, moves).1)
      {
        GoodAlways(pre, t, d, moves);
        GoodIsIntact(pre, After(pre, t, d, moves).0, After(pre, t, d, moves).1);
      }
    }
  }

  lemma NotIntact(pre: nat, s: Sys, c: Sender)
    requires |s.log.sent| == 1 && c.kept == []
    ensures !Intact(pre, s, c)
  {
  }
}
