/**
 * The writer's wait: it ends, and what the two flow-control conditions are needed for,
 * exactly.
 */
module StringRingWait {
  import opened Laps
  import opened Words
  import opened StringRing
  import opened StringRingInvariant

  // ---------------------------------------------------------------- runs

  predicate EnabledRun(s: Sys, acts: seq<Action>)
    requires s.ring.buf != []
    decreases |acts|
  {
    acts == [] || (Enabled(s, acts[0]) && EnabledRun(Apply(s, acts[0]), acts[1..]))
  }

  /** The writer finishing its call while the other thread reads. */
  predicate WritingAndReading(acts: seq<Action>) {
    forall i :: 0 <= i < |acts| ==> acts[i] in {W, Load, Take}
  }

  lemma {:induction false} RunThen(s: Sys, first: seq<Action>, second: seq<Action>)
    requires s.ring.buf != []
    ensures Exec(s, first + second) == Exec(Exec(s, first), second)
    ensures EnabledRun(s, first) && EnabledRun(Exec(s, first), second) ==> EnabledRun(s, first + second)
    decreases |first|
  {
    hide Apply;
    hide Enabled;
    if first == [] {
      assert first + second == second;
    } else {
      assert (first + second)[1..] == first[1..] + second;
      RunThen(Apply(s, first[0]), first[1..], second);
    }
  }

  lemma OneStep(s: Sys, a: Action)
    requires s.ring.buf != []
    ensures Exec(s, [a]) == Apply(s, a)
    ensures EnabledRun(s, [a]) <==> Enabled(s, a)
  {
    hide Apply;
    hide Enabled;
    assert [a][1..] == [];
    assert Exec(Apply(s, a), []) == Apply(s, a);
    assert EnabledRun(Apply(s, a), []);
  }

  /** The run `acts`, every step of it enabled, leads from `s` to `t`. */
  predicate Leads(s: Sys, acts: seq<Action>, t: Sys) {
    s.ring.buf != [] && EnabledRun(s, acts) && Exec(s, acts) == t
  }

  lemma LeadsOn(s: Sys, a: seq<Action>, t: Sys, b: seq<Action>, u: Sys)
    requires Leads(s, a, t) && Leads(t, b, u)
    ensures Leads(s, a + b, u)
  {
    RunThen(s, a, b);
  }

  lemma LeadsByOne(s: Sys, a: Action)
    requires s.ring.buf != [] && Enabled(s, a)
    ensures Leads(s, [a], Apply(s, a))
  {
    OneStep(s, a);
  }

  // ---------------------------------------------------------------- reading

  /** One whole call of `read`. */
  function ReadOnce(s: Sys): (t: Sys)
    requires s.ring.buf != []
    ensures |t.ring.buf| == |s.ring.buf|
  {
    Apply(Apply(s, Load), Take)
  }

  lemma ReadOnceIsRun(s: Sys)
    requires s.ring.buf != [] && s.r == Idle
    ensures EnabledRun(s, [Load, Take]) && Exec(s, [Load, Take]) == ReadOnce(s)
  {
    assert [Load, Take] == [Load] + [Take];
    OneStep(s, Load);
    OneStep(Apply(s, Load), Take);
    RunThen(s, [Load], [Take]);
  }

  /** A read with something unread moves the reading cursor, never past what is published. */
  lemma ReadAdvances(s: Sys)
    requires Inv(s) && s.r == Idle && s.ring.readingCursor < s.ring.cursor
    ensures var t := ReadOnce(s);
      && Inv(t) && t.r == Idle && t.w == s.w
      && s.ring.readingCursor < t.ring.readingCursor <= s.ring.cursor
      && t.ring == s.ring.(readingCursor := t.ring.readingCursor, readingBegin := t.ring.readingBegin)
  {
    hide Stored;
    hide WriterOk;
    hide ReadAt;
    var l := Apply(s, Load);
    KeptByLoad(s);
    KeptByTake(l);
    ReadsFirstRecord(l);
    StoredShrinks(s.ring.buf, s.log.recs, s.ring.readingCursor, s.ring.cursor);
  }

  lemma BlockedMeansUnread(s: Sys)
    requires Inv(s) && Waiting(s) && !Condemned(s)
    ensures s.ring.readingCursor < s.ring.cursor
  {
  }

  /** The guard is exact: it holds the writer if and only if the place of its message meets an unread byte. */
  lemma GuardIsExact(s: Sys)
    requires Inv(s) && (s.w.pc == Guard || s.w.pc == GuardEnd) && !Condemned(s)
    ensures Waiting(s) <==> s.ring.cursor + s.ring.total > s.ring.readingCursor + |s.ring.buf|
  {
    hide Cell;
    hide Stored;
    var g, n := s.ring, |s.ring.buf|;
    EndInLap(g);
    if Waiting(s) {
      LapOffset(g.readingCursor, g.cursor, n);
    } else {
      OutsideMeansRoom(g);
    }
  }

  // ---------------------------------------------------------------- returning

  /** Caught in the wait: both halves of its condition hold. */
  predicate Waiting(s: Sys)
    requires s.ring.buf != []
  {
    (s.w.pc == Guard || s.w.pc == GuardEnd) && Blocked(s.ring)
  }

  /** How far the writer is from the end of the call; its own steps never increase it. */
  function Distance(s: Sys): nat
    requires s.ring.buf != []
  {
    match s.w.pc
    case Out => 0
    case Publish => 1
    case Finish => 2
    case Copy => if s.w.copied <= |s.w.chunk| then 3 + |s.w.chunk| - s.w.copied else 3
    case Account => 4 + |s.w.chunk|
    case PutLength => 5 + |s.w.chunk|
    case PutFlag => 6 + |s.w.chunk|
    case Check => 7 + |s.w.chunk|
    case Guard =>
      (if Blocked(s.ring) then 12 else if s.ring.resetting || Begin(s.ring) >= s.ring.readingBegin then 8 else 11)
      + |s.w.chunk|
    case GuardEnd =>
      (if Blocked(s.ring) then 12 else if End(s.ring) > s.ring.readingBegin then 9 else 10) + |s.w.chunk|
    case PublishSkip => 13 + |s.w.chunk|
    case PutSkip => 14 + |s.w.chunk|
    case Reserve => 15 + |s.w.chunk|
  }

  /** Every publication still to come in the call finds the cursor where it waits for it. */
  predicate OnTrack(s: Sys)
    requires s.ring.buf != []
  {
    var g, total := s.ring, |s.w.chunk| + s.w.rest + 5;
    && (s.w.pc != Out ==> !g.skip)
    && match s.w.pc
       case Out => true
       case Reserve => (total < |g.buf| && (s.w.rest == 0 || NeedsSkip(g, total)) ==> g.reserved == g.cursor)
       case PutSkip => g.writingBegin == g.cursor
       case PublishSkip => g.writingBegin == g.cursor
       case Publish => g.writingBegin == g.cursor
       case _ => s.w.rest == 0 ==> g.writingBegin == g.cursor
  }

  lemma InvOnTrack(s: Sys)
    requires Inv(s)
    ensures OnTrack(s)
  {
    hide Cell;
    hide Stored;
    hide MessageAt;
  }

  /** A step of a writer on track, unless the guard holds it, brings the call nearer its end. */
  lemma TrackedStep(s: Sys)
    requires s.ring.buf != [] && s.w.pc != Out && OnTrack(s)
    ensures Enabled(s, W) && OnTrack(WriterStep(s)) && WriterStep(s).r == s.r
    ensures if Waiting(s) then Distance(WriterStep(s)) == Distance(s) else Distance(WriterStep(s)) < Distance(s)
    ensures WriterStep(s).w.pc == Out || WriterStep(s).ring.writing == s.ring.writing
    ensures WriterStep(s).ring.resetting == s.ring.resetting
  {
    hide Cell;
    hide Put;
    hide Padding;
  }

  predicate BeforeSkip(pc: WriterPc) {
    pc in {Reserve, PutSkip, PublishSkip}
  }

  /** If the call still has a SKIP to publish, the first flow-control condition will hold. */
  predicate RoomForSkip(s: Sys)
    requires s.ring.buf != []
  {
    var g, n := s.ring, |s.ring.buf|;
    BeforeSkip(s.w.pc) && !Condemned(s) ==>
      || g.cursor + Padding(g.cursor, n) - g.readingCursor < n
      || (s.w.pc == Reserve && Cell(g.cursor, n) + |s.w.chunk| + s.w.rest + 5 < n)
  }

  /** A step of a writer that nothing blocks brings the call nearer its end. */
  lemma UnblockedStepAdvances(s: Sys)
    requires Inv(s) && s.w.pc != Out && RoomForSkip(s) && !Waiting(s)
    ensures Enabled(s, W) && Distance(WriterStep(s)) < Distance(s)
    ensures SkipHasRoom(s, W) && RoomForSkip(WriterStep(s))
    ensures WriterStep(s).r == s.r && WriterStep(s).ring.readingCursor == s.ring.readingCursor
    ensures BeforeSkip(WriterStep(s).w.pc) ==> BeforeSkip(s.w.pc)
    ensures s.w.pc == Publish ==> WriterStep(s).w.pc == Out
    ensures WriterStep(s).ring.cursor != s.ring.cursor ==> s.w.pc == Publish || s.w.pc == PublishSkip
    ensures s.w.pc == PublishSkip ==> WriterStep(s).w.pc == Guard
  {
    hide Cell;
    hide Stored;
    hide MessageAt;
    hide Put;
    hide Distance;
    hide OnTrack;
    InvOnTrack(s);
    TrackedStep(s);
  }

  /**
   * The wait cannot deadlock. From anywhere inside a call some schedule of the writer's
   * steps and of reads, each of them enabled, brings the call to its end.
   */
  lemma {:induction false} WriteReturns(s: Sys) returns (acts: seq<Action>)
    requires Inv(s) && s.r == Idle && RoomForSkip(s)
    ensures EnabledRun(s, acts) && Exec(s, acts).w.pc == Out
    ensures WritingAndReading(acts)
    decreases BeforeSkip(s.w.pc), s.ring.cursor + |s.ring.buf| - s.ring.readingCursor, Distance(s)
  {
    hide WriterStep;
    hide WriterOk;
    hide Stored;
    if s.w.pc == Out {
      acts := [];
    } else if Waiting(s) {
      BlockedMeansUnread(s);
      ReadAdvances(s);
      ReadOnceIsRun(s);
      var more := WriteReturns(ReadOnce(s));
      RunThen(s, [Load, Take], more);
      acts := [Load, Take] + more;
    } else {
      UnblockedStepAdvances(s);
      OneStep(s, W);
      if s.w.pc == Publish {
        acts := [W];
      } else {
        KeptByWriter(s);
        var more := WriteReturns(WriterStep(s));
        RunThen(s, [W], more);
        acts := [W] + more;
      }
    }
  }

  // ---------------------------------------------------------------- fair schedules

  /** A turn of a thread: its next step, if it can take one. A read takes two turns. */
  datatype Turn = WriterTurn | ReaderTurn

  function Play(s: Sys, turn: Turn): (t: Sys)
    requires s.ring.buf != []
    ensures |t.ring.buf| == |s.ring.buf|
  {
    match turn
    case WriterTurn => if Enabled(s, W) then Apply(s, W) else s
    case ReaderTurn => if s.r == Idle then Apply(s, Load) else Apply(s, Take)
  }

  function PlayAll(s: Sys, turns: seq<Turn>): (t: Sys)
    requires s.ring.buf != []
    ensures |t.ring.buf| == |s.ring.buf|
    decreases |turns|
  {
    if turns == [] then s else PlayAll(Play(s, turns[0]), turns[1..])
  }

  function Readers(turns: seq<Turn>): nat {
    if turns == [] then 0 else (if turns[0] == ReaderTurn then 1 else 0) + Readers(turns[1..])
  }

  /** In every round the writer gets a turn and the reader three, in any order. */
  ghost predicate FairRounds(rounds: nat -> seq<Turn>) {
    forall i :: WriterTurn in rounds(i) && Readers(rounds(i)) >= 3
  }

  /** `count` rounds, from round `first` on. */
  function AfterRounds(s: Sys, rounds: nat -> seq<Turn>, first: nat, count: nat): (t: Sys)
    requires s.ring.buf != []
    ensures |t.ring.buf| == |s.ring.buf|
    decreases count
  {
    if count == 0 then s else AfterRounds(PlayAll(s, rounds(first)), rounds, first + 1, count - 1)
  }

  /** A call is under way, with reads only beside it. */
  ghost predicate Going(s: Sys)
    ensures Going(s) ==> s.ring.buf != []
  {
    Inv(s) && s.w.pc != Out && (s.r == Idle || s.r.Loaded?) && RoomForSkip(s)
  }

  function Backlog(s: Sys): int {
    s.ring.cursor - s.ring.readingCursor
  }

  /** The call is nearer its end: past its SKIP, or with less to read, or by a step. */
  predicate Nearer(t: Sys, s: Sys)
    requires s.ring.buf != [] && t.ring.buf != []
  {
    || (BeforeSkip(s.w.pc) && !BeforeSkip(t.w.pc))
    || (BeforeSkip(s.w.pc) == BeforeSkip(t.w.pc) &&
        (Backlog(t) < Backlog(s) || (Backlog(t) == Backlog(s) && Distance(t) < Distance(s))))
  }

  predicate AsFar(t: Sys, s: Sys)
    requires s.ring.buf != [] && t.ring.buf != []
  {
    && BeforeSkip(s.w.pc) == BeforeSkip(t.w.pc) && Backlog(t) == Backlog(s) && Distance(t) == Distance(s)
    && Waiting(t) == Waiting(s)
  }

  /** How many turns, with something unread, until the reader has moved its cursor, less one. */
  function Stage(s: Sys): nat {
    if s.r.Loaded? then (if s.r.c == s.ring.readingCursor then 2 else 0) else 1
  }

  /** Held by the guard, the writer only goes from one test of it to the other. */
  lemma WaitingStep(s: Sys)
    requires s.ring.buf != [] && Waiting(s)
    ensures WriterStep(s) == s.(w := s.w.(pc := if s.w.pc == Guard then GuardEnd else Guard))
    ensures Waiting(WriterStep(s)) && Distance(WriterStep(s)) == Distance(s)
  {
    hide Cell;
  }

  lemma WriterPlays(s: Sys)
    requires Going(s)
    ensures var t := Play(s, WriterTurn);
      t.w.pc == Out || (Going(t) && if Waiting(s) then AsFar(t, s) && Stage(t) == Stage(s) else Nearer(t, s))
  {
    hide Distance;
    hide Inv;
    hide Waiting;
    InvOnTrack(s);
    TrackedStep(s);
    hide OnTrack;
    if Waiting(s) {
      WaitingStep(s);
    } else {
      UnblockedStepAdvances(s);
    }
    hide WriterStep;
    if s.w.pc != Publish {
      KeptByWriter(s);
    }
  }

  lemma ReaderPlays(s: Sys)
    requires Going(s)
    ensures var t := Play(s, ReaderTurn);
      && Going(t)
      && (Nearer(t, s) || (AsFar(t, s) && (Backlog(s) > 0 ==> Stage(t) + 1 <= Stage(s))))
  {
    hide Inv;
    hide Distance;
    var t := Play(s, ReaderTurn);
    if s.r == Idle {
      KeptByLoad(s);
      SameDistance(s, t);
    } else {
      KeptByTake(s);
      TakeMoves(s);
      if s.r.c == s.ring.readingCursor {
        SameDistance(s, t);
      }
    }
  }

  lemma SameDistance(s: Sys, t: Sys)
    requires s.ring.buf != [] && t.ring == s.ring && t.w == s.w
    ensures Distance(t) == Distance(s)
  {
  }

  /** What a turn of the reader that has loaded the cursor does. */
  lemma TakeMoves(s: Sys)
    requires Inv(s) && s.r.Loaded?
    ensures var t := Apply(s, Take);
      && t.w == s.w && t.r == Idle && t.ring.cursor == s.ring.cursor && t.ring.resetting == s.ring.resetting
      && t.ring == s.ring.(readingCursor := t.ring.readingCursor, readingBegin := t.ring.readingBegin)
      && (s.r.c == s.ring.readingCursor ==> t.ring == s.ring)
      && (s.r.c != s.ring.readingCursor ==> s.ring.readingCursor < t.ring.readingCursor <= s.ring.cursor)
      && s.ring.readingCursor <= s.ring.cursor
      && (s.r.c != s.ring.readingCursor ==> s.ring.readingCursor < s.ring.cursor)
  {
    hide Stored;
    hide WriterOk;
    hide ReadAt;
    ReadsFirstRecord(s);
    if s.r.c != s.ring.readingCursor {
      StoredShrinks(s.ring.buf, s.log.recs, s.ring.readingCursor, s.ring.cursor);
    }
  }

  lemma {:induction false} OutStaysOut(s: Sys, turns: seq<Turn>)
    requires s.ring.buf != [] && s.w.pc == Out
    ensures PlayAll(s, turns).w.pc == Out
    decreases |turns|
  {
    hide ReadAt;
    if turns != [] {
      OutStaysOut(Play(s, turns[0]), turns[1..]);
    }
  }

  /** A round leaves the call as far from its end only if the writer waits and the reader hardly gets a turn. */
  lemma {:induction false} RoundPlays(s: Sys, turns: seq<Turn>)
    requires Going(s)
    ensures var t := PlayAll(s, turns);
      t.w.pc == Out || (Going(t) &&
        (Nearer(t, s) ||
         (AsFar(t, s) && (WriterTurn in turns ==> Waiting(s)) &&
          (Backlog(s) > 0 ==> Stage(t) + Readers(turns) <= Stage(s)))))
    decreases |turns|
  {
    hide Going;
    hide Distance;
    hide Waiting;
    hide Play;
    if turns != [] {
      var u := Play(s, turns[0]);
      assert turns == [turns[0]] + turns[1..];
      if turns[0] == WriterTurn {
        WriterPlays(s);
      } else {
        ReaderPlays(s);
      }
      if u.w.pc == Out {
        OutStaysOut(u, turns[1..]);
      } else {
        RoundPlays(u, turns[1..]);
      }
    }
  }

  /** A fair round brings the call nearer its end. */
  lemma FairRoundPlays(s: Sys, turns: seq<Turn>)
    requires Going(s) && WriterTurn in turns && Readers(turns) >= 3
    ensures var t := PlayAll(s, turns);
      t.w.pc == Out || (Going(t) && Nearer(t, s))
  {
    hide Distance;
    RoundPlays(s, turns);
    if Waiting(s) {
      BlockedMeansUnread(s);
    }
  }

  /** Under every fair schedule the call comes to its end. */
  lemma {:induction false} FairWriteReturns(s: Sys, rounds: nat -> seq<Turn>, first: nat) returns (count: nat)
    requires Going(s) && FairRounds(rounds)
    ensures AfterRounds(s, rounds, first, count).w.pc == Out
    decreases BeforeSkip(s.w.pc), Backlog(s), Distance(s)
  {
    hide Distance;
    var t := PlayAll(s, rounds(first));
    FairRoundPlays(s, rounds(first));
    BacklogIsNat(s);
    if t.w.pc == Out {
      assert AfterRounds(t, rounds, first + 1, 0) == t;
      count := 1;
    } else {
      BacklogIsNat(t);
      hide Going;
      count := FairWriteReturns(t, rounds, first + 1);
      count := count + 1;
    }
  }

  lemma BacklogIsNat(s: Sys)
    requires Going(s)
    ensures Backlog(s) >= 0
  {
  }

  // ---------------------------------------------------------------- exactly full

  /**
   * The second flow-control condition is exact: the message just published is found by
   * the next read if and only if its publication did not fill the ring exactly.
   */
  lemma ExactlyFullLooksEmpty(s: Sys)
    requires Inv(s) && s.w.pc == Publish && s.r == Idle
    ensures ReadOnce(WriterStep(s)).ring.readingCursor != s.ring.readingCursor <==> NotExactlyFull(s, W)
  {
    hide Stored;
    hide WriterOk;
    hide Cell;
    var t := WriterStep(s);
    PublishMoves(s);
    if NotExactlyFull(s, W) {
      KeptByWriter(s);
      ReadAdvances(t);
    } else {
      NextLapSameCell(s.ring.readingCursor, |s.ring.buf|);
    }
  }

  lemma PublishMoves(s: Sys)
    requires Inv(s) && s.w.pc == Publish
    ensures var t := WriterStep(s).ring;
      && t.cursor == s.ring.cursor + s.ring.total > s.ring.cursor
      && t.readingCursor == s.ring.readingCursor && t.readingBegin == s.ring.readingBegin
      && WriterStep(s).r == s.r && t.resetting == s.ring.resetting && |t.buf| == |s.ring.buf|
  {
    hide Stored;
    hide MessageAt;
  }

  // ---------------------------------------------------------------- skipping

  /** The writer is about to store a header over bytes not yet read. */
  predicate Overruns(s: Sys) {
    s.w.pc == PutFlag && !Room(s.ring)
  }

  /** After a SKIP that used up the lap: the next place is a lap ahead of the reader or more. */
  ghost predicate Crowded(s: Sys) {
    var g, n := s.ring, |s.ring.buf|;
    && n > 0 && s.w.pc == Guard && !g.resetting && s.w.seen == g.resetCount
    && (s.r == Idle || (s.r.Loaded? && g.readingCursor <= s.r.c <= g.cursor))
    && g.readingBegin == Cell(g.readingCursor, n)
    && g.writingCursor == g.cursor && Cell(g.cursor, n) == 0 && 0 < g.total < n
    && g.readingCursor + n <= g.cursor
    && Stored(g.buf, s.log.recs, g.readingCursor, g.cursor)
  }

  /** No record crosses the end of a lap. */
  lemma RecordEndsInLap(buf: seq<byte>, rec: Rec, l: nat)
    requires buf != [] && Written(buf, rec) && rec.pos < l && Cell(l, |buf|) == 0
    ensures EndOf(rec, |buf|) <= l
  {
    hide Cell;
    if l < EndOf(rec, |buf|) {
      LapOffset(rec.pos, l, |buf|);
    }
  }

  lemma NothingAt(g: Ring, c: nat)
    requires g.buf != [] && g.readingBegin == Cell(c, |g.buf|)
    ensures ReadAt(g, c) == Nothing
  {
  }

  /** A read that has loaded the cursor leaves the reader where it is, or moves it, but not out of the lap. */
  lemma CrowdedTake(s: Sys)
    requires Crowded(s) && s.ring.readingBegin > 0 && s.r.Loaded?
    ensures var t := Apply(s, Take);
      && Crowded(t) && t.r == Idle && t.ring.cursor == s.ring.cursor
      && t.ring.readingCursor >= s.ring.readingCursor
      && (s.r.c == s.ring.cursor ==> t.ring.readingCursor > s.ring.readingCursor)
  {
    hide Cell;
    hide Stored;
    hide ReadAt;
    var g, n := s.ring, |s.ring.buf|;
    var l := g.cursor - n;
    NextLapSameCell(l, n);
    if g.readingBegin != Cell(s.r.c, n) {
      FirstStored(g.buf, s.log.recs, g.readingCursor, g.cursor);
      ReadsWritten(g, s.r.c, s.log.recs[0]);
      StoredShrinks(g.buf, s.log.recs, g.readingCursor, g.cursor);
      RecordEndsInLap(g.buf, s.log.recs[0], l);
    } else {
      NothingAt(g, s.r.c);
    }
  }

  /** The guard lets a writer pass whose place does not contain the reader. */
  lemma GuardPasses(s: Sys) returns (acts: seq<Action>)
    requires s.ring.buf != [] && s.w.pc == Guard && !(Begin(s.ring) < s.ring.readingBegin < End(s.ring))
    ensures Leads(s, acts, s.(w := s.w.(pc := Check))) && WritingAndReading(acts)
  {
    hide Cell;
    var s1 := WriterStep(s);
    LeadsByOne(s, W);
    if s1.w.pc == Check {
      acts := [W];
    } else {
      LeadsByOne(s1, W);
      LeadsOn(s, [W], s1, [W], WriterStep(s1));
      acts := [W] + [W];
    }
  }

  lemma CrowdedPasses(s: Sys) returns (acts: seq<Action>)
    requires Crowded(s) && !(0 < s.ring.readingBegin < s.ring.total)
    ensures EnabledRun(s, acts) && Overruns(Exec(s, acts))
    ensures WritingAndReading(acts)
  {
    hide Cell;
    hide Stored;
    LapOffset(s.ring.cursor, s.ring.cursor + s.ring.total, |s.ring.buf|);
    acts := GuardPasses(s);
    var t := s.(w := s.w.(pc := Check));
    LeadsByOne(t, W);
    LeadsOn(s, acts, t, [W], WriterStep(t));
    acts := acts + [W];
  }

  lemma {:induction false} CrowdedOverruns(s: Sys) returns (acts: seq<Action>)
    requires Crowded(s)
    ensures EnabledRun(s, acts) && Overruns(Exec(s, acts))
    ensures WritingAndReading(acts)
    decreases s.ring.cursor - s.ring.readingCursor,
      if s.r == Idle then 1 else if s.r.Loaded? && s.r.c != s.ring.cursor then 2 else 0
  {
    hide Cell;
    hide Stored;
    hide TakeStep;
    if 0 < s.ring.readingBegin < s.ring.total {
      var a := if s.r == Idle then Load else Take;
      if a == Take {
        CrowdedTake(s);
      }
      var more := CrowdedOverruns(Apply(s, a));
      RunThen(s, [a], more);
      acts := [a] + more;
    } else {
      acts := CrowdedPasses(s);
    }
  }

  lemma SkipCrowds(s: Sys)
    requires Inv(s) && s.w.pc == PublishSkip && (s.r == Idle || s.r.Loaded?) && !SkipHasRoom(s, W)
    ensures Crowded(WriterStep(s))
  {
    hide Stored;
    hide MessageAt;
    hide Cell;
    var rec := Rec(s.ring.cursor, Skip, []);
    StoredExtended(s.ring.buf, s.log.recs, rec, s.ring.readingCursor, s.ring.cursor);
    PaddingEndsLap(s.ring.cursor, |s.ring.buf|);
  }

  /** While the writer finishes this call it never overruns, from a state that keeps the invariant. */
  lemma {:induction false} NoOverrun(s: Sys, acts: seq<Action>)
    requires s.ring.buf != [] && PastSkip(s)
    requires EnabledRun(s, acts) && WritingAndReading(acts)
    ensures !Overruns(Exec(s, acts))
    decreases |acts|
  {
    hide PastSkip;
    hide Apply;
    hide Enabled;
    if acts == [] {
      PastSkipHasRoom(s);
    } else {
      PastSkipKept(s, acts[0]);
      NoOverrun(Apply(s, acts[0]), acts[1..]);
    }
  }

  /** Out of the call, or past its SKIP with the invariant. */
  ghost predicate PastSkip(s: Sys) {
    s.w.pc == Out || (Inv(s) && !Condemned(s) && s.r != Bumped && !BeforeSkip(s.w.pc))
  }

  lemma PastSkipHasRoom(s: Sys)
    requires PastSkip(s)
    ensures !Overruns(s)
  {
    hide Layout;
  }

  lemma PastSkipKept(s: Sys, a: Action)
    requires s.ring.buf != [] && PastSkip(s) && Enabled(s, a) && a in {W, Load, Take}
    ensures PastSkip(Apply(s, a))
  {
    hide Inv;
    if s.w.pc != Out && !(a == W && s.w.pc == Publish) {
      InvKept(s, a);
      if a == W {
        StaysPastSkip(s);
        WriterLeavesReader(s);
      }
    }
    hide Cell;
    hide TakeStep;
  }

  lemma StaysPastSkip(s: Sys)
    requires s.ring.buf != [] && !BeforeSkip(s.w.pc)
    ensures !BeforeSkip(WriterStep(s).w.pc)
  {
    hide Cell;
    hide Put;
  }

  /**
   * The first flow-control condition is exact: a SKIP is published without letting the
   * writer run over unread bytes in some continuation, if and only if the condition
   * holds when it is published.
   */
  lemma SkipWithoutRoomOverruns(s: Sys)
    requires Inv(s) && s.w.pc == PublishSkip && (s.r == Idle || s.r.Loaded?)
    ensures SkipHasRoom(s, W) <==>
      (forall acts: seq<Action> | EnabledRun(WriterStep(s), acts) && WritingAndReading(acts) ::
        !Overruns(Exec(WriterStep(s), acts)))
  {
    hide Stored;
    hide WriterOk;
    hide Cell;
    var t := WriterStep(s);
    if SkipHasRoom(s, W) {
      KeptByWriter(s);
      forall acts: seq<Action> | EnabledRun(t, acts) && WritingAndReading(acts)
        ensures !Overruns(Exec(t, acts))
      {
        NoOverrun(t, acts);
      }
    } else {
      SkipCrowds(s);
      var acts := CrowdedOverruns(t);
    }
  }
}
