/** The invariant of the byte ring, and that every permitted step keeps it. */
module StringRingInvariant {
  import opened Laps
  import opened Words
  import opened StringRing

  // ---------------------------------------------------------------- records

  function EndOf(rec: Rec, n: nat): nat
    requires n > 0
  {
    if rec.flag == Skip then rec.pos + Padding(rec.pos, n) else rec.pos + 5 + |rec.body|
  }

  /** How many cells of the record carry information, from its flag on. */
  function CellsOf(rec: Rec): nat {
    if rec.flag == Skip then 1 else 5 + |rec.body|
  }

  /** The cells at the record's place spell the record, without wrapping. */
  ghost predicate Written(buf: seq<byte>, rec: Rec)
    requires buf != []
  {
    var n := |buf|;
    var i := Cell(rec.pos, n);
    && buf[i] == Code(rec.flag)
    && (rec.flag == Skip ==> rec.body == [])
    && (rec.flag != Skip ==>
      && i + 5 + |rec.body| < n
      && HeaderAt(buf, i, rec.flag, |rec.body|)
      && (rec.flag == Ok ==> buf[i + 5..i + 5 + |rec.body|] == rec.body))
  }

  /** The records follow each other without gap from `lo` to `hi`. */
  ghost predicate Tiles(recs: seq<Rec>, lo: nat, hi: nat, n: nat)
    requires n > 0
  {
    && (recs == [] ==> lo == hi)
    && (recs != [] ==> recs[0].pos == lo && EndOf(recs[|recs| - 1], n) == hi)
    && (forall i :: 0 <= i < |recs| ==> lo <= recs[i].pos && EndOf(recs[i], n) <= hi)
    && (forall i, j :: 0 <= i < j < |recs| ==> EndOf(recs[i], n) <= recs[j].pos)
    && (forall i :: 0 < i < |recs| ==> recs[i].pos == EndOf(recs[i - 1], n))
  }

  ghost predicate Stored(buf: seq<byte>, recs: seq<Rec>, lo: nat, hi: nat)
    requires buf != []
  {
    && lo <= hi
    && Tiles(recs, lo, hi, |buf|)
    && (forall i :: 0 <= i < |recs| ==> Written(buf, recs[i]))
  }

  function Texts(recs: seq<Rec>): seq<seq<byte>> {
    if recs == [] then []
    else (if recs[0].flag == Ok then [recs[0].body] else []) + Texts(recs[1..])
  }

  lemma {:induction false} TextsAppend(recs: seq<Rec>, rec: Rec)
    ensures Texts(recs + [rec]) == Texts(recs) + if rec.flag == Ok then [rec.body] else []
  {
    if recs == [] {
      assert [rec][1..] == [];
    } else {
      assert (recs + [rec])[1..] == recs[1..] + [rec];
      TextsAppend(recs[1..], rec);
    }
  }

  /** A flag and a length field. */
  ghost predicate HeaderAt(buf: seq<byte>, i: nat, flag: Flag, len: nat) {
    i + 5 <= |buf| && buf[i] == Code(flag) && U32Value(buf[i + 1..i + 5]) == len
  }

  /** The header of a message of `len` bytes, and the bytes of it already copied. */
  ghost predicate MessageAt(buf: seq<byte>, i: nat, len: nat, acc: seq<byte>) {
    HeaderAt(buf, i, Ok, len) && i + 5 + |acc| <= |buf| && buf[i + 5..i + 5 + |acc|] == acc
  }

  lemma HeaderComplete(buf: seq<byte>, i: nat, len: nat)
    requires i + 5 <= |buf| <= U32_LIMIT && buf[i] == Code(Ok) && len < |buf|
    ensures MessageAt(Put(buf, i + 1, U32Bytes(len)), i, len, [])
  {
    U32RoundTrip(len);
    assert Put(buf, i + 1, U32Bytes(len))[i + 1..i + 5] == U32Bytes(len);
  }

  lemma MessageGrows(buf: seq<byte>, i: nat, len: nat, acc: seq<byte>, b: byte)
    requires MessageAt(buf, i, len, acc) && i + 5 + |acc| < |buf|
    ensures MessageAt(Put(buf, i + 5 + |acc|, [b]), i, len, acc + [b])
  {
    var buf' := Put(buf, i + 5 + |acc|, [b]);
    assert buf'[i + 1..i + 5] == buf[i + 1..i + 5];
    assert buf'[i + 5..i + 5 + |acc|] == buf[i + 5..i + 5 + |acc|];
  }

  lemma MessageSpoiled(buf: seq<byte>, i: nat, len: nat, acc: seq<byte>)
    requires MessageAt(buf, i, len, acc)
    ensures HeaderAt(Put(buf, i, [Code(Invalid)]), i, Invalid, len)
  {
    assert Put(buf, i, [Code(Invalid)])[i + 1..i + 5] == buf[i + 1..i + 5];
  }

  // ---------------------------------------------------------------- invariant

  ghost predicate Shape(s: Sys) {
    var g := s.ring;
    && 0 < |g.buf| <= U32_LIMIT
    && g.readingBegin == Cell(g.readingCursor, |g.buf|)
    && !g.skip
    && (g.writing <==> s.w.pc != Out)
    && (s.w.pc == Out ==> s.w == NO_WRITER)
    && (g.resetting <==> s.r == Raised || s.r == Cleared)
    && (s.r == Cleared ==> s.w.pc == Out)
  }

  /** The unread part of the ring: whole records from the reading cursor to the published one. */
  ghost predicate Unread(s: Sys)
    requires s.ring.buf != []
  {
    var g := s.ring;
    && g.readingCursor <= g.cursor < g.readingCursor + |g.buf|
    && Stored(g.buf, s.log.recs, g.readingCursor, g.cursor)
  }

  /** Unless it is condemned, the ring holds what is sent and not yet read. */
  ghost predicate Layout(s: Sys)
    requires s.ring.buf != []
  {
    && (!Condemned(s) ==> Unread(s))
    && s.log.sent == s.log.got + Texts(s.log.recs)
    && (s.r.Loaded? ==> s.ring.readingCursor <= s.r.c <= s.ring.cursor)
  }

  predicate Early(pc: WriterPc) {
    pc in {Reserve, PutSkip, PublishSkip, Guard, GuardEnd, Check}
  }

  predicate Resetting(s: Sys) {
    s.r == Bumped || s.r == Raised
  }

  /** A message of `total` bytes has its place, which ends inside the lap. */
  ghost predicate Placed(g: Ring)
    requires g.buf != []
  {
    && g.reserved == g.writingBegin + g.total
    && 5 < g.total
    && Cell(g.writingBegin, |g.buf|) + g.total < |g.buf|
  }

  /** The place of the message meets no unread byte. */
  predicate Room(g: Ring) {
    g.cursor + g.total <= g.readingCursor + |g.buf|
  }

  /** So it is past the guard, except that the flag of `reset` ends the wait as well. */
  predicate Roomy(s: Sys) {
    Condemned(s) || Room(s.ring)
  }

  /** The header of the message and the first bytes of it, `acc`, are in place. */
  ghost predicate Begun(g: Ring, acc: seq<byte>)
    requires g.buf != []
  {
    && Placed(g)
    && 5 + |acc| <= g.total
    && MessageAt(g.buf, Cell(g.writingBegin, |g.buf|), g.total - 5, acc)
  }

  ghost predicate Fitting(s: Sys)
    requires s.ring.buf != []
  {
    var g := s.ring;
    && s.w.chunk != [] && s.w.copied == 0 && s.log.acc == []
    && g.total == |s.w.chunk| + s.w.rest + 5 < |g.buf|
    && g.remaining == |s.w.chunk| + s.w.rest
  }

  ghost predicate WriterOk(s: Sys)
    requires s.ring.buf != []
  {
    var g, n := s.ring, |s.ring.buf|;
    match s.w.pc
    case Out =>
      if g.writingCursor == 0 then
        s.log.acc == []
      else
        Begun(g, s.log.acc) && Roomy(s) && g.writingCursor == g.writingBegin + 5 + |s.log.acc|
        && s.log.acc != [] && g.remaining == g.total - 5 - |s.log.acc| > 0
    case Reserve =>
      s.w.chunk != [] && s.w.copied == 0 && s.log.acc == [] && g.writingCursor == 0
      && |s.w.chunk| + s.w.rest + 5 < n
    case PutSkip =>
      Fitting(s) && g.writingBegin == g.cursor == g.writingCursor && g.reserved == g.cursor + g.total
    case PublishSkip =>
      Fitting(s) && g.writingBegin == g.cursor == g.writingCursor
      && g.reserved == g.cursor + g.total + Padding(g.cursor, n)
      && g.buf[Cell(g.cursor, n)] == Code(Skip)
    case Guard => Fitting(s) && Placed(g) && g.writingCursor == g.writingBegin
    case GuardEnd => Fitting(s) && Placed(g) && g.writingCursor == g.writingBegin
    case Check =>
      Fitting(s) && Placed(g) && g.writingCursor == g.writingBegin
      && (Roomy(s) || s.w.seen != g.resetCount)
    case PutFlag => Fitting(s) && Placed(g) && g.writingCursor == g.writingBegin && Roomy(s)
    case PutLength =>
      Fitting(s) && Placed(g) && g.writingCursor == g.writingBegin + 1 && Roomy(s)
      && g.buf[Cell(g.writingBegin, n)] == Code(Ok)
    case Account =>
      && Begun(g, s.log.acc) && Roomy(s) && g.writingCursor == g.writingBegin + 5 + |s.log.acc|
      && s.w.chunk != [] && g.remaining == g.total - 5 - |s.log.acc| && s.w.copied == 0
      && (s.w.rest > 0 || s.log.acc == [] ==> g.remaining == |s.w.chunk| + s.w.rest)
    case Copy =>
      && s.w.copied <= |s.w.chunk|
      && Begun(g, s.log.acc + s.w.chunk[..s.w.copied]) && Roomy(s)
      && g.writingCursor == g.writingBegin + 5 + |s.log.acc|
      && s.w.chunk != [] && g.remaining == s.w.rest
      && g.total - 5 == |s.log.acc| + |s.w.chunk| + s.w.rest
    case Finish =>
      && Begun(g, s.log.acc) && Roomy(s) && g.writingCursor == g.writingBegin + 5 + |s.log.acc|
      && s.w.chunk != []
      && (s.w.rest > 0 ==> g.remaining == s.w.rest)
      && (g.remaining == s.w.rest ==> |s.log.acc| + s.w.rest == g.total - 5 && s.log.acc != [])
    case Publish =>
      && Placed(g) && Roomy(s) && s.w.rest == 0 && s.w.chunk != []
      && (g.remaining == 0 ==> Begun(g, s.log.acc) && |s.log.acc| == g.total - 5)
      && (g.remaining != 0 ==> HeaderAt(g.buf, Cell(g.writingBegin, n), Invalid, g.total - 5))
  }

  /**
   * Only during a `reset` can a place have been left unused; a call that goes on beside it
   * publishes nothing.
   */
  predicate InLine(s: Sys)
    requires s.ring.buf != []
  {
    Beside(s) ==>
      && Resetting(s) && (Early(s.w.pc) ==> s.w.seen == s.ring.resetCount)
      && match s.w.pc
         case Out => true
         case Reserve => s.w.rest > 0 && !NeedsSkip(s.ring, |s.w.chunk| + s.w.rest + 5)
         case PutSkip => false
         case PublishSkip => false
         case Publish => false
         case _ => s.w.rest > 0
  }

  /** Only during a `reset` can a writer before its check have an old count. */
  predicate WriterNoticesReset(s: Sys) {
    Early(s.w.pc) && s.w.seen != s.ring.resetCount ==> Resetting(s)
  }

  ghost predicate Inv(s: Sys)
    ensures Inv(s) ==> s.ring.buf != []
  {
    Shape(s) && Layout(s) && WriterOk(s) && InLine(s) && WriterNoticesReset(s)
  }

  lemma InvInit(n: nat)
    requires 0 < n <= U32_LIMIT
    ensures Inv(Init(n))
  {
    hide Cell;
    FirstCell(n);
  }

  // ---------------------------------------------------------------- what stays

  /** Cells that differ only inside the writer's window leave a record as it was. */
  lemma WrittenKept(buf: seq<byte>, buf': seq<byte>, rec: Rec, w: nat, m: nat)
    requires buf != [] && |buf'| == |buf| && Written(buf, rec)
    requires 0 < m && Cell(w, |buf|) + m <= |buf|
    requires rec.pos + CellsOf(rec) <= w && w + m <= rec.pos + |buf|
    requires forall k :: 0 <= k < |buf| && !(Cell(w, |buf|) <= k < Cell(w, |buf|) + m) ==> buf'[k] == buf[k]
    ensures Written(buf', rec)
  {
    hide Cell;
    var n, i := |buf|, Cell(rec.pos, |buf|);
    RunsApart(rec.pos, CellsOf(rec), w, m, n);
    assert forall k :: i <= k < i + CellsOf(rec) ==> buf'[k] == buf[k];
    if rec.flag != Skip {
      assert buf'[i + 1..i + 5] == buf[i + 1..i + 5];
      assert buf'[i + 5..i + 5 + |rec.body|] == buf[i + 5..i + 5 + |rec.body|];
    }
  }

  /** Stores into the window at `hi` keep the records below it. */
  lemma StoredKept(buf: seq<byte>, buf': seq<byte>, recs: seq<Rec>, lo: nat, hi: nat, m: nat)
    requires buf != [] && |buf'| == |buf| && Stored(buf, recs, lo, hi)
    requires 0 < m && Cell(hi, |buf|) + m <= |buf| && hi + m <= lo + |buf|
    requires forall k :: 0 <= k < |buf| && !(Cell(hi, |buf|) <= k < Cell(hi, |buf|) + m) ==> buf'[k] == buf[k]
    ensures Stored(buf', recs, lo, hi)
  {
    hide Cell;
    forall i | 0 <= i < |recs|
      ensures Written(buf', recs[i])
    {
      assert Written(buf, recs[i]);
      assert lo <= recs[i].pos && EndOf(recs[i], |buf|) <= hi;
      WrittenKept(buf, buf', recs[i], hi, m);
    }
  }

  /** The record that starts at `hi` joins the records below it. */
  lemma StoredExtended(buf: seq<byte>, recs: seq<Rec>, rec: Rec, lo: nat, hi: nat)
    requires buf != [] && Stored(buf, recs, lo, hi)
    requires Written(buf, rec) && rec.pos == hi
    ensures Stored(buf, recs + [rec], lo, EndOf(rec, |buf|))
  {
    hide Cell;
    var all := recs + [rec];
    forall i | 0 <= i < |all|
      ensures Written(buf, all[i])
    {
      if i < |recs| {
        assert Written(buf, recs[i]);
      }
    }
    TilesExtended(recs, rec, lo, hi, |buf|);
  }

  lemma TilesExtended(recs: seq<Rec>, rec: Rec, lo: nat, hi: nat, n: nat)
    requires n > 0 && lo <= hi && Tiles(recs, lo, hi, n) && rec.pos == hi
    ensures Tiles(recs + [rec], lo, EndOf(rec, n), n)
  {
  }

  /** The first record leaves. */
  lemma StoredShrinks(buf: seq<byte>, recs: seq<Rec>, lo: nat, hi: nat)
    requires buf != [] && Stored(buf, recs, lo, hi) && recs != []
    ensures lo < EndOf(recs[0], |buf|) <= hi
    ensures Stored(buf, recs[1..], EndOf(recs[0], |buf|), hi)
  {
    hide Cell;
    if |recs| > 1 {
      assert recs[1].pos == EndOf(recs[0], |buf|);
    }
  }

  // ---------------------------------------------------------------- writer steps

  lemma KeptReserve(s: Sys)
    requires Inv(s) && s.w.pc == Reserve
    ensures Inv(WriterStep(s))
  {
    hide Cell;
    hide Stored;
  }

  lemma KeptPutSkip(s: Sys)
    requires Inv(s) && s.w.pc == PutSkip
    ensures Inv(WriterStep(s))
  {
    hide Cell;
    hide Stored;
    if !Condemned(s) {
      StoredKept(s.ring.buf, WriterStep(s).ring.buf, s.log.recs, s.ring.readingCursor, s.ring.cursor, 1);
    }
  }

  lemma KeptPublishSkip(s: Sys)
    requires Inv(s) && s.w.pc == PublishSkip && SkipHasRoom(s, W)
    ensures Inv(WriterStep(s))
  {
    hide Cell;
    hide Stored;
    var rec := Rec(s.ring.cursor, Skip, []);
    if !Condemned(s) {
      StoredExtended(s.ring.buf, s.log.recs, rec, s.ring.readingCursor, s.ring.cursor);
    }
    TextsAppend(s.log.recs, rec);
    PaddingEndsLap(s.ring.cursor, |s.ring.buf|);
  }

  /** Leaving the wait because the reader is not inside the message's place. */
  lemma OutsideMeansRoom(g: Ring)
    requires g.buf != [] && g.readingBegin == Cell(g.readingCursor, |g.buf|)
    requires g.readingCursor <= g.cursor < g.readingCursor + |g.buf|
    requires Cell(g.cursor, |g.buf|) + g.total < |g.buf|
    requires Cell(g.cursor, |g.buf|) >= g.readingBegin || Cell(g.cursor, |g.buf|) + g.total <= g.readingBegin
    ensures Room(g)
  {
    hide Cell;
    LapOffset(g.readingCursor, g.cursor, |g.buf|);
  }

  lemma EndInLap(g: Ring)
    requires g.buf != [] && Placed(g) && g.writingCursor == g.writingBegin
    ensures Begin(g) == Cell(g.writingBegin, |g.buf|) && End(g) == Begin(g) + g.total
  {
    hide Cell;
    LapOffset(g.writingBegin, g.writingBegin + g.total, |g.buf|);
  }

  lemma KeptGuards(s: Sys)
    requires Inv(s) && (s.w.pc == Guard || s.w.pc == GuardEnd)
    ensures Inv(WriterStep(s))
  {
    hide Cell;
    hide Stored;
    EndInLap(s.ring);
    if WriterStep(s).w.pc == Check && !Condemned(s) {
      OutsideMeansRoom(s.ring);
    }
  }

  lemma KeptCheck(s: Sys)
    requires Inv(s) && s.w.pc == Check
    ensures Inv(WriterStep(s)) && (WriterStep(s).w.pc == Out ==> Resetting(s))
  {
    hide Cell;
    hide Stored;
  }

  lemma KeptPutFlag(s: Sys)
    requires Inv(s) && s.w.pc == PutFlag
    ensures Inv(WriterStep(s))
  {
    hide Cell;
    hide Stored;
    if !Condemned(s) {
      StoredKept(s.ring.buf, WriterStep(s).ring.buf, s.log.recs, s.ring.readingCursor, s.ring.cursor, 1);
    }
  }

  lemma KeptPutLength(s: Sys)
    requires Inv(s) && s.w.pc == PutLength
    ensures Inv(WriterStep(s))
  {
    hide Cell;
    hide Stored;
    hide MessageAt;
    var g, t := s.ring, WriterStep(s);
    assert Cell(g.writingCursor, |g.buf|) == Cell(g.writingBegin, |g.buf|) + 1 by {
      LapOffset(g.writingBegin, g.writingBegin + 1, |g.buf|);
    }
    HeaderComplete(g.buf, Cell(g.writingBegin, |g.buf|), g.total - 5);
    if !Condemned(s) {
      StoredKept(g.buf, t.ring.buf, s.log.recs, g.readingCursor, g.cursor, 5);
    }
  }

  lemma KeptAccount(s: Sys)
    requires Inv(s) && s.w.pc == Account
    ensures Inv(WriterStep(s))
  {
    hide Cell;
    hide Stored;
    hide MessageAt;
    assert s.log.acc + s.w.chunk[..0] == s.log.acc;
  }

  lemma KeptCopy(s: Sys)
    requires Inv(s) && s.w.pc == Copy
    ensures Inv(WriterStep(s))
  {
    hide Put;
    hide Cell;
    hide Stored;
    hide MessageAt;
    hide Texts;
    var g, t, k := s.ring, WriterStep(s), s.w.copied;
    var i := Cell(g.writingBegin, |g.buf|);
    LapOffset(g.writingBegin, g.writingCursor, |g.buf|);
    if k < |s.w.chunk| {
      if !Condemned(s) {
        StoredKept(g.buf, t.ring.buf, s.log.recs, g.readingCursor, g.cursor, g.total);
      }
      MessageGrows(g.buf, i, g.total - 5, s.log.acc + s.w.chunk[..k], s.w.chunk[k]);
      assert s.log.acc + s.w.chunk[..k + 1] == s.log.acc + s.w.chunk[..k] + [s.w.chunk[k]];
    } else {
      assert s.w.chunk[..k] == s.w.chunk;
    }
  }

  lemma KeptFinish(s: Sys)
    requires Inv(s) && s.w.pc == Finish
    ensures Inv(WriterStep(s))
  {
    hide Put;
    hide Cell;
    hide Stored;
    var g, t := s.ring, WriterStep(s);
    var i := Cell(g.writingBegin, |g.buf|);
    if t.w.pc == Publish && g.remaining != s.w.rest {
      if !Condemned(s) {
        StoredKept(g.buf, t.ring.buf, s.log.recs, g.readingCursor, g.cursor, 1);
      }
      MessageSpoiled(g.buf, i, g.total - 5, s.log.acc);
    }
  }

  lemma KeptPublish(s: Sys)
    requires Inv(s) && s.w.pc == Publish && NotExactlyFull(s, W)
    ensures Inv(WriterStep(s))
  {
    hide Cell;
    hide Stored;
    var t := WriterStep(s);
    var rec := t.log.recs[|t.log.recs| - 1];
    if !Condemned(s) {
      StoredExtended(s.ring.buf, s.log.recs, rec, s.ring.readingCursor, s.ring.cursor);
    }
    TextsAppend(s.log.recs, rec);
  }

  lemma KeptByWriter(s: Sys)
    requires Inv(s) && s.w.pc != Out && SkipHasRoom(s, W) && NotExactlyFull(s, W)
    ensures Inv(WriterStep(s))
  {
    match s.w.pc
    case Reserve => KeptReserve(s);
    case PutSkip => KeptPutSkip(s);
    case PublishSkip => KeptPublishSkip(s);
    case Guard => KeptGuards(s);
    case GuardEnd => KeptGuards(s);
    case Check => KeptCheck(s);
    case PutFlag => KeptPutFlag(s);
    case PutLength => KeptPutLength(s);
    case Account => KeptAccount(s);
    case Copy => KeptCopy(s);
    case Finish => KeptFinish(s);
    case Publish => KeptPublish(s);
  }

  lemma KeptByEnter(s: Sys, a: Action)
    requires Inv(s) && a.Enter? && Permitted(s, a)
    ensures Inv(Apply(s, a))
  {
    hide Cell;
    hide Stored;
  }

  // ---------------------------------------------------------------- reader steps

  /** The reader's jump over a SKIP lands where the writer's padding put the next record. */
  lemma SkipLandsOnNextLap(pos: nat, n: nat)
    requires n > 0
    ensures var next := pos + 1;
      next + (if Cell(next, n) != 0 then n - Cell(next, n) else 0) == pos + Padding(pos, n)
  {
    hide Cell;
    if n > 1 {
      LapOffset(pos, pos + 1, n);
    }
  }

  /** `read` decodes the record at the reading cursor. */
  lemma ReadsWritten(g: Ring, c: nat, rec: Rec)
    requires g.buf != [] && Written(g.buf, rec) && rec.pos == g.readingCursor
    requires !g.resetting && g.readingBegin != Cell(c, |g.buf|)
    ensures var to := EndOf(rec, |g.buf|);
      ReadAt(g, c) == if rec.flag == Ok then Message(to, rec.body) else Jump(to)
  {
    hide Cell;
    var n := |g.buf|;
    if rec.flag == Skip {
      SkipLandsOnNextLap(rec.pos, n);
    } else {
      LapOffset(rec.pos, rec.pos + 1, n);
      LapOffset(rec.pos, rec.pos + 5, n);
    }
  }

  lemma FirstStored(buf: seq<byte>, recs: seq<Rec>, lo: nat, hi: nat)
    requires buf != [] && Stored(buf, recs, lo, hi) && lo != hi
    ensures recs != [] && recs[0].pos == lo && Written(buf, recs[0])
  {
  }

  lemma NothingStored(buf: seq<byte>, p: nat)
    requires buf != []
    ensures Stored(buf, [], p, p)
  {
  }

  /** What `read` returns is the first unread record, and nothing when there is none. */
  lemma ReadsFirstRecord(s: Sys)
    requires s.ring.buf != [] && Shape(s) && Layout(s) && s.r.Loaded?
    ensures s.r.c == s.ring.readingCursor ==> ReadAt(s.ring, s.r.c) == Nothing
    ensures s.r.c != s.ring.readingCursor ==>
      && s.log.recs != []
      && var rec, to := s.log.recs[0], EndOf(s.log.recs[0], |s.ring.buf|);
        ReadAt(s.ring, s.r.c) == if rec.flag == Ok then Message(to, rec.body) else Jump(to)
  {
    hide Cell;
    hide Stored;
    hide Written;
    var g := s.ring;
    SameCell(g.readingCursor, s.r.c, |g.buf|);
    if s.r.c != g.readingCursor {
      FirstStored(g.buf, s.log.recs, g.readingCursor, g.cursor);
      ReadsWritten(g, s.r.c, s.log.recs[0]);
    }
  }

  /** The reader only moves forward, which takes nothing from the writer. */
  lemma WriterOkAsReaderMoves(s: Sys, t: Sys)
    requires s.ring.buf != [] && WriterOk(s) && !Resetting(s)
    requires s.ring.readingCursor <= t.ring.readingCursor
    requires t.ring == s.ring.(readingCursor := t.ring.readingCursor, readingBegin := t.ring.readingBegin)
    requires t.w == s.w && t.log.acc == s.log.acc
    ensures WriterOk(t)
  {
    hide Cell;
    hide MessageAt;
    hide HeaderAt;
  }

  lemma KeptByTake(s: Sys)
    requires Inv(s) && s.r.Loaded?
    ensures Inv(Apply(s, Take))
  {
    hide Cell;
    hide Stored;
    hide ReadAt;
    hide WriterOk;
    ReadsFirstRecord(s);
    WriterOkAsReaderMoves(s, s.(r := Idle));
    if s.r.c != s.ring.readingCursor {
      StoredShrinks(s.ring.buf, s.log.recs, s.ring.readingCursor, s.ring.cursor);
      assert Layout(Apply(s, Take));
      WriterOkAsReaderMoves(s, Apply(s, Take));
    }
  }

  /** `reset` clears the ring only when no writer is inside `write`. */
  lemma KeptByReset(s: Sys)
    requires Inv(s) && Permitted(s, Reset)
    ensures Inv(Apply(s, Reset))
  {
    hide Cell;
    hide Stored;
    hide MessageAt;
    hide HeaderAt;
    if s.r == Raised {
      FirstCell(|s.ring.buf|);
      NothingStored(s.ring.buf, 0);
    }
  }

  lemma KeptByLoad(s: Sys)
    requires Inv(s) && s.r == Idle
    ensures Inv(Apply(s, Load))
  {
    hide Stored;
    hide MessageAt;
  }

  lemma WriterLeavesReader(s: Sys)
    requires s.ring.buf != []
    ensures WriterStep(s).r == s.r
  {
    hide Cell;
    hide Put;
  }

  /** Every permitted step of either thread keeps the invariant. */
  lemma InvKept(s: Sys, a: Action)
    requires Inv(s) && Permitted(s, a)
    ensures Inv(Apply(s, a))
  {
    hide Inv;
    hide WriterStep;
    match a
    case Enter(_, _) => KeptByEnter(s, a);
    case W => KeptByWriter(s);
    case Load => KeptByLoad(s);
    case Take => KeptByTake(s);
    case Reset => KeptByReset(s);
  }

  /** So it holds after every permitted run. */
  lemma {:induction false} InvAlways(s: Sys, acts: seq<Action>)
    requires Inv(s) && PermittedRun(s, acts)
    ensures Inv(Exec(s, acts))
    decreases |acts|
  {
    hide Inv;
    hide Apply;
    hide Permitted;
    if acts != [] {
      InvKept(s, acts[0]);
      InvAlways(Apply(s, acts[0]), acts[1..]);
    }
  }
}
