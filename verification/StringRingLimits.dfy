/** Runs that break a promise of the byte ring when a condition is dropped. */
module StringRingLimits {
  import opened Laps
  import opened Words
  import opened StringRing
  import opened StringRingInvariant
  import opened StringRingFifo
  import opened StringRingWait
  import opened StringRingReset
  import opened StringRingCalls

  // ---------------------------------------------------------------- flow control

  /** A message of three bytes stored at the start of a lap reads back from there. */
  lemma StoredAtStart(buf: seq<byte>, msg: seq<byte>)
    requires |buf| == 16 && |msg| == 3
    ensures var b := Put(Put(Put(buf, 0, [Code(Ok)]), 1, U32Bytes(3)), 5, msg);
      b[0] == Code(Ok) && U32Value(Get(b, 1, 4)) == 3 && Get(b, 5, 3) == msg
  {
    var f := Put(buf, 0, [Code(Ok)]);
    HeaderComplete(f, 0, 3);
    var b := Put(Put(f, 1, U32Bytes(3)), 5, msg);
    assert b[1..5] == Put(f, 1, U32Bytes(3))[1..5];
  }

  /** Writing hands nothing to the reader. */
  lemma {:induction false} NothingReadWriting(s: Sys, acts: seq<Action>)
    requires s.ring.buf != [] && forall i :: 0 <= i < |acts| ==> acts[i].Enter? || acts[i].W?
    ensures Exec(s, acts).log.got == s.log.got
    decreases |acts|
  {
    hide Cell;
    hide Put;
    if acts != [] {
      NothingReadWriting(Apply(s, acts[0]), acts[1..]);
    }
  }

  /** A whole message written by a writer nobody hinders, in numbers. */
  lemma WholeCall(s: Sys, msg: seq<byte>) returns (acts: seq<Action>, t: Sys)
    requires Ready(s, msg, 0) && s.ring.writingCursor == 0 && s.log.acc == []
    ensures Leads(s, acts, t) && Entered(acts) == [Call(msg, 0)] && Reset !in acts
    ensures
      var g, n, total := s.ring, |s.ring.buf|, |msg| + 5;
      var at := Place(g, total);
      var skipped := if at != g.reserved then Put(g.buf, Cell(g.reserved, n), [Code(Skip)]) else g.buf;
      var headed := Put(Put(skipped, Cell(at, n), [Code(Ok)]), Cell(at + 1, n), U32Bytes(|msg|));
      && t.w == NO_WRITER && t.r == s.r && !t.ring.writing && !t.ring.resetting && !t.ring.skip
      && t.ring.writingCursor == 0 && t.log.acc == []
      && t.ring.cursor == t.ring.reserved == at + total
      && t.ring.readingCursor == g.readingCursor && t.ring.readingBegin == g.readingBegin
      && t.ring.buf == Put(headed, Cell(at + 5, n), msg)
      && t.log.sent == s.log.sent + [msg] && t.log.got == s.log.got
  {
    hide Cell;
    hide Put;
    acts := CallAsRun(s, msg, 0);
    t := Exec(s, acts);
    NothingReadWriting(s, acts);
    assert [] + msg == msg;
  }

  /** A read that finds a message at the start of the first lap. */
  lemma ReadsFromStart(s: Sys, msg: seq<byte>)
    requires |s.ring.buf| == 16 && |msg| == 3 && s.r == Idle && !s.ring.resetting
    requires s.ring.readingCursor == 0 == s.ring.readingBegin && Cell(s.ring.cursor, 16) != 0
    requires s.ring.buf[0] == Code(Ok) && U32Value(Get(s.ring.buf, 1, 4)) == 3 && Get(s.ring.buf, 5, 3) == msg
    ensures Leads(s, [Load, Take], ReadOnce(s))
    ensures ReadOnce(s) == s.(ring := s.ring.(readingCursor := 8, readingBegin := 8),
                              log := s.log.(recs := Rest(s.log.recs), got := s.log.got + [msg]))
  {
    assert Cell(0, 16) == 0 && Cell(1, 16) == 1 && Cell(5, 16) == 5 && Cell(8, 16) == 8;
    ReadOnceIsRun(s);
  }

  lemma ReadsEnterNothing(acts: seq<Action>)
    ensures Entered(acts + [Load, Take]) == Entered(acts)
  {
    EnteredAppend(acts, [Load, Take]);
    assert [Load, Take][1..] == [Take];
    assert Entered([Take]) == [];
  }

  /** A ring of 16 between two calls, published up to `c` and read up to `r`. */
  predicate Between(s: Sys, c: nat, r: nat) {
    && |s.ring.buf| == 16 && s.w == NO_WRITER && s.r == Idle
    && !s.ring.writing && !s.ring.resetting && !s.ring.skip && s.ring.writingCursor == 0 && s.log.acc == []
    && s.ring.cursor == s.ring.reserved == c && s.ring.readingCursor == s.ring.readingBegin == r
  }

  /** The message of three bytes is stored at the start of the buffer. */
  predicate Holds(buf: seq<byte>, msg: seq<byte>) {
    |buf| == 16 && |msg| == 3 && buf[0] == Code(Ok) && U32Value(Get(buf, 1, 4)) == 3 && Get(buf, 5, 3) == msg
  }

  /** `WholeCall` in a ring of 16: where the cursor ends up, and what is at the start. */
  lemma Counted(s: Sys, c: nat, r: nat, msg: seq<byte>, at: nat) returns (acts: seq<Action>, t: Sys)
    requires Between(s, c, r) && msg != [] && |msg| < 11 && Unhindered(s.ring, |msg| + 5)
    requires at == if Cell(c, 16) + |msg| + 5 >= 16 then c + (16 - Cell(c, 16)) else c
    ensures Leads(s, acts, t) && Entered(acts) == [Call(msg, 0)] && Reset !in acts
    ensures Between(t, at + |msg| + 5, r)
    ensures t.log.sent == s.log.sent + [msg] && t.log.got == s.log.got
    ensures Cell(at, 16) == 0 && |msg| == 3 ==> Holds(t.ring.buf, msg)
  {
    hide Cell;
    hide Put;
    hide Get;
    hide Leads;
    hide Entered;
    hide U32Bytes;
    hide U32Value;
    hide Unhindered;
    assert Place(s.ring, |msg| + 5) == at;
    acts, t := WholeCall(s, msg);
    if Cell(at, 16) == 0 && |msg| == 3 {
      LapOffset(at, at + 1, 16);
      LapOffset(at, at + 5, 16);
      StoredAtStart(if at != c then Put(s.ring.buf, Cell(c, 16), [Code(Skip)]) else s.ring.buf, msg);
    }
  }

  /** A read that finds a message at the start of the first lap. */
  lemma CountedRead(s: Sys, c: nat, msg: seq<byte>)
    requires Between(s, c, 0) && Cell(c, 16) != 0 && Holds(s.ring.buf, msg)
    ensures var t := ReadOnce(s);
      && Leads(s, [Load, Take], t) && Between(t, c, 8)
      && t.log.sent == s.log.sent && t.log.got == s.log.got + [msg]
  {
    hide Leads;
    hide Cell;
    hide Get;
    hide U32Value;
    ReadsFromStart(s, msg);
  }

  lemma NothingToRead(s: Sys, c: nat, r: nat)
    requires Between(s, c, r) && Cell(c, 16) == r
    ensures ReadOnce(s) == s
  {
  }

  lemma FirstLaps()
    ensures Cell(0, 16) == 0 && Cell(8, 16) == 8 && Cell(15, 16) == 15 && Cell(16, 16) == 0 && Cell(24, 16) == 8
  {
  }

  /**
   * Without room for the SKIP: two messages of three bytes into a ring of 16, nothing
   * read in between. The second one lands on the first; the only message ever read is
   * the second.
   */
  lemma UnguardedSkipLosesMessage() returns (acts: seq<Action>, t: Sys)
    ensures Leads(Init(16), acts, t) && Reset !in acts
    ensures Entered(acts) == [Call([1, 1, 1], 0), Call([2, 2, 2], 0)]
    ensures t.log.sent == [[1, 1, 1], [2, 2, 2]] && t.log.got == [[2, 2, 2]]
    ensures ReadOnce(t).log.got == t.log.got
  {
    hide Leads;
    hide Entered;
    hide Holds;
    hide Cell;
    FirstLaps();
    var one, two: seq<byte> := [1, 1, 1], [2, 2, 2];
    var i := Init(16);
    var a, s := Counted(i, 0, 0, one, 0);
    var b, u := Counted(s, 8, 0, two, 16);
    CountedRead(u, 24, two);
    t := ReadOnce(u);
    hide ReadOnce;
    NothingToRead(t, 24, 8);
    LeadsOn(i, a, s, b, u);
    LeadsOn(i, a + b, u, [Load, Take], t);
    EnteredAppend(a, b);
    ReadsEnterNothing(a + b);
    acts := a + b + [Load, Take];
  }

  /**
   * Filled exactly: in a ring of 16, one message read, then messages of two and of three
   * bytes. Nothing waits, everything returns true, and the reads find the ring empty.
   */
  lemma ExactlyFullHidesMessages() returns (acts: seq<Action>, t: Sys)
    ensures Leads(Init(16), acts, t) && Reset !in acts
    ensures Entered(acts) == [Call([1, 1, 1], 0), Call([2, 2], 0), Call([3, 3, 3], 0)]
    ensures t.log.sent == [[1, 1, 1], [2, 2], [3, 3, 3]] && t.log.got == [[1, 1, 1]]
    ensures ReadOnce(t) == t
  {
    hide Leads;
    hide Entered;
    hide Holds;
    hide Cell;
    FirstLaps();
    var one, two, three: seq<byte> := [1, 1, 1], [2, 2], [3, 3, 3];
    var i := Init(16);
    var a, s := Counted(i, 0, 0, one, 0);
    CountedRead(s, 8, one);
    var s1 := ReadOnce(s);
    hide ReadOnce;
    var b, s2 := Counted(s1, 8, 8, two, 8);
    var c;
    c, t := Counted(s2, 15, 8, three, 16);
    NothingToRead(t, 24, 8);
    LeadsOn(i, a, s, [Load, Take], s1);
    LeadsOn(i, a + [Load, Take], s1, b, s2);
    LeadsOn(i, a + [Load, Take] + b, s2, c, t);
    ReadsEnterNothing(a);
    EnteredAppend(a + [Load, Take], b);
    EnteredAppend(a + [Load, Take] + b, c);
    acts := a + [Load, Take] + b + c;
  }

  // ---------------------------------------------------------------- split reset

  /** A writer on its way to the wait when `reset` bumps its count is turned away. */
  lemma WriterTurnedAway(n: nat) returns (acts: seq<Action>, t: Sys)
    requires n > 6
    ensures Leads(Init(n), acts, t) && Split(t) && |t.ring.buf| == n
    ensures t.ring.writingCursor == 0 && t.ring.cursor == 0 && t.ring.reserved == 6
  {
    var s, e := Init(n), Enter([7], 0);
    FirstCell(n);
    var s1 := Apply(s, e);
    var s2 := WriterStep(s1);
    var s3 := Apply(s2, Reset);
    var s4 := WriterStep(s3);
    t := WriterStep(s4);
    LeadsByOne(s, e);
    LeadsByOne(s1, W);
    LeadsByOne(s2, Reset);
    LeadsByOne(s3, W);
    LeadsByOne(s4, W);
    hide Leads;
    LeadsOn(s, [e], s1, [W], s2);
    LeadsOn(s, [e] + [W], s2, [Reset], s3);
    LeadsOn(s, [e] + [W] + [Reset], s3, [W], s4);
    LeadsOn(s, [e] + [W] + [Reset] + [W], s4, [W], t);
    acts := [e] + [W] + [Reset] + [W] + [W];
  }

  /**
   * In a ring of any size a writer that `reset` has just turned away, and that comes back
   * before the flag is up, never returns again, nor does the `reset`.
   */
  lemma SplitResetLivelocks(n: nat, msg: seq<byte>) returns (acts: seq<Action>, t: Sys)
    requires n > 6 && msg != [] && |msg| + 5 < n
    ensures Leads(Init(n), acts, t) && Resetting(t)
    ensures forall more :: EnabledRun(t, more) ==> Doomed(Exec(t, more)) && Exec(t, more).log.rets == t.log.rets
  {
    var a, s := WriterTurnedAway(n);
    var e := Enter(msg, 0);
    t := Apply(s, e);
    LeadsByOne(s, e);
    LeadsOn(Init(n), a, s, [e], t);
    acts := a + [e];
    forall more | EnabledRun(t, more)
      ensures Doomed(Exec(t, more)) && Exec(t, more).log.rets == t.log.rets
    {
      DoomedForever(t, more);
    }
  }
}
