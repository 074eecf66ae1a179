/**
 * `ring_string_buffer` as a state machine. One thread calls `write`, another one
 * calls `read` and `reset`; every step below is one access to what they share.
 * Index computations, branches and constants are those of the code.
 */
module StringRing {
  import opened Laps
  import opened Words

  datatype Flag = Ok | Invalid | Skip

  function Code(f: Flag): byte {
    match f
    case Ok => 0
    case Invalid => 1
    case Skip => 2
  }

  /** The fields of the class. `size_` is the length of `buf`, `mask_` is one less. */
  datatype Ring = Ring(
    buf: seq<byte>,
    writingCursor: nat,
    writingBegin: nat,
    readingCursor: nat,
    total: nat,
    remaining: int,
    resetCount: nat,
    skip: bool,
    cursor: nat,
    reserved: nat,
    readingBegin: nat,
    writing: bool,
    resetting: bool)

  /** Where the writer is inside `write`; `Out` is between two calls. */
  datatype WriterPc =
    | Out | Reserve | PutSkip | PublishSkip | Guard | GuardEnd | Check
    | PutFlag | PutLength | Account | Copy | Finish | Publish

  /** The writer's program counter, arguments, copy of `reset_count_` and copied bytes. */
  datatype Writer = Writer(pc: WriterPc, chunk: seq<byte>, rest: nat, seen: nat, copied: nat)

  /** The service thread: in `read` after loading `cursor_`, or inside `reset`. */
  datatype Reader = Idle | Loaded(c: nat) | Bumped | Raised | Cleared

  /** A published record, where it starts and what it holds. */
  datatype Rec = Rec(pos: nat, flag: Flag, body: seq<byte>)

  /** A completed call of `write`. */
  datatype Call = Call(chunk: seq<byte>, rest: nat)

  /**
   * What happened since construction or the last reset: unread records, bytes of the
   * message being written, messages published, messages read, completed writes. `rets`
   * holds every value `write` has returned.
   */
  datatype Log = Log(
    recs: seq<Rec>,
    acc: seq<byte>,
    sent: seq<seq<byte>>,
    got: seq<seq<byte>>,
    calls: seq<Call>,
    rets: seq<bool>)

  datatype Sys = Sys(ring: Ring, w: Writer, r: Reader, log: Log)

  datatype Action =
    | Enter(chunk: seq<byte>, rest: nat)
    | W
    | Load
    | Take
    | Reset

  const NO_WRITER := Writer(Out, [], 0, 0, 0)
  const NO_LOG := Log([], [], [], [], [], [])

  function FreshRing(n: nat): Ring {
    Ring(seq(n, _ => 0), 0, 0, 0, 0, 0, 0, false, 0, 0, 0, false, false)
  }

  function Init(n: nat): Sys {
    Sys(FreshRing(n), NO_WRITER, Idle, NO_LOG)
  }

  // ---------------------------------------------------------------- writer

  function Leave(s: Sys, ok: bool): (t: Sys)
    ensures |t.ring.buf| == |s.ring.buf|
  {
    s.(ring := s.ring.(writing := false), w := NO_WRITER, log := s.log.(rets := s.log.rets + [ok]))
  }

  function Completed(s: Sys): Log {
    s.log.(calls := s.log.calls + [Call(s.w.chunk, s.w.rest)])
  }

  function EnterStep(s: Sys, chunk: seq<byte>, rest: nat): (t: Sys)
    ensures |t.ring.buf| == |s.ring.buf|
  {
    if s.ring.resetting || chunk == [] then
      s.(log := s.log.(rets := s.log.rets + [false]))
    else
      s.(ring := s.ring.(writing := true),
         w := Writer(if s.ring.writingCursor == 0 then Reserve else Account,
                     chunk, rest, s.ring.resetCount, 0))
  }

  function ReserveStep(s: Sys): (t: Sys)
    requires s.ring.buf != []
    ensures |t.ring.buf| == |s.ring.buf|
  {
    var g, n := s.ring, |s.ring.buf|;
    var total := |s.w.chunk| + s.w.rest + 5;
    var g1 := g.(total := total, remaining := |s.w.chunk| + s.w.rest);
    if total >= n then
      Leave(s.(ring := g1.(writingCursor := 1, remaining := s.w.rest, skip := true)), false)
    else
      s.(ring := g1.(writingBegin := g.reserved, writingCursor := g.reserved, reserved := g.reserved + total),
         w := s.w.(pc := if Cell(g.reserved, n) + total >= n then PutSkip else Guard))
  }

  function PutSkipStep(s: Sys): (t: Sys)
    requires s.ring.buf != []
    ensures |t.ring.buf| == |s.ring.buf|
  {
    var g, n := s.ring, |s.ring.buf|;
    s.(ring := g.(reserved := g.reserved + Padding(g.writingBegin, n),
                  buf := Put(g.buf, Cell(g.writingCursor, n), [Code(Skip)])),
       w := s.w.(pc := PublishSkip))
  }

  function PublishSkipStep(s: Sys): (t: Sys)
    requires s.ring.buf != []
    ensures |t.ring.buf| == |s.ring.buf|
  {
    var g, n := s.ring, |s.ring.buf|;
    var next := g.writingBegin + Padding(g.writingBegin, n);
    s.(ring := g.(cursor := g.cursor + Padding(g.writingBegin, n), writingBegin := next, writingCursor := next),
       w := s.w.(pc := Guard),
       log := s.log.(recs := s.log.recs + [Rec(g.writingBegin, Skip, [])]))
  }

  function Begin(g: Ring): nat
    requires g.buf != []
  {
    Cell(g.writingCursor, |g.buf|)
  }

  function End(g: Ring): nat
    requires g.buf != []
  {
    Cell(g.writingCursor + g.total, |g.buf|)
  }

  /** The loop condition of the wait, were it evaluated at once. */
  predicate Blocked(g: Ring)
    requires g.buf != []
  {
    !g.resetting && Begin(g) < g.readingBegin < End(g)
  }

  function CheckStep(s: Sys): (t: Sys)
    ensures |t.ring.buf| == |s.ring.buf|
  {
    if s.w.seen != s.ring.resetCount then
      Leave(s.(ring := s.ring.(writingCursor := 0, skip := false)), false)
    else
      s.(w := s.w.(pc := PutFlag))
  }

  function CopyStep(s: Sys): (t: Sys)
    requires s.ring.buf != []
    ensures |t.ring.buf| == |s.ring.buf|
  {
    var g, n, k := s.ring, |s.ring.buf|, s.w.copied;
    if k < |s.w.chunk| then
      s.(ring := g.(buf := Put(g.buf, Cell(g.writingCursor, n) + k, [s.w.chunk[k]])), w := s.w.(copied := k + 1))
    else
      s.(ring := g.(writingCursor := g.writingCursor + |s.w.chunk|),
         w := s.w.(pc := Finish),
         log := s.log.(acc := s.log.acc + s.w.chunk))
  }

  function FinishStep(s: Sys): (t: Sys)
    requires s.ring.buf != []
    ensures |t.ring.buf| == |s.ring.buf|
  {
    var g, n := s.ring, |s.ring.buf|;
    if s.w.rest != 0 then
      Leave(s.(log := Completed(s)), true)
    else if g.skip then
      Leave(s.(ring := g.(writingCursor := 0, skip := false), log := Completed(s)), true)
    else if g.remaining != s.w.rest then
      s.(ring := g.(buf := Put(g.buf, Cell(g.writingBegin, n), [Code(Invalid)])), w := s.w.(pc := Publish))
    else
      s.(w := s.w.(pc := Publish))
  }

  function PublishStep(s: Sys): (t: Sys)
    ensures |t.ring.buf| == |s.ring.buf|
  {
    var g := s.ring;
    var whole := g.remaining == s.w.rest;
    var rec := if whole then Rec(g.writingBegin, Ok, s.log.acc)
               else Rec(g.writingBegin, Invalid, seq(if g.total < 5 then 0 else g.total - 5, _ => 0));
    Leave(
      s.(ring := g.(cursor := g.cursor + g.total, writingBegin := g.writingBegin + g.total,
                    writingCursor := 0, skip := false),
         log := Completed(s).(recs := s.log.recs + [rec], acc := [],
                              sent := if whole then s.log.sent + [s.log.acc] else s.log.sent)),
      true)
  }

  function WriterStep(s: Sys): (t: Sys)
    requires s.ring.buf != []
    ensures |t.ring.buf| == |s.ring.buf|
  {
    var g, n := s.ring, |s.ring.buf|;
    match s.w.pc
    case Out => s
    case Reserve => ReserveStep(s)
    case PutSkip => PutSkipStep(s)
    case PublishSkip => PublishSkipStep(s)
    case Guard =>
      s.(w := s.w.(pc := if !g.resetting && Begin(g) < g.readingBegin then GuardEnd else Check))
    case GuardEnd =>
      s.(w := s.w.(pc := if End(g) > g.readingBegin then Guard else Check))
    case Check => CheckStep(s)
    case PutFlag =>
      s.(ring := g.(buf := Put(g.buf, Cell(g.writingCursor, n), [Code(Ok)]), writingCursor := g.writingCursor + 1),
         w := s.w.(pc := PutLength))
    case PutLength =>
      s.(ring := g.(buf := Put(g.buf, Cell(g.writingCursor, n), U32Bytes(if g.total < 5 then 0 else g.total - 5)),
                    writingCursor := g.writingCursor + 4),
         w := s.w.(pc := Account))
    case Account =>
      s.(ring := g.(remaining := g.remaining - |s.w.chunk|),
         w := s.w.(pc := if g.remaining - |s.w.chunk| == s.w.rest && !g.skip then Copy else Finish))
    case Copy => CopyStep(s)
    case Finish => FinishStep(s)
    case Publish => PublishStep(s)
  }

  // ---------------------------------------------------------------- reader

  /** What `read` hands out and where it moves the reading cursor, given the loaded cursor. */
  datatype Reading = Nothing | Jump(to: nat) | Message(to: nat, text: seq<byte>)

  function ReadAt(g: Ring, c: nat): Reading
    requires g.buf != []
  {
    var n := |g.buf|;
    if g.resetting || g.readingBegin == Cell(c, n) then Nothing
    else
      var flag := g.buf[Cell(g.readingCursor, n)];
      var next := g.readingCursor + 1;
      if flag == Code(Skip) then
        Jump(next + if Cell(next, n) != 0 then n - Cell(next, n) else 0)
      else
        var len := U32Value(Get(g.buf, Cell(next, n), 4));
        if flag == Code(Invalid) then Jump(next + len + 4)
        else Message(next + len + 4, Get(g.buf, Cell(next + 4, n), len))
  }

  function TakeStep(s: Sys, c: nat): (t: Sys)
    requires s.ring.buf != []
    ensures |t.ring.buf| == |s.ring.buf|
  {
    var g := s.ring;
    match ReadAt(g, c)
    case Nothing => s.(r := Idle)
    case Jump(to) =>
      s.(ring := g.(readingCursor := to, readingBegin := Cell(to, |g.buf|)), r := Idle,
         log := s.log.(recs := Rest(s.log.recs)))
    case Message(to, text) =>
      s.(ring := g.(readingCursor := to, readingBegin := Cell(to, |g.buf|)), r := Idle,
         log := s.log.(recs := Rest(s.log.recs), got := s.log.got + [text]))
  }

  function Rest(recs: seq<Rec>): seq<Rec> {
    if recs == [] then [] else recs[1..]
  }

  // ---------------------------------------------------------------- reset

  function ResetStep(s: Sys): (t: Sys)
    ensures |t.ring.buf| == |s.ring.buf|
  {
    var g := s.ring;
    match s.r
    case Idle => s.(ring := g.(resetCount := g.resetCount + 1), r := Bumped)
    case Loaded(_) => s
    case Bumped => s.(ring := g.(resetting := true), r := Raised)
    case Raised =>
      s.(ring := g.(reserved := 0, cursor := 0, readingCursor := 0, writingBegin := 0,
                    writingCursor := 0, readingBegin := 0),
         r := Cleared,
         log := NO_LOG.(rets := s.log.rets))
    case Cleared => s.(ring := g.(resetting := false), r := Idle)
  }

  // ---------------------------------------------------------------- runs

  /** Which steps the threads can take; the spins of `_notify` and `reset` are waits. */
  predicate Enabled(s: Sys, a: Action) {
    match a
    case Enter(_, _) => s.w.pc == Out
    case W =>
      && s.w.pc != Out
      && (s.w.pc == PublishSkip || s.w.pc == Publish ==> s.ring.cursor == s.ring.writingBegin)
    case Load => s.r == Idle
    case Take => s.r.Loaded?
    case Reset => !s.r.Loaded? && (s.r == Raised ==> !s.ring.writing)
  }

  function Apply(s: Sys, a: Action): (t: Sys)
    requires s.ring.buf != []
    ensures |t.ring.buf| == |s.ring.buf|
  {
    match a
    case Enter(chunk, rest) => EnterStep(s, chunk, rest)
    case W => WriterStep(s)
    case Load => s.(r := Loaded(s.ring.cursor))
    case Take => if s.r.Loaded? then TakeStep(s, s.r.c) else s
    case Reset => ResetStep(s)
  }

  function Exec(s: Sys, acts: seq<Action>): (t: Sys)
    requires s.ring.buf != []
    ensures |t.ring.buf| == |s.ring.buf|
    decreases |acts|
  {
    if acts == [] then s else Exec(Apply(s, acts[0]), acts[1..])
  }

  /** What the code asserts of the callers: messages fit, chunk counts match. */
  predicate Contract(s: Sys, a: Action) {
    a.Enter? && a.chunk != [] && !s.ring.resetting ==>
      if s.ring.writingCursor == 0 then |a.chunk| + a.rest + 5 < |s.ring.buf|
      else a.rest > 0 ==> s.ring.remaining == |a.chunk| + a.rest
  }

  /** A new message of `total` bytes needs a SKIP first. */
  predicate NeedsSkip(g: Ring, total: nat)
    requires g.buf != []
  {
    Cell(g.reserved, |g.buf|) + total >= |g.buf|
  }

  /** The call publishes nothing, or finds the cursor in place when it does. */
  predicate InPlace(g: Ring, chunk: seq<byte>, rest: nat)
    requires g.buf != []
  {
    if g.writingCursor == 0 then g.reserved == g.cursor || (rest > 0 && !NeedsSkip(g, |chunk| + rest + 5))
    else g.writingBegin == g.cursor || rest > 0
  }

  /** The place of the message, begun or to begin, is not at the published cursor. */
  predicate Beside(s: Sys) {
    if s.w.pc == Reserve || (s.w.pc == Out && s.ring.writingCursor == 0) then s.ring.reserved != s.ring.cursor
    else s.ring.writingBegin != s.ring.cursor
  }

  /**
   * The flag of `reset` is up, or is about to be and a place has been left unused. Nothing
   * is read, or published, any more until the ring has been cleared.
   */
  predicate Condemned(s: Sys) {
    s.r == Raised || (s.r == Bumped && Beside(s))
  }

  /** Flow control, first half: a SKIP is published only while it leaves the lap unfilled. */
  predicate SkipHasRoom(s: Sys, a: Action)
    requires s.ring.buf != []
  {
    a == W && s.w.pc == PublishSkip && !Condemned(s) ==>
      s.ring.cursor + Padding(s.ring.writingBegin, |s.ring.buf|) - s.ring.readingCursor < |s.ring.buf|
  }

  /** Flow control, second half: a message is not published into an exactly full ring. */
  predicate NotExactlyFull(s: Sys, a: Action) {
    a == W && s.w.pc == Publish && !Condemned(s) ==>
      s.ring.cursor + s.ring.total - s.ring.readingCursor != |s.ring.buf|
  }

  /**
   * Between the first two statements of `reset` no call is entered that would wait for the
   * cursor: one has been turned away before, leaving the place it had reserved unused.
   */
  predicate ResetNotSplit(s: Sys, a: Action)
    requires s.ring.buf != []
  {
    a.Enter? && a.chunk != [] && s.r == Bumped ==> InPlace(s.ring, a.chunk, a.rest)
  }

  predicate Permitted(s: Sys, a: Action)
    requires s.ring.buf != []
  {
    Enabled(s, a) && Contract(s, a) && SkipHasRoom(s, a) && NotExactlyFull(s, a) && ResetNotSplit(s, a)
  }

  predicate PermittedRun(s: Sys, acts: seq<Action>)
    requires s.ring.buf != []
    decreases |acts|
  {
    acts == [] ||
    (Permitted(s, acts[0]) && PermittedRun(Apply(s, acts[0]), acts[1..]))
  }

  // ---------------------------------------------------------------- reference

  /**
   * Reading a list of write calls as messages, with no buffer at all: chunks pile up
   * until one says nothing remains, and the pile is a message if it has the announced
   * length.
   */
  datatype Pile = Pile(messages: seq<seq<byte>>, acc: seq<byte>, announced: int)

  function Assemble(calls: seq<Call>): Pile
    decreases |calls|
  {
    if calls == [] then Pile([], [], 0)
    else
      var p, c := Assemble(calls[..|calls| - 1]), calls[|calls| - 1];
      var announced := if p.acc == [] then |c.chunk| + c.rest else p.announced;
      var acc := p.acc + c.chunk;
      if c.rest > 0 then Pile(p.messages, acc, announced)
      else if |acc| == announced then Pile(p.messages + [acc], [], 0)
      else Pile(p.messages, [], 0)
  }
}
