/**
 * `ring_string_buffer` itself, over a byte array. Every method is shown to be a run of the
 * state machine of `StringRing`, so all that is proved of its runs holds of the buffer.
 * While `Write` waits, the consumer thread runs: each turn of the wait is one `Read`, or the
 * beginning of a `reset`.
 */
module RingStringBuffers {
  import opened Wrappers
  import opened Laps
  import opened Words
  import opened StringRing
  import opened StringRingInvariant
  import opened StringRingFifo
  import opened StringRingWait
  import opened StringRingCalls

  class RingStringBuffer {
    const buffer: array<byte>
    const size: nat
    const mask: nat

    var writingCursor: nat
    var writingBegin: nat
    var readingCursor: nat
    var total: nat
    var remaining: int
    var resetCount: nat
    var skip: bool
    var cursor: nat
    var reserved: nat
    var readingBegin: nat
    var writing: bool
    var resetting: bool

    ghost var log: Log

    ghost function View(): Ring
      reads this, buffer
    {
      Ring(buffer[..], writingCursor, writingBegin, readingCursor, total, remaining, resetCount, skip,
           cursor, reserved, readingBegin, writing, resetting)
    }

    /** The buffer with its writer at `w`, no read under way, and no reset unless its flag is up. */
    ghost function State(w: Writer): Sys
      reads this, buffer
    {
      Sys(View(), w, if resetting then Raised else Idle, log)
    }

    ghost predicate Good(w: Writer)
      reads this, buffer
    {
      && SizeAsserted(size) && buffer.Length == size <= U32_LIMIT && mask == size - 1
      && !resetting && Inv(State(w))
    }

    /** Between two calls of `Write`. */
    ghost predicate Valid()
      reads this, buffer
    {
      Good(NO_WRITER)
    }

    /** Nobody is inside `write` or `reset`; the ring may be exactly full. */
    ghost predicate Quiet()
      reads this, buffer
    {
      Sized() && size <= U32_LIMIT && !writing && !resetting && !skip
    }

    /** The flag of `reset` is up, and nobody is inside `write`: the ring is about to be cleared. */
    ghost predicate AwaitsClearing()
      reads this, buffer
    {
      Sized() && size <= U32_LIMIT && !writing && resetting && !skip
    }

    constructor (size: nat)
      requires SizeAsserted(size) && size <= U32_LIMIT
      ensures Valid() && fresh(buffer)
      ensures this.size == size && log == NO_LOG && View() == FreshRing(size).(buf := buffer[..])
    {
      buffer := new byte[size];
      this.size := size;
      mask := size - 1;
      writingCursor, writingBegin, readingCursor := 0, 0, 0;
      total, remaining, resetCount, skip := 0, 0, 0, false;
      cursor, reserved, readingBegin := 0, 0, 0;
      writing, resetting := false, false;
      log := NO_LOG;
      new;
      NothingStored(buffer[..], 0);
      FirstCell(size);
    }

    // -------------------------------------------------------------- reading

    ghost predicate Sized()
      reads this, buffer
    {
      SizeAsserted(size) && buffer.Length == size && mask == size - 1
    }

    /** The record at the reading cursor, decoded in place. */
    method Decode(c: nat) returns (reading: Reading)
      requires Sized() && AccessesInside(Sys(View(), NO_WRITER, Loaded(c), log))
      ensures reading == ReadAt(View(), c)
    {
      hide Cell;
      hide And;
      hide SizeAsserted;
      hide U32Value;
      hide Get;
      MaskIndex(c, size);
      if resetting || readingBegin == And(c, mask) {
        return Nothing;
      }
      MaskIndex(readingCursor, size);
      var flag := buffer[And(readingCursor, mask)];
      var next := readingCursor + 1;
      MaskIndex(next, size);
      var index := And(next, mask);
      if flag == Code(Skip) {
        return Jump(next + if index != 0 then size - index else 0);
      }
      SliceIsGet(buffer, index, 4);
      var len := U32Value(buffer[index..index + 4]);
      if flag == Code(Invalid) {
        return Jump(next + len + 4);
      }
      MaskIndex(next + 4, size);
      var begin := And(next + 4, mask);
      SliceIsGet(buffer, begin, len);
      return Message(next + len + 4, buffer[begin..begin + len]);
    }

    /**
     * `read`, with the writer anywhere in its call: the first unread record is consumed,
     * and its text handed out if it is a message.
     */
    method Read(ghost w: Writer) returns (msg: Option<seq<byte>>)
      requires Good(w)
      modifies this`readingCursor, this`readingBegin, this`log
      ensures Good(w) && State(w) == ReadOnce(old(State(w)))
      ensures old(log.recs) == [] ==> msg == None && readingCursor == old(readingCursor)
      ensures old(log.recs) != [] ==>
        && msg == (if old(log.recs)[0].flag == Ok then Some(old(log.recs)[0].body) else None)
        && log.recs == old(log.recs)[1..] && old(readingCursor) < readingCursor <= cursor
      ensures log.got == old(log.got) + (if msg.Some? then [msg.value] else [])
      ensures log.acc == old(log.acc) && log.sent == old(log.sent)
    {
      hide Cell;
      hide And;
      hide Inv;
      hide ReadAt;
      hide EndOf;
      ghost var s := State(w);
      ReadFacts(s);
      var c := cursor;
      var reading := Decode(c);
      match reading {
        case Nothing =>
          msg := None;
        case Jump(to) =>
          msg := None;
          MaskIndex(to, size);
          readingCursor, readingBegin := to, And(to, mask);
        case Message(to, text) =>
          msg := Some(text);
          MaskIndex(to, size);
          readingCursor, readingBegin := to, And(to, mask);
      }
      log := ReadOnce(s).log;
    }

    // -------------------------------------------------------------- writing

    /** `memcpy` into the buffer. */
    method Store(at: nat, bs: seq<byte>)
      requires at + |bs| <= buffer.Length
      modifies buffer
      ensures buffer[..] == Put(old(buffer[..]), at, bs)
    {
      for k := 0 to |bs|
        invariant forall i :: 0 <= i < k ==> buffer[at + i] == bs[i]
        invariant forall i :: 0 <= i < buffer.Length && !(at <= i < at + k) ==> buffer[i] == old(buffer[i])
      {
        buffer[at + k] := bs[k];
      }
    }

    /**
     * What the service thread does while `write` waits: it reads a record, or, if it is to
     * `interrupt` the write, begins a `reset`.
     */
    method ServiceTurn(interrupt: bool, ghost w: Writer) returns (delivered: seq<seq<byte>>, ghost acts: seq<Action>)
      requires Good(w) && w.pc == Guard && Blocked(View())
      modifies this`readingCursor, this`readingBegin, this`resetCount, this`resetting, this`log
      ensures Leads(old(State(w)), acts, State(w)) && resetting == interrupt
      ensures !interrupt ==> Good(w) && WritingAndReading(acts) && old(readingCursor) < readingCursor <= cursor
      ensures interrupt ==> NoEnters(acts) && delivered == [] && readingCursor == old(readingCursor)
      ensures resetCount == old(resetCount) + if interrupt then 1 else 0
      ensures log.got == old(log.got) + delivered
      ensures log.acc == old(log.acc) && log.sent == old(log.sent) && log.rets == old(log.rets)
    {
      hide Cell;
      hide Inv;
      hide Leads;
      delivered := [];
      if interrupt {
        StartReset(w);
        acts := [StringRing.Reset] + [StringRing.Reset];
      } else {
        acts := WaitTurn(State(w));
        var msg := Read(w);
        delivered := if msg.Some? then [msg.value] else [];
      }
    }

    /**
     * The wait of `write`: as long as the place of the message contains the reader, let
     * the service thread run; when it has read `resetAfter` records, it begins a `reset`.
     * Either way the wait ends.
     */
    method Wait(resetAfter: Option<nat>, ghost w: Writer) returns (delivered: seq<seq<byte>>, ghost acts: seq<Action>)
      requires Good(w) && w.pc == Guard
      modifies this`readingCursor, this`readingBegin, this`resetCount, this`resetting, this`log
      ensures Leads(old(State(w)), acts, State(w.(pc := Check)))
      ensures !resetting ==> Good(w.(pc := Check)) && WritingAndReading(acts)
      ensures resetting ==> resetAfter.Some? && NoEnters(acts)
      ensures resetCount == old(resetCount) + if resetting then 1 else 0
      ensures old(readingCursor) <= readingCursor <= cursor && log.got == old(log.got) + delivered
      ensures log.acc == old(log.acc) && log.sent == old(log.sent) && log.rets == old(log.rets)
    {
      hide Cell;
      hide And;
      hide Inv;
      hide Leads;
      hide WriterStep;
      delivered := [];
      acts := [];
      ghost var s := State(w);
      LeadsNowhere(s);
      ReaderBehind(s);
      MaskIndex(writingCursor, size);
      MaskIndex(writingCursor + total, size);
      var begin, end := And(writingCursor, mask), And(writingCursor + total, mask);
      var turns: nat := 0;
      while !resetting && begin < readingBegin && end > readingBegin
        invariant Leads(s, acts, State(w)) && (!resetting ==> Good(w) && WritingAndReading(acts))
        invariant resetting ==> resetAfter.Some? && NoEnters(acts)
        invariant resetCount == old(resetCount) + if resetting then 1 else 0
        invariant old(readingCursor) <= readingCursor <= cursor && log.got == old(log.got) + delivered
        invariant log.acc == old(log.acc) && log.sent == old(log.sent) && log.rets == old(log.rets)
        decreases cursor - readingCursor, !resetting
      {
        ghost var before := State(w);
        var read;
        ghost var turn;
        read, turn := ServiceTurn(resetAfter == Some(turns), w);
        LeadsOn(s, acts, before, turn, State(w));
        delivered, acts, turns := delivered + read, acts + turn, turns + 1;
      }
      ghost var last;
      if resetting {
        last := [W];
        FlagEndsWait(State(w));
      } else {
        last := WaitEnd(State(w));
      }
      LeadsOn(s, acts, State(w), last, State(w.(pc := Check)));
      acts := acts + last;
    }

    /** `_notify`; only one thread writes, so its spin finds the cursor in place. */
    method Notify(num: nat)
      requires cursor == writingBegin
      modifies this`cursor, this`writingBegin
      ensures cursor == old(cursor) + num && writingBegin == old(writingBegin) + num
    {
      cursor := cursor + num;
      writingBegin := writingBegin + num;
    }

    /** Give up the rest of the lap: store a SKIP flag and publish the padding. */
    method PublishSkipRecord(padding: nat)
      requires Sized() && cursor == writingBegin
      modifies this, buffer
      ensures View() == old(View()).(
        buf := Put(old(buffer[..]), Cell(old(writingCursor), size), [Code(Skip)]),
        reserved := old(reserved) + padding, cursor := old(cursor) + padding,
        writingBegin := old(writingBegin) + padding, writingCursor := old(writingBegin) + padding)
      ensures log == old(log)
    {
      hide Cell;
      hide And;
      hide Put;
      MaskIndex(writingCursor, size);
      reserved := reserved + padding;
      Store(And(writingCursor, mask), [Code(Skip)]);
      Notify(padding);
      writingCursor := writingBegin;
    }

    /** Reserve the place of a new message, publishing a SKIP if the lap is too short for it. */
    method PlaceMessage(len: nat, rest: nat, ghost w: Writer) returns (ghost acts: seq<Action>)
      requires Good(w) && w.pc == Reserve && len == |w.chunk| && rest == w.rest && RoomForSkip(State(w))
      modifies this, buffer
      ensures Good(w.(pc := Guard)) && Leads(old(State(w)), acts, State(w.(pc := Guard)))
      ensures WritingAndReading(acts)
      ensures log == LogAfterPlacing(old(State(w))) && remaining == len + rest && resetCount == old(resetCount) && !skip
    {
      hide Cell;
      hide And;
      hide Inv;
      hide Put;
      hide Leads;
      hide SizeAsserted;
      hide RoomForSkip;
      hide LogAfterPlacing;
      ghost var s := State(w);
      ghost var t;
      acts, t := PlaceRuns(s);
      total, remaining := len + rest + 5, len + rest;
      writingBegin, writingCursor, reserved := reserved, reserved, reserved + total;
      MaskIndex(writingBegin, size);
      var index := And(writingBegin, mask);
      if index + total >= size {
        PublishSkipRecord(size - index);
      }
      log := t.log;
    }

    /** Flag and length of the message. */
    method WriteHeader(ghost w: Writer) returns (ghost acts: seq<Action>)
      requires Good(w) && w.pc == Check
      modifies this`writingCursor, buffer
      ensures Good(w.(pc := Account)) && Leads(old(State(w)), acts, State(w.(pc := Account)))
      ensures WritingAndReading(acts)
    {
      hide Cell;
      hide And;
      hide Inv;
      hide Put;
      hide U32Bytes;
      hide Leads;
      ghost var t;
      acts, t := HeadRunsOn(State(w));
      MaskIndex(writingCursor, size);
      Store(And(writingCursor, mask), [Code(Ok)]);
      writingCursor := writingCursor + 1;
      MaskIndex(writingCursor, size);
      Store(And(writingCursor, mask), U32Bytes(total - 5));
      writingCursor := writingCursor + 4;
    }

    /** Reserve the place of a new message, and wait for the reader to be out of it. */
    method AwaitPlace(len: nat, rest: nat, resetAfter: Option<nat>, ghost w: Writer)
      returns (delivered: seq<seq<byte>>, ghost acts: seq<Action>)
      requires Good(w) && w.pc == Reserve && len == |w.chunk| && rest == w.rest && RoomForSkip(State(w))
      modifies this, buffer
      ensures Leads(old(State(w)), acts, State(w.(pc := Check)))
      ensures !resetting ==> Good(w.(pc := Check)) && WritingAndReading(acts)
      ensures resetting ==> resetAfter.Some? && NoEnters(acts)
      ensures resetCount == old(resetCount) + (if resetting then 1 else 0) && remaining == len + rest && !skip
      ensures log.got == old(log.got) + delivered && log.acc == old(log.acc) && log.sent == old(log.sent)
      ensures log.rets == old(log.rets)
    {
      hide Good;
      hide Leads;
      hide RoomForSkip;
      ghost var s := State(w);
      acts := PlaceMessage(len, rest, w);
      ghost var s1 := State(w.(pc := Guard));
      ghost var more;
      delivered, more := Wait(resetAfter, w.(pc := Guard));
      LeadsOn(s, acts, s1, more, State(w.(pc := Check)));
      acts := acts + more;
    }

    /** The way out of `write` for a message whose ring is being reset. */
    method BailOut(ghost w: Writer) returns (ghost acts: seq<Action>)
      requires Sized() && size <= U32_LIMIT && resetting && w.pc == Check && w.seen != resetCount
      modifies this`writingCursor, this`skip, this`writing, this`log
      ensures acts == [W] && Leads(old(State(w)), acts, State(NO_WRITER))
      ensures AwaitsClearing() && writingCursor == 0
      ensures log == old(log).(rets := old(log.rets) + [false])
    {
      LeadsByOne(State(w), W);
      hide Leads;
      acts := [W];
      writingCursor, skip, writing := 0, false, false;
      log := log.(rets := log.rets + [false]);
    }

    /**
     * Everything `write` does before the first byte of a new message. If a reset has begun
     * during the wait, it bails out, and nothing of the message is left but the place it
     * had reserved.
     */
    method BeginMessage(len: nat, rest: nat, seen: nat, resetAfter: Option<nat>, ghost w: Writer)
      returns (ok: bool, delivered: seq<seq<byte>>, ghost acts: seq<Action>)
      requires Good(w) && w.pc == Reserve && len == |w.chunk| && rest == w.rest && RoomForSkip(State(w))
      requires seen == w.seen == resetCount
      modifies this, buffer
      ensures Leads(old(State(w)), acts, State(if ok then w.(pc := Account) else NO_WRITER))
      ensures ok ==> Good(w.(pc := Account)) && remaining == len + rest && WritingAndReading(acts)
      ensures !ok ==> resetAfter.Some? && AwaitsClearing() && writingCursor == 0 && NoEnters(acts)
      ensures resetCount == old(resetCount) + if ok then 0 else 1
      ensures log.got == old(log.got) + delivered && log.acc == old(log.acc) && log.sent == old(log.sent)
      ensures log.rets == old(log.rets) + if ok then [] else [false]
    {
      assert Sized() && size <= U32_LIMIT;
      hide Good;
      hide Leads;
      hide RoomForSkip;
      ghost var s := State(w);
      delivered, acts := AwaitPlace(len, rest, resetAfter, w);
      ghost var s1 := State(w.(pc := Check));
      ghost var more;
      ok := seen == resetCount;
      if ok {
        more := WriteHeader(w.(pc := Check));
      } else {
        more := BailOut(w.(pc := Check));
      }
      LeadsOn(s, acts, s1, more, State(if ok then w.(pc := Account) else NO_WRITER));
      acts := acts + more;
    }

    /** Count the chunk in and copy it, unless the counts do not match. */
    method CopyChunk(msg: seq<byte>, rest: nat, ghost w: Writer) returns (ghost acts: seq<Action>, ghost w': Writer)
      requires Good(w) && w.pc == Account && msg == w.chunk && rest == w.rest
      modifies this`remaining, this`writingCursor, this`log, buffer
      ensures w'.pc == Finish && w'.chunk == w.chunk && w'.rest == w.rest
      ensures Good(w') && Leads(old(State(w)), acts, State(w'))
      ensures WritingAndReading(acts)
      ensures var whole := old(remaining) == |msg| + rest;
        && log == (if whole then old(log).(acc := old(log.acc) + msg) else old(log))
        && (remaining == rest <==> whole) && log.rets == old(log.rets)
    {
      hide Cell;
      hide And;
      hide Inv;
      hide Put;
      hide Leads;
      ghost var s := State(w);
      ghost var t;
      acts, t := AccountRuns(s);
      w' := w.(pc := Finish, copied := if remaining - |msg| == rest then |msg| else 0);
      remaining := remaining - |msg|;
      if remaining == rest && !skip {
        MaskIndex(writingCursor, size);
        Store(And(writingCursor, mask), msg);
        writingCursor := writingCursor + |msg|;
        log := log.(acc := log.acc + msg);
      }
    }

    /** Publish after the last chunk, and leave. */
    method Complete(rest: nat, ghost w: Writer) returns (ghost acts: seq<Action>)
      requires Good(w) && w.pc == Finish && rest == w.rest
      modifies this, buffer
      ensures Leads(old(State(w)), acts, State(NO_WRITER)) && WritingAndReading(acts)
      ensures rest > 0 || cursor != readingCursor + size ==> Valid()
      ensures readingCursor == old(readingCursor)
      ensures rest > 0 ==> cursor == old(cursor) && remaining == old(remaining)
      ensures log.acc == (if rest == 0 then [] else old(log.acc)) && (rest == 0 ==> writingCursor == 0)
      ensures Quiet() && resetCount == old(resetCount)
      ensures log.rets == old(log.rets) + [true] && log.got == old(log.got)
      ensures log.sent == old(log.sent) + if rest == 0 && old(remaining) == 0 then [old(log.acc)] else []
    {
      hide Cell;
      hide And;
      hide Inv;
      hide Put;
      hide Leads;
      ghost var s := State(w);
      ghost var t;
      acts, t := FinishRuns(s);
      if rest == 0 {
        if !skip {
          if remaining != rest {
            MaskIndex(writingBegin, size);
            Store(And(writingBegin, mask), [Code(Invalid)]);
          }
          Notify(total);
        }
        writingCursor, skip := 0, false;
      }
      writing := false;
      log := t.log;
    }

    /** Everything `write` does once the header is there. */
    method AddChunk(msg: seq<byte>, rest: nat, ghost w: Writer) returns (ghost acts: seq<Action>)
      requires Good(w) && w.pc == Account && msg == w.chunk && rest == w.rest
      modifies this, buffer
      ensures Leads(old(State(w)), acts, State(NO_WRITER)) && WritingAndReading(acts)
      ensures log.got == old(log.got)
      ensures log.sent == old(log.sent) +
        if rest == 0 && old(remaining) == |msg| then [old(log.acc) + msg] else []
      ensures rest > 0 || cursor != readingCursor + size ==> Valid()
      ensures rest == 0 ==> log.acc == [] && writingCursor == 0
      ensures rest > 0 ==> log.acc == old(log.acc) + msg && remaining == rest
      ensures Quiet() && resetCount == old(resetCount) && log.rets == old(log.rets) + [true]
    {
      hide Inv;
      ghost var s := State(w);
      PartsMatch(s);
      hide Good;
      hide Leads;
      ghost var w';
      acts, w' := CopyChunk(msg, rest, w);
      ghost var t := State(w');
      ghost var more := Complete(rest, w');
      LeadsOn(s, acts, t, more, State(NO_WRITER));
      acts := acts + more;
    }

    /** The first chunk of a message: its place, its header and its bytes. */
    method WriteFirst(msg: seq<byte>, rest: nat, seen: nat, resetAfter: Option<nat>, ghost w: Writer)
      returns (ok: bool, delivered: seq<seq<byte>>, ghost acts: seq<Action>)
      requires Good(w) && w.pc == Reserve && msg == w.chunk && rest == w.rest && RoomForSkip(State(w))
      requires seen == w.seen == resetCount
      modifies this, buffer
      ensures Leads(old(State(w)), acts, State(NO_WRITER)) && NoEnters(acts)
      ensures ok ==> WritingAndReading(acts) && Quiet() && resetCount == old(resetCount)
      ensures !ok ==> resetAfter.Some? && AwaitsClearing() && writingCursor == 0 && resetCount == old(resetCount) + 1
      ensures log.got == old(log.got) + delivered && log.rets == old(log.rets) + [ok]
      ensures log.sent == old(log.sent) + if ok && rest == 0 then [old(log.acc) + msg] else []
      ensures ok && (rest > 0 || cursor != readingCursor + size) ==> Valid()
      ensures ok && rest == 0 ==> log.acc == [] && writingCursor == 0
      ensures ok && rest > 0 ==> log.acc == old(log.acc) + msg && remaining == rest
      ensures !ok ==> log.acc == old(log.acc)
    {
      hide Good;
      hide Leads;
      hide RoomForSkip;
      ghost var s := State(w);
      ok, delivered, acts := BeginMessage(|msg|, rest, seen, resetAfter, w);
      if ok {
        ghost var from := State(w.(pc := Account));
        ghost var more := AddChunk(msg, rest, w.(pc := Account));
        LeadsOn(s, acts, from, more, State(NO_WRITER));
        acts := acts + more;
      }
    }

    /**
     * `write`. It returns false exactly for an empty chunk, while the flag of `reset` is up,
     * and if a reset begins while it waits; then nothing of the chunk is published, and the
     * ring awaits its clearing. Otherwise the consumer reads what the wait needs
     * (`delivered`), the call is a run of the state machine, and the message is sent with
     * the last of its chunks. The buffer stays valid unless the call has filled it exactly.
     */
    method Write(msg: seq<byte>, rest: nat := 0, resetAfter: Option<nat> := None)
      returns (ok: bool, delivered: seq<seq<byte>>, ghost acts: seq<Action>)
      requires Sized()
      requires msg != [] && !resetting ==> Valid() && Contract(State(NO_WRITER), Enter(msg, rest))
      requires msg != [] && !resetting && writingCursor == 0 && Cell(reserved, size) + |msg| + rest + 5 >= size ==>
        cursor + Padding(cursor, size) - readingCursor < size
      modifies this, buffer
      ensures ok <==> msg != [] && !resetting
      ensures resetting != old(resetting) ==> resetting && resetAfter.Some? && AwaitsClearing() && writingCursor == 0
      ensures resetCount == old(resetCount) + if resetting != old(resetting) then 1 else 0
      ensures Leads(old(State(NO_WRITER)), acts, State(NO_WRITER))
      ensures acts != [] && acts[0] == Enter(msg, rest) && NoEnters(acts[1..])
      ensures !resetting ==> WritingAndReading(acts[1..])
      ensures log.got == old(log.got) + delivered && log.rets == old(log.rets) + [ok]
      ensures log.sent == old(log.sent) +
        if ok && rest == 0 && (old(writingCursor) == 0 || old(remaining) == |msg|) then [old(log.acc) + msg] else []
      ensures ok && (rest > 0 || cursor != readingCursor + size) ==> Valid()
      ensures ok && rest == 0 ==> log.acc == [] && writingCursor == 0
      ensures ok && rest > 0 ==> log.acc == old(log.acc) + msg && remaining == rest
      ensures !ok ==> log.acc == old(log.acc)
      ensures msg == [] || old(resetting) ==> View() == old(View()) && log == old(log).(rets := log.rets)
      ensures !ok && old(Valid()) && !resetting ==> Valid()
      ensures ok ==> Quiet()
    {
      hide Cell;
      hide And;
      hide Inv;
      hide Leads;
      hide Contract;
      hide SizeAsserted;
      ghost var s := State(NO_WRITER);
      var e := Enter(msg, rest);
      Enters(s, msg, rest);
      hide EnterStep;
      acts := [e];
      delivered := [];
      if resetting || |msg| == 0 {
        log := log.(rets := log.rets + [false]);
        return false, delivered, acts;
      }
      writing := true;
      var seen := resetCount;
      ghost var w := Apply(s, e).w;
      ghost var from := State(w);
      ghost var more: seq<Action>;
      hide Good;
      if writingCursor == 0 {
        ok, delivered, more := WriteFirst(msg, rest, seen, resetAfter, w);
      } else {
        more := AddChunk(msg, rest, w);
        ok := true;
      }
      LeadsOn(s, acts, from, more, State(NO_WRITER));
      acts := acts + more;
    }

    // -------------------------------------------------------------- resetting

    /** The head of `reset`: the count, then the flag. The writer may be anywhere. */
    method StartReset(ghost w: Writer)
      requires buffer.Length > 0 && !resetting
      modifies this`resetCount, this`resetting
      ensures resetting && resetCount == old(resetCount) + 1
      ensures Leads(old(State(w)), [StringRing.Reset] + [StringRing.Reset], State(w))
    {
      HeadOfResetRuns(State(w));
      resetCount := resetCount + 1;
      resetting := true;
    }

    /** The rest of it, once the writer is out: the ring is as good as new. */
    method FinishReset()
      requires AwaitsClearing()
      modifies this
      ensures Valid() && Quiet()
      ensures Leads(old(State(NO_WRITER)), [StringRing.Reset] + [StringRing.Reset], State(NO_WRITER))
      ensures log == NO_LOG.(rets := old(log.rets))
      ensures cursor == reserved == readingCursor == writingCursor == 0 && resetCount == old(resetCount)
    {
      hide Cell;
      hide And;
      hide Inv;
      hide Leads;
      RestOfResetRuns(State(NO_WRITER));
      reserved, cursor := 0, 0;
      readingCursor, writingBegin, writingCursor := cursor, 0, 0;
      FirstCell(size);
      MaskIndex(readingCursor, size);
      readingBegin := And(readingCursor, mask);
      resetting := false;
      log := NO_LOG.(rets := log.rets);
    }

    /**
     * `reset`, called between two writes: `writing_` is down, so it does not spin. The
     * buffer is as good as new, whatever was unread or half written.
     */
    method Reset()
      requires Quiet()
      modifies this
      ensures Valid() && Quiet()
      ensures Leads(old(State(NO_WRITER)),
        [StringRing.Reset] + [StringRing.Reset] + ([StringRing.Reset] + [StringRing.Reset]), State(NO_WRITER))
      ensures log == NO_LOG.(rets := old(log.rets))
      ensures cursor == reserved == readingCursor == writingCursor == 0 && resetCount == old(resetCount) + 1
    {
      hide Leads;
      hide Good;
      ghost var s := State(NO_WRITER);
      StartReset(NO_WRITER);
      ghost var s1 := State(NO_WRITER);
      FinishReset();
      ghost var half := [StringRing.Reset] + [StringRing.Reset];
      LeadsOn(s, half, s1, half, State(NO_WRITER));
    }
  }

  /** The steps of a call once it has been entered. */
  predicate NoEnters(acts: seq<Action>) {
    forall i :: 0 <= i < |acts| ==> !acts[i].Enter?
  }

  lemma FlagEndsWait(s: Sys)
    requires s.ring.buf != [] && s.ring.resetting && s.w.pc == Guard
    ensures Leads(s, [W], s.(w := s.w.(pc := Check)))
  {
    LeadsByOne(s, W);
  }

  lemma SliceIsGet(buffer: array<byte>, at: nat, n: nat)
    requires at + n <= buffer.Length
    ensures buffer[at..at + n] == Get(buffer[..], at, n)
  {
  }

  lemma ValidIsQuiet(b: RingStringBuffer)
    requires b.Valid()
    ensures b.Quiet()
  {
    hide Layout;
    hide WriterOk;
    hide SizeAsserted;
  }

  lemma LeadsNowhere(s: Sys)
    requires s.ring.buf != []
    ensures Leads(s, [], s)
  {
  }

  lemma ReaderBehind(s: Sys)
    requires Inv(s) && s.r == Idle
    ensures s.ring.readingCursor <= s.ring.cursor
  {
  }

  /** One turn of the wait: both halves of the condition, then a read. */
  lemma WaitTurn(s: Sys) returns (acts: seq<Action>)
    requires Inv(s) && s.w.pc == Guard && s.r == Idle && Blocked(s.ring)
    ensures Leads(s, acts, ReadOnce(s)) && WritingAndReading(acts)
    ensures s.log.recs != []
  {
    hide Cell;
    hide Stored;
    hide WriterOk;
    var s1 := WriterStep(s);
    LeadsByOne(s, W);
    LeadsByOne(s1, W);
    assert WriterStep(s1) == s;
    ReadOnceIsRun(s);
    BlockedMeansUnread(s);
    NothingBetween(s.ring.buf, s.log.recs, s.ring.readingCursor, s.ring.cursor);
    assert Leads(s, [Load, Take], ReadOnce(s));
    hide Leads;
    LeadsOn(s, [W], s1, [W], s);
    LeadsOn(s, [W] + [W], s, [Load, Take], ReadOnce(s));
    acts := [W] + [W] + [Load, Take];
  }

  /** The evaluation of the condition that ends the wait. */
  lemma WaitEnd(s: Sys) returns (acts: seq<Action>)
    requires Inv(s) && s.w.pc == Guard && s.r == Idle && !Blocked(s.ring)
    ensures Leads(s, acts, s.(w := s.w.(pc := Check))) && Inv(s.(w := s.w.(pc := Check)))
    ensures WritingAndReading(acts)
  {
    hide Cell;
    hide Inv;
    hide Leads;
    GuardStep(s);
    var s1 := WriterStep(s);
    KeptGuards(s);
    LeadsByOne(s, W);
    if s1.w.pc == Check {
      acts := [W];
    } else {
      KeptGuards(s1);
      LeadsByOne(s1, W);
      LeadsOn(s, [W], s1, [W], WriterStep(s1));
      acts := [W] + [W];
    }
  }

  lemma GuardStep(s: Sys)
    requires Inv(s) && s.w.pc == Guard
    ensures s.ring.buf != []
    ensures var t := WriterStep(s);
      t == s.(w := s.w.(pc := if !s.ring.resetting && Begin(s.ring) < s.ring.readingBegin then GuardEnd else Check))
  {
  }

  // ---------------------------------------------------------------- parts of a call

  /** Reservation and, if the lap is too short, the SKIP: what the fields become. */
  lemma PlaceRuns(s: Sys) returns (acts: seq<Action>, t: Sys)
    requires Inv(s) && s.w.pc == Reserve && s.r == Idle && RoomForSkip(s)
    ensures
      var g, n, total := s.ring, |s.ring.buf|, |s.w.chunk| + s.w.rest + 5;
      var at := Place(g, total);
      && g.cursor == g.reserved && g.writingCursor == 0 && total < n
      && Cell(g.reserved, n) < n && !g.skip
      && t ==
        s.(ring := g.(buf := if at != g.reserved then Put(g.buf, Cell(g.reserved, n), [Code(Skip)]) else g.buf,
                      writingBegin := at, writingCursor := at, cursor := at, reserved := at + total,
                      total := total, remaining := total - 5),
           w := s.w.(pc := Guard),
           log := LogAfterPlacing(s))
    ensures Leads(s, acts, t) && Inv(t)
    ensures WritingAndReading(acts)
  {
    hide Cell;
    hide Put;
    hide Inv;
    UnblockedStepAdvances(s);
    ReserveFacts(s);
    var s1 := WriterStep(s);
    KeptReserve(s);
    LeadsByOne(s, W);
    acts, t := [W], s1;
    if s1.w.pc == PutSkip {
      UnblockedStepAdvances(s1);
      var s2 := WriterStep(s1);
      KeptPutSkip(s1);
      LeadsByOne(s1, W);
      UnblockedStepAdvances(s2);
      var s3 := WriterStep(s2);
      KeptPublishSkip(s2);
      LeadsByOne(s2, W);
      LeadsOn(s, [W], s1, [W], s2);
      LeadsOn(s, [W] + [W], s2, [W], s3);
      acts, t := [W] + [W] + [W], s3;
    }
  }

  function LogAfterPlacing(s: Sys): Log
    requires s.ring.buf != []
  {
    if Place(s.ring, |s.w.chunk| + s.w.rest + 5) != s.ring.reserved then
      s.log.(recs := s.log.recs + [Rec(s.ring.reserved, Skip, [])])
    else s.log
  }

  lemma ReserveFacts(s: Sys)
    requires Inv(s) && s.w.pc == Reserve && s.r == Idle
    ensures s.ring.cursor == s.ring.reserved && s.ring.writingCursor == 0 && !s.ring.skip
    ensures s.w.chunk != [] && |s.w.chunk| + s.w.rest + 5 < |s.ring.buf|
  {
  }

  /** Past the wait: the check, the flag and the length. */
  lemma HeadRunsOn(s: Sys) returns (acts: seq<Action>, t: Sys)
    requires Inv(s) && s.w.pc == Check && s.r == Idle
    ensures
      var g, n := s.ring, |s.ring.buf|;
      var flagged := Put(g.buf, Cell(g.writingCursor, n), [Code(Ok)]);
      && g.total > 5 && Cell(g.writingCursor, n) + g.total < n
      && Cell(g.writingCursor + 1, n) == Cell(g.writingCursor, n) + 1
      && t ==
        s.(ring := g.(buf := Put(flagged, Cell(g.writingCursor + 1, n), U32Bytes(g.total - 5)),
                      writingCursor := g.writingCursor + 5),
           w := s.w.(pc := Account))
    ensures Leads(s, acts, t) && Inv(t)
    ensures WritingAndReading(acts)
  {
    hide Cell;
    hide Put;
    hide U32Bytes;
    hide Inv;
    CheckFacts(s);
    var s1 := WriterStep(s);
    KeptCheck(s);
    LeadsByOne(s, W);
    var s2 := WriterStep(s1);
    KeptPutFlag(s1);
    LeadsByOne(s1, W);
    var s3 := WriterStep(s2);
    KeptPutLength(s2);
    LeadsByOne(s2, W);
    LeadsOn(s, [W], s1, [W], s2);
    LeadsOn(s, [W] + [W], s2, [W], s3);
    acts, t := [W] + [W] + [W], s3;
  }

  lemma CheckFacts(s: Sys)
    requires Inv(s) && s.w.pc == Check && s.r == Idle
    ensures var g, n := s.ring, |s.ring.buf|;
      && g.total > 5 && s.w.seen == g.resetCount
      && Cell(g.writingCursor, n) + g.total < n && Cell(g.writingCursor + 1, n) == Cell(g.writingCursor, n) + 1
  {
    hide Cell;
    hide Stored;
    LapOffset(s.ring.writingCursor, s.ring.writingCursor + 1, |s.ring.buf|);
  }

  /** The first step of a call. */
  lemma Enters(s: Sys, msg: seq<byte>, rest: nat)
    requires s.ring.buf != [] && s.w == NO_WRITER
    requires msg != [] && !s.ring.resetting ==> Inv(s) && s.r == Idle && Contract(s, Enter(msg, rest))
    ensures var t := Apply(s, Enter(msg, rest));
      && Leads(s, [Enter(msg, rest)], t) && (Inv(s) && s.r == Idle ==> Inv(t))
      && t == (if msg == [] || s.ring.resetting then s.(log := s.log.(rets := s.log.rets + [false]))
               else s.(ring := s.ring.(writing := true),
                       w := Writer(if s.ring.writingCursor == 0 then Reserve else Account,
                                   msg, rest, s.ring.resetCount, 0)))
    ensures msg != [] && !s.ring.resetting ==> if s.ring.writingCursor == 0
      then s.ring.cursor == s.ring.reserved && s.log.acc == [] && |msg| + rest + 5 < |s.ring.buf|
      else s.ring.remaining > 0
  {
    hide Cell;
    hide Inv;
    LeadsByOne(s, Enter(msg, rest));
    if Inv(s) && s.r == Idle {
      EnterFacts(s, msg, rest);
      KeptByEnter(s, Enter(msg, rest));
    }
  }

  lemma EnterFacts(s: Sys, msg: seq<byte>, rest: nat)
    requires Inv(s) && s.w.pc == Out && s.r == Idle
    ensures !s.ring.resetting && s.w == NO_WRITER && (s.ring.writingCursor == 0 ==> s.ring.cursor == s.ring.reserved)
    ensures s.ring.writingCursor == 0 ==> s.log.acc == []
    ensures s.ring.writingCursor != 0 ==> s.ring.remaining > 0
  {
  }

  lemma {:induction false} CopyKeepsInv(s: Sys)
    requires Inv(s) && s.w.pc == Copy
    ensures s.w.copied <= |s.w.chunk| && Cell(s.ring.writingCursor, |s.ring.buf|) + |s.w.chunk| <= |s.ring.buf|
    ensures Inv(Copied(s))
    decreases |s.w.chunk| - s.w.copied
  {
    hide Cell;
    hide Inv;
    hide Put;
    CopyFacts(s);
    KeptCopy(s);
    if s.w.copied < |s.w.chunk| {
      CopyKeepsInv(WriterStep(s));
      CopiedAfterOne(s);
    } else {
      CopiedAtEnd(s);
    }
  }

  lemma CopyFacts(s: Sys)
    requires Inv(s) && s.w.pc == Copy
    ensures s.w.copied <= |s.w.chunk| && Cell(s.ring.writingCursor, |s.ring.buf|) + |s.w.chunk| <= |s.ring.buf|
  {
    hide Cell;
    hide Stored;
    hide MessageAt;
    LapOffset(s.ring.writingBegin, s.ring.writingCursor, |s.ring.buf|);
  }

  lemma {:induction false} StepsLead(s: Sys, k: nat)
    requires s.ring.buf != [] && StepsEnabled(s, k)
    ensures Leads(s, seq(k, _ => W), Steps(s, k)) && WritingAndReading(seq(k, _ => W))
  {
    StepsAsRun(s, k);
  }

  lemma AccountRuns(s: Sys) returns (acts: seq<Action>, t: Sys)
    requires Inv(s) && s.w.pc == Account && s.r == Idle
    ensures WritingAndReading(acts)
    ensures
      var g, chunk := s.ring, s.w.chunk;
      var whole := g.remaining == |chunk| + s.w.rest;
      && !g.skip && (whole ==> Cell(g.writingCursor, |g.buf|) + |chunk| <= |g.buf|)
      && t ==
        s.(ring := g.(buf := if whole then Put(g.buf, Cell(g.writingCursor, |g.buf|), chunk) else g.buf,
                      writingCursor := g.writingCursor + if whole then |chunk| else 0,
                      remaining := g.remaining - |chunk|),
           w := s.w.(pc := Finish, copied := if whole then |chunk| else 0),
           log := if whole then s.log.(acc := s.log.acc + chunk) else s.log)
    ensures Leads(s, acts, t) && Inv(t)
  {
    hide Cell;
    hide Inv;
    hide Put;
    AccountStart(s);
    var s1 := WriterStep(s);
    KeptAccount(s);
    StepOnce(s);
    if s1.w.pc == Copy {
      CopyKeepsInv(s1);
      CopyRuns(s1);
      assert s.w.chunk[0..] == s.w.chunk;
      StepsAdd(s, 1, |s.w.chunk| + 1);
      StepsLead(s, |s.w.chunk| + 2);
      acts, t := seq(|s.w.chunk| + 2, _ => W), Copied(s1);
    } else {
      StepsLead(s, 1);
      acts, t := seq(1, _ => W), s1;
    }
  }

  lemma AccountStart(s: Sys)
    requires Inv(s) && s.w.pc == Account
    ensures !s.ring.skip && s.w.copied == 0
  {
  }

  /** The end of the call: in one or three steps, with the invariant unless the ring is exactly full. */
  lemma FinishRuns(s: Sys) returns (acts: seq<Action>, t: Sys)
    requires Inv(s) && s.w.pc == Finish && s.r == Idle
    ensures WritingAndReading(acts)
    ensures
      var g, n := s.ring, |s.ring.buf|;
      && !g.skip && !g.resetting && g.cursor == g.writingBegin && Cell(g.writingBegin, n) + 1 <= n
      && Leads(s, acts, t) && t.w == NO_WRITER && t.r == Idle
      && (s.w.rest > 0 ==> t.ring == g.(writing := false))
      && (s.w.rest == 0 ==> t.ring == g.(
          buf := if g.remaining != 0 then Put(g.buf, Cell(g.writingBegin, n), [Code(Invalid)]) else g.buf,
          cursor := g.cursor + g.total, writingBegin := g.writingBegin + g.total,
          writingCursor := 0, writing := false))
      && (s.w.rest > 0 || t.ring.cursor != t.ring.readingCursor + n ==> Inv(t))
      && t.log.acc == (if s.w.rest == 0 then [] else s.log.acc)
      && t.log.rets == s.log.rets + [true] && t.log.got == s.log.got
      && t.log.sent == s.log.sent + if s.w.rest == 0 && g.remaining == 0 then [s.log.acc] else []
  {
    hide Cell;
    hide Inv;
    hide Put;
    FinishFacts(s);
    var s1 := WriterStep(s);
    KeptFinish(s);
    StepOnce(s);
    if s.w.rest > 0 {
      StepsLead(s, 1);
      acts, t := seq(1, _ => W), s1;
    } else {
      var s2 := WriterStep(s1);
      FinishFacts(s1);
      StepOnce(s1);
      StepsAdd(s, 1, 1);
      StepsLead(s, 2);
      acts, t := seq(2, _ => W), s2;
      if NotExactlyFull(s1, W) {
        KeptPublish(s1);
      }
    }
  }

  /** A chunk that is not the last one has the announced length. */
  lemma PartsMatch(s: Sys)
    requires Inv(s) && s.w.pc == Account
    ensures s.w.rest > 0 ==> s.ring.remaining == |s.w.chunk| + s.w.rest
  {
  }

  lemma FinishFacts(s: Sys)
    requires Inv(s) && (s.w.pc == Finish || s.w.pc == Publish) && s.r == Idle
    ensures !s.ring.skip && s.ring.cursor == s.ring.writingBegin && !s.ring.resetting
  {
  }

  lemma HeadOfResetRuns(s: Sys)
    requires s.ring.buf != [] && s.r == Idle
    ensures
      var t := s.(ring := s.ring.(resetCount := s.ring.resetCount + 1, resetting := true), r := Raised);
      Leads(s, [StringRing.Reset] + [StringRing.Reset], t)
  {
    var s1 := Apply(s, StringRing.Reset);
    LeadsByOne(s, StringRing.Reset);
    LeadsByOne(s1, StringRing.Reset);
    LeadsOn(s, [StringRing.Reset], s1, [StringRing.Reset], Apply(s1, StringRing.Reset));
  }

  lemma RestOfResetRuns(s: Sys)
    requires 0 < |s.ring.buf| <= U32_LIMIT && s.w == NO_WRITER && s.r == Raised
    requires !s.ring.writing && !s.ring.skip
    ensures
      var t := s.(ring := s.ring.(reserved := 0, cursor := 0, readingCursor := 0, writingBegin := 0,
                                  writingCursor := 0, readingBegin := 0, resetting := false),
                  r := Idle,
                  log := NO_LOG.(rets := s.log.rets));
      && Inv(t) && Leads(s, [StringRing.Reset] + [StringRing.Reset], t)
  {
    hide Cell;
    var s1 := Apply(s, StringRing.Reset);
    FirstCell(|s.ring.buf|);
    NothingStored(s.ring.buf, 0);
    LeadsByOne(s, StringRing.Reset);
    LeadsByOne(s1, StringRing.Reset);
    LeadsOn(s, [StringRing.Reset], s1, [StringRing.Reset], Apply(s1, StringRing.Reset));
  }

  lemma ReadKeepsInv(s: Sys)
    requires Inv(s) && s.r == Idle
    ensures Inv(ReadOnce(s)) && Inv(Apply(s, Load))
  {
    hide Inv;
    hide TakeStep;
    KeptByLoad(s);
    KeptByTake(Apply(s, Load));
  }

  /** What one read does, from the invariant. */
  lemma ReadFacts(s: Sys)
    requires Inv(s) && s.r == Idle
    ensures Inv(ReadOnce(s))
    ensures AccessesInside(Sys(s.ring, NO_WRITER, Loaded(s.ring.cursor), s.log))
    ensures s.log.recs == [] ==> ReadAt(s.ring, s.ring.cursor) == Nothing
    ensures s.log.recs != [] ==>
      var rec, to := s.log.recs[0], EndOf(s.log.recs[0], |s.ring.buf|);
      && s.ring.readingCursor < to <= s.ring.cursor
      && ReadAt(s.ring, s.ring.cursor) == (if rec.flag == Ok then Message(to, rec.body) else Jump(to))
  {
    hide Cell;
    hide ReadAt;
    hide WriterOk;
    hide Stored;
    hide ReadOnce;
    hide InLine;
    var l := Apply(s, Load);
    ReadKeepsInv(s);
    Contiguous(l);
    ReadsFirstRecord(l);
    NothingBetween(s.ring.buf, s.log.recs, s.ring.readingCursor, s.ring.cursor);
    if s.log.recs != [] {
      StoredShrinks(s.ring.buf, s.log.recs, s.ring.readingCursor, s.ring.cursor);
    }
  }

  lemma NothingBetween(buf: seq<byte>, recs: seq<Rec>, lo: nat, hi: nat)
    requires buf != [] && Stored(buf, recs, lo, hi)
    ensures recs == [] <==> lo == hi
  {
    if recs != [] {
      StoredShrinks(buf, recs, lo, hi);
    }
  }
}
