/**
 * How the WebSocket client frames what it sends: every payload goes through the byte ring
 * behind `pre` bytes of headroom (`LWS_PRE`), written as two chunks of one message.
 */
module WebSocketFraming {
  import opened Laps
  import opened Words
  import opened StringRing
  import opened StringRingInvariant
  import opened StringRingFifo
  import opened StringRingWait
  import opened StringRingCalls

  /** The static array of `send`: a '0' and then zero bytes. */
  function Header(pre: nat): (header: seq<byte>)
    ensures |header| == pre
  {
    seq(pre, i => if i == 0 then 48 else 0)
  }

  /** The writes of one `send` that are not turned away for being empty. */
  function SendCalls(pre: nat, payload: seq<byte>): seq<Call> {
    [Call(Header(pre), |payload|)] + if payload == [] then [] else [Call(payload, 0)]
  }

  /** The writes of a run of `send`s. */
  function FrameCalls(pre: nat, payloads: seq<seq<byte>>): (calls: seq<Call>)
    decreases |payloads|
  {
    if payloads == [] then []
    else FrameCalls(pre, payloads[..|payloads| - 1]) + SendCalls(pre, payloads[|payloads| - 1])
  }

  /** What `ws_callback` passes to `lws_write`: each record without its headroom. */
  function Stripped(pre: nat, records: seq<seq<byte>>): (payloads: seq<seq<byte>>)
    ensures |payloads| == |records|
  {
    seq(|records|, i requires 0 <= i < |records| => if pre <= |records[i]| then records[i][pre..] else [])
  }

  /** Every record begins with exactly the headroom. */
  predicate Framed(pre: nat, records: seq<seq<byte>>) {
    forall i :: 0 <= i < |records| ==> Header(pre) <= records[i]
  }

  lemma StrippedNext(pre: nat, records: seq<seq<byte>>, record: seq<byte>)
    requires pre <= |record|
    ensures Stripped(pre, records + [record]) == Stripped(pre, records) + [record[pre..]]
    ensures Framed(pre, records) && Header(pre) <= record ==> Framed(pre, records + [record])
  {
  }

  /** A send makes one message of what it writes, and its first write alone makes none yet. */
  lemma SendAssembles(pre: nat, calls: seq<Call>, payload: seq<byte>)
    requires pre > 0 && Assemble(calls).acc == []
    ensures var p := Assemble(calls);
      && Assemble(calls + SendCalls(pre, payload)).messages == p.messages + [Header(pre) + payload]
      && Assemble(calls + SendCalls(pre, payload)).acc == []
      && (payload != [] ==>
        && Assemble(calls + [Call(Header(pre), |payload|)]).messages == p.messages
        && Assemble(calls + [Call(Header(pre), |payload|)]).acc == Header(pre))
  {
    hide Assemble;
    hide Header;
    var first := calls + [Call(Header(pre), |payload|)];
    AssembleNext(calls, Call(Header(pre), |payload|));
    AssembleNext(first, Call(payload, 0));
    assert [] + Header(pre) == Header(pre);
    if payload == [] {
      assert Header(pre) + payload == Header(pre);
      assert calls + SendCalls(pre, payload) == first;
    } else {
      assert calls + SendCalls(pre, payload) == first + [Call(payload, 0)];
    }
  }

  /** Sends, even cut short anywhere, assemble into framed messages, one for each payload. */
  lemma {:induction false} FramesAssemble(pre: nat, payloads: seq<seq<byte>>, calls: seq<Call>)
    requires pre > 0 && calls <= FrameCalls(pre, payloads)
    ensures var p := Assemble(calls);
      && Framed(pre, p.messages) && Stripped(pre, p.messages) <= payloads
      && (calls == FrameCalls(pre, payloads) ==> p.acc == [] && Stripped(pre, p.messages) == payloads)
    decreases |payloads|
  {
    hide Assemble;
    hide Header;
    if payloads == [] {
      AssembleNone();
    } else {
      var before, last := payloads[..|payloads| - 1], payloads[|payloads| - 1];
      var whole := FrameCalls(pre, before);
      if |calls| <= |whole| {
        assert calls == (whole + SendCalls(pre, last))[..|calls|] == whole[..|calls|];
        FramesAssemble(pre, before, calls);
      } else {
        FramesAssemble(pre, before, whole);
        SendAssembles(pre, whole, last);
        CutInSend(pre, whole, last, calls);
        StrippedNext(pre, Assemble(whole).messages, Header(pre) + last);
        assert (Header(pre) + last)[pre..] == last;
      }
    }
  }

  lemma AssembleNone()
    ensures Assemble([]) == Pile([], [], 0)
  {
  }

  lemma CutInSend(pre: nat, whole: seq<Call>, payload: seq<byte>, calls: seq<Call>)
    requires calls <= whole + SendCalls(pre, payload) && |whole| < |calls|
    ensures calls == whole + SendCalls(pre, payload)
      || (payload != [] && calls == whole + [Call(Header(pre), |payload|)])
  {
    hide Header;
    assert calls == (whole + SendCalls(pre, payload))[..|calls|];
    assert calls == whole + SendCalls(pre, payload)[..|calls| - |whole|];
  }

  /**
   * Framing round trip. In any interleaving whose write calls are those of sending the
   * payloads in turn (the last sends perhaps under way or not begun), every record read
   * has exactly `pre` bytes of headroom, and what follows it are the payloads, in order;
   * all of them, once every send has returned and the ring is drained.
   */
  lemma FramingRoundTrip(n: nat, pre: nat, payloads: seq<seq<byte>>, acts: seq<Action>)
    requires 0 < n <= U32_LIMIT && pre > 0
    requires PermittedRun(Init(n), acts) && Reset !in acts
    requires Entered(acts) <= FrameCalls(pre, payloads)
    ensures var t := Exec(Init(n), acts);
      && Framed(pre, t.log.got) && Stripped(pre, t.log.got) <= payloads
      && (Entered(acts) == FrameCalls(pre, payloads) && t.w.pc == Out && t.log.recs == [] ==>
        Stripped(pre, t.log.got) == payloads)
  {
    hide PermittedRun;
    hide Exec;
    hide Assemble;
    hide Header;
    hide FrameCalls;
    var t := Exec(Init(n), acts);
    Fifo(n, acts);
    var calls := t.log.calls;
    assert calls <= Entered(acts);
    FramesAssemble(pre, payloads, calls);
    var all := Assemble(calls).messages;
    assert t.log.got == all[..|t.log.got|];
    assert forall i :: 0 <= i < |t.log.got| ==> t.log.got[i] == all[i];
    assert Stripped(pre, t.log.got) == Stripped(pre, all)[..|t.log.got|];
  }

  /** `send` with an empty payload publishes the bare headroom as a message, then fails. */
  lemma EmptySendPublishesHeadroom(s: Sys, pre: nat) returns (acts: seq<Action>)
    requires pre > 0 && s.ring.writingCursor == 0 && s.log.acc == [] && Ready(s, Header(pre), 0)
    ensures EnabledRun(s, acts) && Entered(acts) == [Call(Header(pre), 0)]
    ensures acts[|acts| - 1] == Enter([], 0)
    ensures var t := Exec(s, acts);
      t.log.sent == s.log.sent + [Header(pre)] && t.log.rets == s.log.rets + [true] + [false] && t.w.pc == Out
  {
    hide Header;
    var header := Header(pre);
    acts := CallAsRun(s, header, 0);
    var t := Exec(s, acts);
    assert [] + header == header;
    OneStep(t, Enter([], 0));
    RunThen(s, acts, [Enter([], 0)]);
    EnteredAppend(acts, [Enter([], 0)]);
    assert Entered([Enter([], 0)][1..]) == [];
    acts := acts + [Enter([], 0)];
  }

  // ---------------------------------------------------------------- lws_write

  const SIZE_LIMIT := 0x1_0000_0000_0000_0000

  /** What `ws_callback` gives to `lws_write` of a record: an offset, and a length computed in `size_t`. */
  datatype Span = Span(from: nat, length: nat)

  function WireSpan(pre: nat, size: nat): Span {
    Span(pre, (size + SIZE_LIMIT - pre % SIZE_LIMIT) % SIZE_LIMIT)
  }

  /** The span lies inside the record if and only if the record is no shorter than the headroom. */
  lemma SpanInsideIff(pre: nat, size: nat)
    requires pre < SIZE_LIMIT && size < SIZE_LIMIT
    ensures var span := WireSpan(pre, size);
      && (span.from + span.length <= size <==> pre <= size)
      && span.length == if pre <= size then size - pre else SIZE_LIMIT - (pre - size)
  {
  }

  /** Of a frame the span is the payload; of a bare payload it is never the whole of it. */
  lemma SpanOfFrame(pre: nat, payload: seq<byte>)
    requires 0 < pre && pre + |payload| < SIZE_LIMIT && payload != []
    ensures var span, frame := WireSpan(pre, pre + |payload|), Header(pre) + payload;
      span.from + span.length == |frame| && frame[span.from..span.from + span.length] == payload
    ensures WireSpan(pre, |payload|).length != |payload|
  {
    SpanInsideIff(pre, pre + |payload|);
    SpanInsideIff(pre, |payload|);
  }
}
