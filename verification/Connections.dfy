/**
 * A connected request with its sending buffer, and the raw and WebSocket clients that own
 * it: `send`, `connect`, `stop`, and the two callbacks run by the service thread. Handing
 * bytes to libwebsockets and waking it up are left to the caller.
 */
module Connections {
  import opened Wrappers
  import opened Laps
  import opened Words
  import opened StringRing
  import opened StringRingInvariant
  import opened StringRingWait
  import opened RingStringBuffers
  import opened WebSocketFraming
  import Disconnect

  /** What is given to `lws_write`: nothing, bytes of the record, or a length that runs beyond it. */
  datatype Handed = Untouched | Text(bytes: seq<byte>) | Beyond(length: nat)

  function HandedOf(pre: nat, recs: seq<Rec>): Handed {
    if recs == [] || recs[0].flag != Ok || recs[0].body == [] then Untouched
    else if pre <= |recs[0].body| then Text(recs[0].body[pre..])
    else Beyond(WireSpan(pre, |recs[0].body|).length)
  }

  /** The first unread message is the first one sent and not yet read. */
  lemma NextIsSent(s: Sys)
    requires Inv(s) && s.r == Idle && s.log.recs != [] && s.log.recs[0].flag == Ok
    ensures |s.log.got| < |s.log.sent| && s.log.sent[|s.log.got|] == s.log.recs[0].body
    ensures |s.log.recs[0].body| < |s.ring.buf| <= U32_LIMIT
  {
    hide WriterOk;
    hide Cell;
    assert Written(s.ring.buf, s.log.recs[0]);
    assert Texts(s.log.recs) == [s.log.recs[0].body] + Texts(s.log.recs[1..]);
  }

  /** Between two messages nothing is piled up, and a call is in contract if its message fits. */
  lemma MessageStarts(b: RingStringBuffer, chunk: seq<byte>, rest: nat)
    requires b.Valid() && b.writingCursor == 0 && |chunk| + rest + 5 < b.size
    ensures Contract(b.State(NO_WRITER), Enter(chunk, rest)) && b.log.acc == [] && b.Quiet()
  {
    hide Layout;
  }

  /** After a first chunk the ring is inside a message, and a last chunk is in contract. */
  lemma MessageGoesOn(b: RingStringBuffer, chunk: seq<byte>)
    requires b.Valid() && b.log.acc != []
    ensures Contract(b.State(NO_WRITER), Enter(chunk, 0)) && b.writingCursor != 0 && b.Quiet()
  {
    hide Begun;
    hide Layout;
  }

  /** `request_info` with its `socket_info`. */
  class Connection {
    const pre: nat
    const sendingBuffer: RingStringBuffer
    var wsi: bool
    var shutdown: bool
    var invoked: bool
    ghost var notes: seq<Disconnect.Note>

    ghost function View(): Disconnect.Conn
      reads this
    {
      Disconnect.Conn(wsi, shutdown, invoked, notes)
    }

    constructor (pre: nat)
      ensures !wsi && !shutdown && !invoked && notes == [] && this.pre == pre
      ensures AtRest() && fresh(sendingBuffer) && fresh(sendingBuffer.buffer)
      ensures sendingBuffer.log == NO_LOG && sendingBuffer.size == 8192
    {
      hide And;
      hide Inv;
      this.pre := pre;
      SizeOfSocketBuffer();
      sendingBuffer := new RingStringBuffer(8192);
      wsi, shutdown, invoked, notes := false, false, false, [];
    }

    /** No message is half written. */
    ghost predicate AtRest()
      reads this, sendingBuffer, sendingBuffer.buffer
    {
      sendingBuffer.Valid() && sendingBuffer.writingCursor == 0
    }

    /** A message of `len` bytes fits, and a SKIP for it would leave room. */
    ghost predicate Accepts(len: nat)
      reads this, sendingBuffer, sendingBuffer.buffer
    {
      var b := sendingBuffer;
      && AtRest() && len + 5 < b.size
      && (Cell(b.reserved, b.size) + len + 5 >= b.size ==>
        b.cursor + Padding(b.cursor, b.size) - b.readingCursor < b.size)
    }

    /** The payloads sent, and those read to be handed to `lws_write`, since the last reset. */
    ghost function Sent(): seq<seq<byte>>
      reads this, sendingBuffer
    {
      Stripped(pre, sendingBuffer.log.sent)
    }

    ghost function Delivered(): seq<seq<byte>>
      reads this, sendingBuffer
    {
      Stripped(pre, sendingBuffer.log.got)
    }

    /** The flags and notices of a callback whose request is not shut down. */
    method Hear(e: Disconnect.Event)
      modifies this`wsi, this`invoked, this`notes
      ensures View() == Disconnect.React(Disconnect.RawClient, old(View()), e)
    {
      match e {
        case Error =>
          wsi := false;
          notes := notes + [Disconnect.OnError];
        case Connected =>
          notes := notes + [Disconnect.OnConnected];
          invoked := false;
        case Rx =>
          notes := notes + [Disconnect.OnData];
        case Writeable(lost) =>
          if lost {
            wsi := false;
          }
        case Close =>
          wsi := false;
          notes := notes + [Disconnect.OnDisconnected];
          invoked := true;
        case Destroy =>
          wsi := false;
          if !invoked {
            notes := notes + [Disconnect.OnDisconnected];
            invoked := true;
          }
      }
    }

    /** `raw_socket_callback`. `lost` only matters if something is written. */
    method OnRawEvent(e: Disconnect.Event) returns (written: Option<seq<byte>>)
      requires sendingBuffer.Valid()
      modifies this`wsi, this`invoked, this`notes, sendingBuffer
      ensures sendingBuffer.Valid()
      ensures View() == Disconnect.React(Disconnect.RawClient, old(View()),
        if e.Writeable? && written == None then Disconnect.Writeable(false) else e)
      ensures e == Disconnect.Connected ==> sendingBuffer.log == NO_LOG.(rets := old(sendingBuffer.log.rets))
      ensures e.Writeable? && old(sendingBuffer.log.recs) != [] ==>
        var rec := old(sendingBuffer.log.recs)[0];
        written == if rec.flag == Ok && rec.body != [] then Some(rec.body) else None
      ensures e.Writeable? && old(sendingBuffer.log.recs) == [] ==> written == None
      ensures !e.Writeable? ==> written == None
      ensures !e.Writeable? && e != Disconnect.Connected ==> unchanged(sendingBuffer)
      ensures e == Disconnect.Error ==> !wsi && notes == old(notes) + [Disconnect.OnError]
      ensures e == Disconnect.Connected ==> wsi == old(wsi) && notes == old(notes) + [Disconnect.OnConnected]
      ensures e == Disconnect.Rx ==> wsi == old(wsi) && notes == old(notes) + [Disconnect.OnData]
      ensures e == Disconnect.Close ==> !wsi && notes == old(notes) + [Disconnect.OnDisconnected]
      ensures e == Disconnect.Destroy ==>
        !wsi && notes == old(notes) + if old(invoked) then [] else [Disconnect.OnDisconnected]
      ensures e.Writeable? ==> wsi == (old(wsi) && !(e.lost && written.Some?)) && notes == old(notes)
    {
      hide RingStringBuffer.Good;
      hide Leads;
      written := None;
      var heard := e;
      if e == Disconnect.Connected {
        ValidIsQuiet(sendingBuffer);
        sendingBuffer.Reset();
      } else if e.Writeable? {
        var msg := sendingBuffer.Read(NO_WRITER);
        if msg.Some? && |msg.value| != 0 {
          written := msg;
        } else {
          heard := Disconnect.Writeable(false);
        }
      }
      Hear(heard);
    }

    /**
     * `ws_callback` for a WebSocket request. A writeable event hands out the next record
     * without its headroom, or a span beyond it if it is too short to have one.
     */
    method OnWsEvent(e: Disconnect.Event) returns (written: Handed)
      requires sendingBuffer.Valid() && 0 < pre < SIZE_LIMIT
      modifies this`wsi, this`invoked, this`notes, sendingBuffer
      ensures sendingBuffer.Valid()
      ensures View() == Disconnect.React(Disconnect.WsClient, old(View()),
        if e.Writeable? && written == Untouched then Disconnect.Writeable(false) else e)
      ensures shutdown || e != Disconnect.Connected ==> Sent() == old(Sent())
      ensures !shutdown && e == Disconnect.Connected ==> Sent() == Delivered() == []
      ensures shutdown || !(e.Writeable? || e == Disconnect.Connected) ==>
        unchanged(sendingBuffer) && written == Untouched
      ensures !shutdown && e.Writeable? ==> written == HandedOf(pre, old(sendingBuffer.log.recs))
      ensures shutdown ==> !wsi && notes == old(notes)
      ensures !shutdown && e == Disconnect.Error ==> !wsi && notes == old(notes) + [Disconnect.OnError]
      ensures !shutdown && e == Disconnect.Connected ==>
        wsi == old(wsi) && notes == old(notes) + [Disconnect.OnConnected]
      ensures !shutdown && e == Disconnect.Rx ==> wsi == old(wsi) && notes == old(notes) + [Disconnect.OnData]
      ensures !shutdown && e == Disconnect.Close ==> !wsi && notes == old(notes) + [Disconnect.OnDisconnected]
      ensures !shutdown && e == Disconnect.Destroy ==>
        !wsi && notes == old(notes) + if old(invoked) then [] else [Disconnect.OnDisconnected]
      ensures !shutdown && e.Writeable? ==>
        wsi == (old(wsi) && !(e.lost && written != Untouched)) && notes == old(notes)
      ensures !shutdown && e.Writeable? && old(Framed(pre, sendingBuffer.log.sent)) ==>
        !written.Beyond? && Delivered() == old(Delivered()) + (if written.Text? then [written.bytes] else [])
    {
      hide RingStringBuffer.Good;
      hide Leads;
      written := Untouched;
      Disconnect.ShutdownDecides(View(), e);
      Disconnect.ShutdownDecides(View(), Disconnect.Writeable(false));
      if shutdown {
        if wsi {
          wsi := false;
        }
        return;
      }
      var heard := e;
      if e == Disconnect.Connected {
        ValidIsQuiet(sendingBuffer);
        sendingBuffer.Reset();
      } else if e.Writeable? {
        written := WriteNext();
        if written == Untouched {
          heard := Disconnect.Writeable(false);
        }
      }
      Hear(heard);
    }

    /**
     * `send` of the raw client. If it has to wait, its connection may become established
     * after `resetAfter` reads; then the callback resets the buffer, and `send` fails.
     */
    method SendRaw(msg: seq<byte>, resetAfter: Option<nat> := None) returns (ok: bool, delivered: seq<seq<byte>>)
      requires wsi && msg != [] ==> Accepts(|msg|)
      requires sendingBuffer.Sized() && !sendingBuffer.resetting
      modifies sendingBuffer, sendingBuffer.buffer
      ensures var wasReset := sendingBuffer.resetCount != old(sendingBuffer.resetCount);
        && (ok <==> wsi && msg != [] && !wasReset)
        && (wasReset ==> resetAfter.Some? && AtRest() && sendingBuffer.log.sent == sendingBuffer.log.got == [])
        && (!wasReset ==>
              && sendingBuffer.log.sent == old(sendingBuffer.log.sent) + (if ok then [msg] else [])
              && sendingBuffer.log.got == old(sendingBuffer.log.got) + delivered
              && (!ok ==> sendingBuffer.View() == old(sendingBuffer.View())))
      ensures ok && sendingBuffer.cursor != sendingBuffer.readingCursor + sendingBuffer.size ==> AtRest()
    {
      hide RingStringBuffer.Good;
      hide Leads;
      hide Contract;
      hide Cell;
      hide SizeAsserted;
      ok, delivered := false, [];
      if !wsi {
        return;
      }
      ghost var acts;
      if msg != [] {
        MessageStarts(sendingBuffer, msg, 0);
        assert [] + msg == msg;
      }
      ok, delivered, acts := sendingBuffer.Write(msg, 0, resetAfter);
      if sendingBuffer.resetting {
        sendingBuffer.FinishReset();
      }
    }

    /**
     * `send` of the WebSocket client: the headroom, then the payload. With an empty
     * payload the headroom goes out alone and `send` fails all the same. If the connection
     * is `established` between the two writes, its callback resets the buffer there, and
     * the payload goes out alone.
     */
    method SendFramed(msg: seq<byte>, established: bool) returns (ok: bool, delivered: seq<seq<byte>>)
      requires wsi ==> Accepts(pre + |msg|) && pre > 0
      modifies sendingBuffer, sendingBuffer.buffer
      ensures ok <==> wsi && msg != []
      ensures wsi && !established && old(Framed(pre, sendingBuffer.log.sent)) ==> Framed(pre, sendingBuffer.log.sent)
      ensures wsi && !established ==>
        && Sent() == old(Sent()) + [msg]
        && sendingBuffer.log.got == old(sendingBuffer.log.got) + delivered
      ensures wsi && established ==> sendingBuffer.log.sent == (if msg == [] then [] else [msg])
      ensures wsi && sendingBuffer.cursor != sendingBuffer.readingCursor + sendingBuffer.size ==> AtRest()
      ensures !wsi ==> unchanged(sendingBuffer) && unchanged(sendingBuffer.buffer)
    {
      hide RingStringBuffer.Good;
      hide Leads;
      hide Contract;
      ok, delivered := false, [];
      if !wsi {
        return;
      }
      ghost var sent := sendingBuffer.log.sent;
      var header := Header(pre);
      StrippedNext(pre, sent, header + msg);
      assert (header + msg)[pre..] == msg && header <= header + msg;
      hide Framed;
      hide Stripped;
      delivered := BeginFrame(|msg|);
      hide Header;
      assert header + [] == header && [] + msg == msg;
      if established {
        sendingBuffer.Reset();
      }
      hide RingStringBuffer.Valid;
      var more;
      ok, more := WritePayload(msg);
      delivered := delivered + more;
    }

    /** The second write of `send`, within a message or, after a reset, on its own. */
    method WritePayload(msg: seq<byte>) returns (ok: bool, delivered: seq<seq<byte>>)
      requires sendingBuffer.Quiet() && |msg| + 5 < sendingBuffer.size
      requires msg != [] ==> sendingBuffer.Valid()
      requires msg != [] && sendingBuffer.log.acc == [] ==> sendingBuffer.writingCursor == sendingBuffer.reserved == 0
      requires msg != [] && sendingBuffer.log.acc != [] ==> sendingBuffer.remaining == |msg|
      modifies sendingBuffer, sendingBuffer.buffer
      ensures ok <==> msg != []
      ensures sendingBuffer.log.sent ==
        old(sendingBuffer.log.sent) + (if ok then [old(sendingBuffer.log.acc) + msg] else [])
      ensures sendingBuffer.log.got == old(sendingBuffer.log.got) + delivered
      ensures ok ==> sendingBuffer.writingCursor == 0
      ensures ok && sendingBuffer.cursor != sendingBuffer.readingCursor + sendingBuffer.size ==> sendingBuffer.Valid()
      ensures !ok ==> sendingBuffer.View() == old(sendingBuffer.View())
      ensures !ok && old(sendingBuffer.Valid()) ==> sendingBuffer.Valid()
    {
      hide RingStringBuffer.Good;
      hide Leads;
      hide Contract;
      if msg != [] {
        if sendingBuffer.log.acc == [] {
          FirstCell(sendingBuffer.size);
          MessageStarts(sendingBuffer, msg, 0);
        } else {
          MessageGoesOn(sendingBuffer, msg);
        }
      }
      hide Cell;
      ghost var acts;
      ok, delivered, acts := sendingBuffer.Write(msg);
    }

    /** The first write of `send`, announcing `len` bytes behind the headroom. */
    method BeginFrame(len: nat) returns (delivered: seq<seq<byte>>)
      requires Accepts(pre + len) && pre > 0
      modifies sendingBuffer, sendingBuffer.buffer
      ensures sendingBuffer.Quiet() && sendingBuffer.log.got == old(sendingBuffer.log.got) + delivered
      ensures len > 0 ==>
        && sendingBuffer.Valid() && sendingBuffer.log.sent == old(sendingBuffer.log.sent)
        && sendingBuffer.log.acc == Header(pre) && sendingBuffer.remaining == len
      ensures len == 0 ==>
        && sendingBuffer.log.sent == old(sendingBuffer.log.sent) + [Header(pre)] && sendingBuffer.writingCursor == 0
        && (sendingBuffer.cursor != sendingBuffer.readingCursor + sendingBuffer.size ==> sendingBuffer.Valid())
    {
      hide RingStringBuffer.Good;
      hide Leads;
      hide Contract;
      var header := Header(pre);
      MessageStarts(sendingBuffer, header, len);
      hide Cell;
      var ok;
      ghost var acts;
      assert [] + header == header;
      ok, delivered, acts := sendingBuffer.Write(header, len);
    }

    /** Read a record and hand out what lies behind its headroom, with the length in `size_t`. */
    method WriteNext() returns (written: Handed)
      requires sendingBuffer.Valid() && 0 < pre < SIZE_LIMIT
      modifies sendingBuffer
      ensures sendingBuffer.Valid() && sendingBuffer.log.sent == old(sendingBuffer.log.sent)
      ensures written == HandedOf(pre, old(sendingBuffer.log.recs))
      ensures old(Framed(pre, sendingBuffer.log.sent)) ==>
        !written.Beyond? && Delivered() == old(Delivered()) + (if written.Text? then [written.bytes] else [])
    {
      hide Inv;
      ghost var s := sendingBuffer.State(NO_WRITER);
      if s.log.recs != [] && s.log.recs[0].flag == Ok {
        NextIsSent(s);
        if pre <= |s.log.recs[0].body| {
          StrippedNext(pre, s.log.got, s.log.recs[0].body);
        }
      }
      var msg := sendingBuffer.Read(NO_WRITER);
      written := Untouched;
      if msg.Some? && |msg.value| != 0 {
        var span := WireSpan(pre, |msg.value|);
        SpanInsideIff(pre, |msg.value|);
        written :=
          if span.from + span.length <= |msg.value| then Text(msg.value[span.from..span.from + span.length])
          else Beyond(span.length);
      }
    }
  }

  lemma SizeOfSocketBuffer()
    ensures SizeAsserted(8192)
  {
    hide And;
    assert Pow2(4) == 16;
    assert Pow2(8) == 256;
    assert Pow2(12) == 4096;
    assert Pow2(13) == 8192;
    SizeAssertedIffPowerOfTwo(8192);
  }
}
