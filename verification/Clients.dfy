/** The raw and WebSocket clients: which request they own, and when they give it up. */
module Clients {
  import opened Wrappers
  import opened Words
  import opened StringRing
  import opened RingStringBuffers
  import opened WebSocketFraming
  import opened Connections

  class WebSocketClient {
    var request: Connection?

    constructor ()
      ensures request == null
    {
      request := null;
    }

    /**
     * `connect`; `obj` is what the service's pool gave out. An earlier request is shut
     * down even if there is no new one.
     */
    method Connect(obj: Connection?) returns (ok: bool)
      requires obj != null ==> obj != request && obj.sendingBuffer.Valid()
      modifies this, (if request == null then {} else {request})`shutdown
      modifies (if obj == null then {} else {obj})`shutdown, if obj == null then {} else {obj.sendingBuffer}
      ensures request == obj && (ok <==> obj != null)
      ensures old(request) != null ==> old(request).shutdown
      ensures ok ==> !obj.shutdown && obj.AtRest() && obj.Sent() == obj.Delivered() == []
    {
      hide RingStringBuffer.Good;
      if request != null {
        request.shutdown := true;
      }
      request := obj;
      if obj == null {
        return false;
      }
      ValidIsQuiet(obj.sendingBuffer);
      obj.sendingBuffer.Reset();
      obj.shutdown := false;
      return true;
    }

    /** `stop`: the request is shut down and forgotten. */
    method Stop()
      modifies this, (if request == null then {} else {request})`shutdown
      ensures request == null && (old(request) != null ==> old(request).shutdown)
    {
      if request != null {
        request.shutdown := true;
        request := null;
      }
    }

    /** `send`: nothing happens without a request that has a `wsi`. */
    method Send(msg: seq<byte>, established: bool) returns (ok: bool)
      requires request != null && request.wsi ==> request.Accepts(request.pre + |msg|) && request.pre > 0
      modifies if request == null then {} else {request.sendingBuffer, request.sendingBuffer.buffer}
      ensures ok <==> request != null && request.wsi && msg != []
      ensures request != null && !request.wsi ==> unchanged(request.sendingBuffer)
      ensures request != null && request.wsi && !established ==> request.Sent() == old(request.Sent()) + [msg]
      ensures request != null && request.wsi && established ==>
        request.sendingBuffer.log.sent == (if msg == [] then [] else [msg])
    {
      hide RingStringBuffer.Good;
      ok := false;
      if request != null {
        var delivered;
        ok, delivered := request.SendFramed(msg, established);
      }
    }
  }

  class SocketClient {
    var request: Connection?

    constructor ()
      ensures request == null
    {
      request := null;
    }

    /** `connect`: with a request already there it changes nothing and says true. */
    method Connect(obj: Connection?) returns (ok: bool)
      requires request == null && obj != null ==> obj.sendingBuffer.Valid()
      modifies this, (if obj == null then {} else {obj})`shutdown, if obj == null then {} else {obj.sendingBuffer}
      ensures request == (if old(request) != null then old(request) else obj) && (ok <==> request != null)
      ensures old(request) != null && obj != null ==> unchanged(obj) && unchanged(obj.sendingBuffer)
      ensures old(request) == null && ok ==> !obj.shutdown && obj.AtRest() && obj.invoked == old(obj.invoked)
      ensures old(request) == null && ok ==> obj.Sent() == obj.Delivered() == [] && obj.sendingBuffer.log.recs == []
    {
      hide RingStringBuffer.Good;
      if request != null {
        return true;
      }
      request := obj;
      if obj == null {
        return false;
      }
      ValidIsQuiet(obj.sendingBuffer);
      obj.sendingBuffer.Reset();
      obj.shutdown := false;
      return true;
    }

    method Stop()
      modifies this, (if request == null then {} else {request})`shutdown
      ensures request == null && (old(request) != null ==> old(request).shutdown)
    {
      if request != null {
        request.shutdown := true;
        request := null;
      }
    }

    method Send(msg: seq<byte>, resetAfter: Option<nat> := None) returns (ok: bool)
      requires request != null ==> request.sendingBuffer.Sized() && !request.sendingBuffer.resetting
      requires request != null && request.wsi && msg != [] ==> request.Accepts(|msg|)
      modifies if request == null then {} else {request.sendingBuffer, request.sendingBuffer.buffer}
      ensures ok ==> request != null && request.wsi && msg != []
      ensures request != null ==>
        if request.sendingBuffer.resetCount == old(request.sendingBuffer.resetCount) then
          && (ok <==> request.wsi && msg != [])
          && request.sendingBuffer.log.sent == old(request.sendingBuffer.log.sent) + (if ok then [msg] else [])
        else
          resetAfter.Some? && !ok && request.sendingBuffer.log.sent == []
    {
      hide RingStringBuffer.Good;
      ok := false;
      if request != null {
        var delivered;
        ok, delivered := request.SendRaw(msg, resetAfter);
      }
    }
  }
}
