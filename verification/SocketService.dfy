/** `socket_service` and the body of its `serve` loop, with libwebsockets' events as input. */
module SocketServices {
  import opened Laps
  import opened Wrappers
  import opened Requests
  import opened HttpCallbacks
  import Disconnect
  import PoolSteps
  import PoolUse
  import ObjectPools
  import RingBuffers
  import TicketQueue
  import TicketQueueOrder

  lemma {:induction false} RunAppend(s: State, first: seq<Action>, then_: seq<Action>)
    requires Run(s, first) && Run(Exec(s, first), then_)
    ensures Run(s, first + then_) && Exec(s, first + then_) == Exec(Exec(s, first), then_)
    decreases |first|
  {
    hide Apply;
    hide Enabled;
    if first == [] {
      assert first + then_ == then_;
    } else {
      assert (first + then_)[1..] == first[1..] + then_;
      RunAppend(Apply(s, first[0]), first[1..], then_);
    }
  }

  lemma RunOne(s: State, a: Action)
    requires Enabled(s, a)
    ensures Run(s, [a]) && Exec(s, [a]) == Apply(s, a)
  {
    hide Apply;
    hide Enabled;
    assert [a][1..] == [];
    assert Run(Apply(s, a), []) && Exec(Apply(s, a), []) == Apply(s, a);
  }

  lemma RunOneMore(s: State, acts: seq<Action>, a: Action)
    requires Run(s, acts) && Enabled(Exec(s, acts), a)
    ensures Run(s, acts + [a]) && Exec(s, acts + [a]) == Apply(Exec(s, acts), a)
  {
    hide Apply;
    hide Enabled;
    RunOne(Exec(s, acts), a);
    RunAppend(s, acts, [a]);
  }

  ghost predicate Within(s: State) {
    forall id :: id in s.active ==> id < |s.reqs|
  }

  /** Halfway through a sweep: the visited requests are as swept, the rest as before. */
  ghost predicate PartlySwept(s: State, t: State) {
    && Within(s) && t.pc.Sweeping? && t.pc.todo <= s.active && |t.reqs| == |s.reqs|
    && t.queue == s.queue && t.cursor == s.cursor && t.connected == s.connected && t.texts == s.texts
    && (forall id :: id in t.active <==> id in s.active && (id in t.pc.todo || !Leaves(s.reqs[id])))
    && (forall id :: 0 <= id < |s.reqs| ==>
      t.reqs[id] ==
        if id in s.active && id !in t.pc.todo then Swept(s.reqs[id], TextOf(s, s.reqs[id].obj)) else s.reqs[id])
  }

  /** A whole visit of the sweep: one step, or three if the request leaves. */
  function VisitActs(s: State, id: nat): seq<Action>
    requires id < |s.reqs|
  {
    [Action.Visit(id)] + if Leaves(s.reqs[id]) then [Answer] + [Erase] else []
  }

  function Visited(s: State, id: nat): State {
    if id >= |s.reqs| || !s.pc.Sweeping? then s
    else
      var r := s.reqs[id];
      s.(reqs := s.reqs[id := Swept(r, TextOf(s, r.obj))],
         active := if Leaves(r) then s.active - {id} else s.active,
         pc := Sweeping(s.pc.todo - {id}))
  }

  lemma VisitRuns(s: State, id: nat)
    requires Enabled(s, Action.Visit(id))
    ensures Run(s, VisitActs(s, id)) && Exec(s, VisitActs(s, id)) == Visited(s, id)
  {
    var r := s.reqs[id];
    var s1 := Apply(s, Action.Visit(id));
    RunOne(s, Action.Visit(id));
    if Leaves(r) {
      var s2 := Apply(s1, Answer);
      var s3 := Apply(s2, Erase);
      assert s3 == Visited(s, id);
      RunOneMore(s, [Action.Visit(id)], Answer);
      RunOneMore(s, [Action.Visit(id)] + [Answer], Erase);
      assert [Action.Visit(id)] + [Answer] + [Erase] == VisitActs(s, id);
    } else {
      assert s.reqs[id := r] == s.reqs;
      assert VisitActs(s, id) == [Action.Visit(id)];
    }
  }

  lemma SweepStep(s: State, t: State, id: nat)
    requires PartlySwept(s, t) && id in t.pc.todo
    ensures Enabled(t, Action.Visit(id)) && PartlySwept(s, Visited(t, id))
    ensures Visited(t, id).pc == Sweeping(t.pc.todo - {id})
  {
    hide Swept;
    hide Leaves;
  }

  /** What a whole sweep leaves behind. */
  ghost predicate AllSwept(s: State, t: State) {
    && Within(s) && t.pc == Top && |t.reqs| == |s.reqs|
    && t.queue == s.queue && t.cursor == s.cursor && t.connected == s.connected && t.texts == s.texts
    && (forall id :: id in t.active <==> id in s.active && !Leaves(s.reqs[id]))
    && (forall id :: 0 <= id < |s.reqs| ==>
      t.reqs[id] == if id in s.active then Swept(s.reqs[id], TextOf(s, s.reqs[id].obj)) else s.reqs[id])
  }

  lemma SweepStarts(s: State)
    requires Inv(s) && s.pc == Serving
    ensures Run(s, [StartSweep]) && Exec(s, [StartSweep]) == s.(pc := Sweeping(s.active))
    ensures PartlySwept(s, s.(pc := Sweeping(s.active)))
  {
    hide NoRepeats;
    RunOne(s, StartSweep);
  }

  lemma SweepEnds(s: State, acts: seq<Action>, t: State)
    requires Run(s, acts) && t == Exec(s, acts) && PartlySwept(s, t) && t.pc == Sweeping({})
    ensures Run(s, acts + [EndSweep]) && Exec(s, acts + [EndSweep]) == t.(pc := Top)
    ensures AllSwept(s, t.(pc := Top))
  {
    RunOneMore(s, acts, EndSweep);
  }

  /** A call of the callback of a request, with the reason for it. */
  datatype Callback = Http(reason: Reason) | Socket(e: Disconnect.Event)

  /** What an HTTP client has asked for. */
  datatype Posted = Posted(path: string, request: Option<HttpRequest>)

  /** What a reason to call a socket's callback means for the life of its request. */
  function SocketMeaning(e: Disconnect.Event): Event {
    if e in {Disconnect.Error, Disconnect.Close, Disconnect.Destroy, Disconnect.Writeable(true)} then Done
    else Chunk("")
  }

  function ClientOf(kind: Kind): Disconnect.Client {
    if kind == Ws then Disconnect.WsClient else Disconnect.RawClient
  }

  /** A call that ends its request. */
  predicate CallEnds(p: Posted, c: Callback) {
    match c
    case Http(reason) => Ends(p.request, reason)
    case Socket(e) => e in {Disconnect.Error, Disconnect.Close, Disconnect.Destroy, Disconnect.Writeable(true)}
  }

  /** What a call may do to the fields of its request, and what it must. */
  predicate Called(r: Req, t: Req, p: Posted, c: Callback) {
    && t == r.(wsi := t.wsi, completed := t.completed, heard := t.heard)
    && (t.wsi ==> r.wsi) && (r.completed ==> t.completed)
    && (CallEnds(p, c) ==> !t.wsi && (r.kind.Http() ==> t.completed))
    && (c.Http? && !Ends(p.request, c.reason) ==>
      t == match c.reason
        case Receive(readable) => if readable then r else r.(completed := true)
        case ReceiveRead(text) => r.(heard := r.heard + [text])
        case _ => r)
  }

  function EventOf(p: Posted, c: Callback): Option<Event> {
    match c
    case Http(reason) => Meaning(p.path, p.request, reason)
    case Socket(e) => Some(SocketMeaning(e))
  }

  /** The steps of the requests that calls of their callbacks are. */
  function Happenings(posted: seq<Posted>, calls: seq<(nat, Callback)>): seq<Action>
    requires forall i :: 0 <= i < |calls| ==> calls[i].0 < |posted|
    decreases |calls|
  {
    if calls == [] then []
    else
      var (id, c) := calls[|calls| - 1];
      Happenings(posted, calls[..|calls| - 1]) +
      match EventOf(posted[id], c) case None => [] case Some(e) => [Happen(id, e)]
  }

  /**
   * What the sweep must do to a request: nothing as long as it has a `wsi`, or is a socket
   * whose client has not stopped; else it goes, completed if it is HTTP, with one callback
   * if it has one, and one release if it is the service's.
   */
  predicate OutAsDue(r: Req, t: Req, out: bool, text: string) {
    if r.wsi || (!r.kind.Http() && !r.shutdown) then !out && t == r
    else
      && out
      && t == r.(completed := t.completed, answers := t.answers, releases := t.releases, told := t.told)
      && (r.kind.Http() ==> t.completed)
      && t.answers == r.answers + (if r.kind == AsyncHttp(true) then [text] else [])
      && t.releases == r.releases + (if r.kind in {AsyncHttp(true), Ws, Raw} then [Service] else [])
  }

  /** The same of every request in `requests_`, and nothing to any other one. */
  ghost predicate SweptAsDue(s: State, t: State) {
    && |t.reqs| == |s.reqs| && t.active <= s.active
    && forall id :: 0 <= id < |s.reqs| ==>
      if id in s.active then OutAsDue(s.reqs[id], t.reqs[id], id !in t.active, TextOf(s, s.reqs[id].obj))
      else t.reqs[id] == s.reqs[id]
  }

  lemma SweptIsDue(s: State, t: State)
    requires AllSwept(s, t)
    ensures SweptAsDue(s, t)
  {
    hide TextOf;
  }

  /** A client asks for something, or the service makes a pass. */
  datatype Op = Ask(kind: Kind, order: Posted) | Pass(ok: bool, calls: seq<(nat, Callback)>)

  /** The calls for requests that have been connected, by the callback of their kind. */
  function Fitting(reqs: seq<Req>, calls: seq<(nat, Callback)>): (some: seq<(nat, Callback)>)
    ensures forall i :: 0 <= i < |some| ==>
      some[i].0 < |reqs| && reqs[some[i].0].connects > 0 && (some[i].1.Http? <==> reqs[some[i].0].kind.Http())
    decreases |calls|
  {
    if calls == [] then []
    else
      var (id, c) := calls[0];
      (if id < |reqs| && reqs[id].connects > 0 && (c.Http? <==> reqs[id].kind.Http()) then [calls[0]] else [])
      + Fitting(reqs, calls[1..])
  }

  lemma FittingExpected(s: State, calls: seq<(nat, Callback)>)
    requires Inv(s)
    ensures Expected(s, Fitting(s.reqs, calls))
  {
    hide NoRepeats;
    hide Fitting;
    hide ReleasedRight;
  }

  /** No call is for the request. */
  predicate Uncalled(calls: seq<(nat, Callback)>, id: nat) {
    forall i :: 0 <= i < |calls| ==> calls[i].0 != id
  }

  /** What calls of their callbacks leave of requests: what none is for as it was, what one ends at its end. */
  predicate DeliveredTo(posted: seq<Posted>, calls: seq<(nat, Callback)>, r: seq<Req>, t: seq<Req>) {
    && |t| == |r| == |posted|
    && (forall id :: 0 <= id < |r| ==>
      && t[id] == r[id].(wsi := t[id].wsi, completed := t[id].completed, heard := t[id].heard)
      && (t[id].wsi ==> r[id].wsi) && (r[id].completed ==> t[id].completed)
      && (Uncalled(calls, id) ==> t[id] == r[id]))
    && (forall i :: 0 <= i < |calls| && calls[i].0 < |r| && CallEnds(posted[calls[i].0], calls[i].1) ==>
      var id := calls[i].0;
      !t[id].wsi && (r[id].kind.Http() ==> t[id].completed))
  }

  lemma NoneDelivered(posted: seq<Posted>, r: seq<Req>)
    requires |posted| == |r|
    ensures DeliveredTo(posted, [], r, r)
  {
  }

  lemma DeliveredOneMore(posted: seq<Posted>, calls: seq<(nat, Callback)>, i: nat,
                         r: seq<Req>, t: seq<Req>, u: seq<Req>)
    requires i < |calls| && DeliveredTo(posted, calls[..i], r, t) && calls[i].0 < |t|
    requires |u| == |t| && u == t[calls[i].0 := u[calls[i].0]]
    requires Called(t[calls[i].0], u[calls[i].0], posted[calls[i].0], calls[i].1)
    ensures DeliveredTo(posted, calls[..i + 1], r, u)
  {
    hide CallEnds;
    var now := calls[..i + 1];
    assert now[..i] == calls[..i] && now[i] == calls[i];
    forall id | 0 <= id < |r| && Uncalled(now, id)
      ensures u[id] == r[id]
    {
      assert now[i].0 != id;
      assert Uncalled(calls[..i], id) by {
        forall k | 0 <= k < i
          ensures calls[..i][k].0 != id
        {
          assert now[k].0 != id;
        }
      }
    }
    forall k | 0 <= k < |now| && now[k].0 < |r| && CallEnds(posted[now[k].0], now[k].1)
      ensures !u[now[k].0].wsi && (r[now[k].0].kind.Http() ==> u[now[k].0].completed)
    {
      if k < i {
        assert calls[..i][k] == now[k];
      }
    }
  }

  /** What a pass of the loop must have done, request by request. */
  ghost predicate PassDone(posted: seq<Posted>, ok: bool, calls: seq<(nat, Callback)>, s: State, t: State) {
    var taken := s.cursor < |s.queue|;
    && |t.reqs| == |s.reqs| == |posted|
    && (forall id :: id in t.active ==>
      id < |t.reqs| && (t.reqs[id].wsi || (!t.reqs[id].kind.Http() && !t.reqs[id].shutdown)))
    && (forall id :: id in s.active && Uncalled(calls, id) ==>
      id < |t.reqs| && (s.reqs[id].wsi || (!s.reqs[id].kind.Http() && !s.reqs[id].shutdown) ==>
        id in t.active && t.reqs[id] == s.reqs[id]))
    && (taken && s.queue[s.cursor] < |t.reqs| ==>
      var id := s.queue[s.cursor];
      var r := t.reqs[id];
      && (!ok && r.kind.Http() ==> id !in t.active && r.completed && !r.wsi)
      && (ok && Uncalled(calls, id) ==> id in t.active && r.wsi && !r.completed && r.answers == [] && r.releases == []))
    && (taken || s.active != {} ==> forall i :: 0 <= i < |calls| && calls[i].0 < |t.reqs| ==>
      var id := calls[i].0;
      CallEnds(posted[id], calls[i].1) ==>
        && !t.reqs[id].wsi
        && (t.reqs[id].kind.Http() ==> t.reqs[id].completed && id !in t.active))
  }

  lemma PassFields(posted: seq<Posted>, ok: bool, calls: seq<(nat, Callback)>, s: State, u: State, t: State)
    requires Inv(s) && s.pc == Top && |s.reqs| == |posted|
    requires var d := Apply(s, Action.Dequeue(ok));
      DeliveredTo(posted, calls, d.reqs, u.reqs) && u.active == d.active
    requires SweptAsDue(u, t)
    ensures PassDone(posted, ok, calls, s, t)
    ensures |t.reqs| == |s.reqs| && forall id :: 0 <= id < |s.reqs| ==> t.reqs[id].kind == s.reqs[id].kind
  {
    hide NoRepeats;
    hide CallEnds;
    if s.cursor < |s.queue| {
      ConnectedAsTold(s, ok);
      DequeuedWasOut(s);
    }
    hide Inv;
  }

  /** A pass that finds nothing to do. */
  lemma PassIdle(posted: seq<Posted>, ok: bool, calls: seq<(nat, Callback)>, s: State)
    requires Inv(s) && s.pc == Top && |s.reqs| == |posted| && Apply(s, Action.Dequeue(ok)).active == {}
    ensures PassDone(posted, ok, calls, s, Apply(s, Action.Dequeue(ok)))
    ensures Apply(s, Action.Dequeue(ok)).reqs == s.reqs
  {
    QueueInOrder(s);
    hide Inv;
    hide CallEnds;
  }

  /** `lws_service` calls back for connected requests only, each with the callback of its kind. */
  predicate Expected(s: State, calls: seq<(nat, Callback)>) {
    forall i :: 0 <= i < |calls| ==>
      && (calls[i].0 in s.connected || (s.cursor < |s.queue| && calls[i].0 == s.queue[s.cursor]))
      && calls[i].0 < |s.reqs| && (calls[i].1.Http? <==> s.reqs[calls[i].0].kind.Http())
  }

  lemma AfterDequeue(s: State, ok: bool, calls: seq<(nat, Callback)>)
    requires Inv(s) && s.pc == Top && Expected(s, calls)
    ensures var t := Apply(s, Action.Dequeue(ok));
      && t.queue == s.queue && t.cursor == s.cursor + (if s.cursor < |s.queue| then 1 else 0)
      && (t.pc == Serving || (t.pc == Top && t.active == {}))
      && forall i :: 0 <= i < |calls| ==>
        calls[i].0 in t.connected && calls[i].0 < |t.reqs| && (calls[i].1.Http? <==> t.reqs[calls[i].0].kind.Http())
  {
    hide NoRepeats;
    hide ReleasedRight;
  }

  lemma RunNone(s: State)
    ensures Run(s, []) && Exec(s, []) == s
  {
  }

  lemma EventComes(s: State, id: nat, e: Event)
    requires Inv(s) && s.pc == Serving && id in s.connected
    ensures Enabled(s, Happen(id, e))
  {
  }

  // ---------------------------------------------------------------- queue and pool

  /** Everything reserved is published and filled. */
  ghost predicate Published(q: TicketQueue.Queue<nat>) {
    && TicketQueue.Inv(q) && q.cursor == q.reserved && q.seen == TicketQueue.Unseen
    && forall p :: 0 <= p < q.cursor ==> p in q.filled
  }

  /** What was published, in order. */
  ghost function Queued(q: TicketQueue.Queue<nat>): (ids: seq<nat>)
    ensures |ids| == q.cursor
    ensures Published(q) ==> ids == TicketQueueOrder.ByPosition(q.filled, q.cursor)
  {
    seq(q.cursor, p => if p in q.filled then q.filled[p] else 0)
  }

  /** The four steps of `request`: reserve a slot of one, fill it, publish it. */
  ghost function Requested(q: TicketQueue.Queue<nat>, id: nat): TicketQueue.Queue<nat>
    requires q.buffer != []
  {
    q.(buffer := q.buffer[Cell(q.reserved, |q.buffer|) := id],
       slots := q.slots + [TicketQueue.Slot(q.reserved, q.reserved, 1, TicketQueue.Holding, true)],
       cursor := q.cursor + 1, reserved := q.reserved + 1, filled := q.filled[q.reserved := id])
  }

  lemma RequestSteps(q: TicketQueue.Queue<nat>, id: nat)
    requires Published(q)
    ensures var i := |q.slots|;
      var q1 := TicketQueue.Apply(q, TicketQueue.Reserve(1));
      var q2 := TicketQueue.Apply(q1, TicketQueue.Fill(i, 0, id));
      && TicketQueue.Enabled(q2, TicketQueue.Spin(i, 1, true))
      && TicketQueue.Apply(TicketQueue.Apply(q2, TicketQueue.Spin(i, 1, true)), TicketQueue.Add(i)) == Requested(q, id)
  {
    hide Cell;
  }

  lemma RequestQueues(q: TicketQueue.Queue<nat>, id: nat)
    requires Published(q) && TicketQueue.Inv(Requested(q, id))
    ensures Published(Requested(q, id)) && Queued(Requested(q, id)) == Queued(q) + [id]
  {
    hide TicketQueue.Inv;
    var r := Requested(q, id);
    assert forall p :: 0 <= p < q.cursor ==> Queued(r)[p] == Queued(q)[p];
  }

  lemma TakeKeepsQueued(q: TicketQueue.Queue<nat>)
    requires Published(q)
    requires TicketQueue.Inv(TicketQueue.Apply(TicketQueue.Apply(q, TicketQueue.Observe), TicketQueue.Take))
    ensures var r := TicketQueue.Apply(TicketQueue.Apply(q, TicketQueue.Observe), TicketQueue.Take);
      Published(r) && Queued(r) == Queued(q) && r.taken == if q.taken < q.cursor then q.taken + 1 else q.taken
  {
    hide Cell;
  }

  /** Every request not yet released is held, under a handle of its own. */
  ghost predicate AllHeld(pool: PoolSteps.Pool, reqs: seq<Req>, handles: seq<nat>) {
    && |handles| == |reqs|
    && (forall i, j :: 0 <= i < j < |handles| ==> handles[i] != handles[j])
    && (forall i :: 0 <= i < |handles| ==> handles[i] < pool.handles)
    && (forall i :: 0 <= i < |reqs| && reqs[i].releases == [] ==>
          handles[i] in pool.held && pool.held[handles[i]] == reqs[i].obj)
  }

  lemma HeldAfterGet(pool: PoolSteps.Pool, reqs: seq<Req>, handles: seq<nat>, r: Req)
    requires PoolUse.Fresh(pool) && AllHeld(pool, reqs, handles) && r.obj == PoolUse.Next(pool)
    ensures AllHeld(PoolUse.GetOnce(pool), reqs + [r], handles + [pool.handles])
  {
    PoolUse.FreshGet(pool);
    hide PoolUse.Fresh;
    hide PoolUse.GetOnce;
  }

  lemma HeldAfterRelease(pool: PoolSteps.Pool, reqs: seq<Req>, handles: seq<nat>, id: nat, r: Req)
    requires PoolUse.Fresh(pool) && AllHeld(pool, reqs, handles)
    requires id < |reqs| && reqs[id].releases == [] && r.releases != []
    ensures handles[id] in pool.held && pool.held[handles[id]] == reqs[id].obj
    ensures AllHeld(PoolUse.ReleaseOnce(pool, handles[id]), reqs[id := r], handles)
  {
    PoolUse.FreshRelease(pool, handles[id]);
    hide PoolUse.Fresh;
    hide PoolUse.ReleaseOnce;
  }

  lemma HeldAsBefore(pool: PoolSteps.Pool, reqs: seq<Req>, handles: seq<nat>, id: nat, r: Req)
    requires AllHeld(pool, reqs, handles) && id < |reqs| && r.obj == reqs[id].obj && r.releases == reqs[id].releases
    ensures AllHeld(pool, reqs[id := r], handles)
  {
  }

  // ---------------------------------------------------------------- service

  class SocketService {
    const pool: ObjectPools.ObjectPool
    const queue: RingBuffers.RingBuffer<nat>
    const consumer: RingBuffers.Consumer<nat>
    var reqs: seq<Req>
    var requests: set<nat>
    var texts: map<PoolSteps.Obj, string>
    var posted: seq<Posted>
    ghost var pc: ServePc
    ghost var connected: seq<nat>
    ghost var handles: seq<nat>

    /** Pool and queue are in order. */
    ghost predicate Wired()
      reads pool, pool.index, queue, queue.buffer, consumer
    {
      && pool.Valid() && queue.Valid() && pool.index != queue.buffer
      && consumer.buf == queue && consumer.cursor == queue.queue.taken && Published(queue.queue)
    }

    /** And the pool knows the requests. */
    ghost predicate Linked()
      reads this, pool, pool.index, queue, queue.buffer, consumer
    {
      Wired() && AllHeld(pool.pool, reqs, handles) && |posted| == |reqs|
    }

    ghost function View(): State
      reads this, queue, consumer
    {
      State(reqs, Queued(queue.queue), consumer.cursor, requests, pc, connected, texts)
    }

    ghost predicate Valid()
      reads this, pool, pool.index, queue, queue.buffer, consumer
    {
      Linked() && Inv(View())
    }

    constructor (size: nat)
      requires SizeAsserted(size)
      ensures Valid() && View() == EMPTY
      ensures fresh(pool) && fresh(pool.index) && fresh(queue) && fresh(queue.buffer) && fresh(consumer)
    {
      hide SizeAsserted;
      hide PoolUse.Fresh;
      hide TicketQueue.Inv;
      hide PoolSteps.Identity;
      pool := new ObjectPools.ObjectPool(size);
      var q := new RingBuffers.RingBuffer<nat>(size);
      queue := q;
      consumer := new RingBuffers.Consumer(q);
      reqs, requests, texts, posted := [], {}, map[], [];
      pc, connected, handles := Top, [], [];
    }

    function Text(obj: PoolSteps.Obj): (text: string)
      reads this, queue, consumer
      ensures text == TextOf(View(), obj)
    {
      if obj in texts then texts[obj] else ""
    }

    /** `request`: reserve a slot of the queue, store into it and publish it. */
    method Publish(id: nat)
      requires queue.Valid() && Published(queue.queue) && queue.reserved < queue.queue.taken + queue.size
      modifies queue, queue.buffer
      ensures queue.Valid() && Published(queue.queue) && queue.queue.taken == old(queue.queue.taken)
      ensures Queued(queue.queue) == old(Queued(queue.queue)) + [id]
    {
      hide TicketQueue.Inv;
      hide TicketQueue.Apply;
      hide SizeAsserted;
      ghost var q := queue.queue;
      RequestSteps(q, id);
      var slot := queue.Reserve();
      slot.Set(0, id);
      slot.PublishAll();
      RequestQueues(q, id);
    }

    /** A client gets an object from the pool, fills it in and publishes it in the queue. */
    method Submit(kind: Kind, order: Posted) returns (id: nat, ghost acts: seq<Action>)
      requires Valid() && queue.reserved < queue.queue.taken + queue.size
      modifies this, pool, queue, queue.buffer
      ensures Valid() && id == old(|reqs|) && |reqs| == id + 1
      ensures reqs[id].obj == PoolUse.Next(old(pool.pool)) && acts == [Alloc(kind, reqs[id].obj)] + [Enqueue(id)]
      ensures Run(old(View()), acts) && View() == Exec(old(View()), acts)
      ensures posted == old(posted) + [order] && View().queue == old(View()).queue + [id]
      ensures reqs[..id] == old(reqs) && reqs[id].kind == kind
      ensures !reqs[id].wsi && !reqs[id].completed && !reqs[id].shutdown
      ensures pc == old(pc) && requests == old(requests) && queue.queue.taken == old(queue.queue.taken)
    {
      hide PoolUse.Fresh;
      hide PoolUse.GetOnce;
      hide TicketQueue.Inv;
      hide Published;
      hide Queued;
      hide Inv;
      hide SizeAsserted;
      hide AllHeld;
      ghost var s, p := View(), pool.pool;
      id := |reqs|;
      var obj, h := pool.Get();
      Publish(id);
      HeldAfterGet(p, reqs, handles, Req(kind, obj, true, false, false, false, 0, [], [], [], 0));
      reqs := reqs + [Req(kind, obj, true, false, false, false, 0, [], [], [], 0)];
      handles, posted := handles + [h], posted + [order];
      acts := [Alloc(kind, obj)] + [Enqueue(id)];
      SubmitRuns(s, kind, obj, View());
    }

    /** `stop` of a WebSocket or raw client, and the first lines of `connect`. */
    method Stop(id: nat)
      requires Valid() && id < |reqs| && !reqs[id].kind.Http()
      modifies this`reqs
      ensures View() == Apply(old(View()), Action.Stop(id))
      ensures Valid() && reqs == old(reqs)[id := old(reqs)[id].(shutdown := true)]
    {
      hide AllHeld;
      hide Inv;
      hide Queued;
      hide Wired;
      InvKept(View(), Action.Stop(id));
      HeldAsBefore(pool.pool, reqs, handles, id, reqs[id].(shutdown := true));
      reqs := reqs[id := reqs[id].(shutdown := true)];
    }

    /** The next published request, if there is one. */
    method NextRequest() returns (found: bool, id: nat)
      requires Valid()
      modifies queue`queue, consumer
      ensures Linked() && Queued(queue.queue) == old(Queued(queue.queue))
      ensures found <==> old(consumer.cursor) < |Queued(queue.queue)|
      ensures consumer.cursor == old(consumer.cursor) + (if found then 1 else 0)
      ensures found ==> id == Queued(queue.queue)[old(consumer.cursor)] < |reqs|
    {
      hide AllHeld;
      hide Inv;
      hide TicketQueue.Inv;
      hide SizeAsserted;
      hide ObjectPools.ObjectPool.Valid;
      ghost var q := queue.queue;
      QueueHead(q, View());
      found, id := consumer.Next();
      TakeKeepsQueued(q);
      hide TicketQueue.Apply;
      hide Published;
      hide Queued;
    }

    /** The request goes into `requests_` and is connected; `ok` says whether that gave it a `wsi`. */
    method Connect(id: nat, ok: bool)
      requires Linked() && id < |reqs|
      modifies this`requests, this`reqs, this`connected
      ensures Linked() && requests == old(requests) + {id} && connected == old(connected) + [id]
      ensures reqs == old(reqs)[id := old(reqs)[id].(connects := old(reqs)[id].connects + 1, wsi := ok)]
    {
      hide AllHeld;
      hide Wired;
      HeldAsBefore(pool.pool, reqs, handles, id, reqs[id].(connects := reqs[id].connects + 1, wsi := ok));
      requests := requests + {id};
      reqs := reqs[id := reqs[id].(connects := reqs[id].connects + 1, wsi := ok)];
      connected := connected + [id];
    }

    /** The head of the loop: at most one request is taken from the queue and connected. */
    method Dequeue(ok: bool) returns (busy: bool)
      requires Valid() && pc == Top
      modifies this`requests, this`reqs, this`pc, this`connected, queue`queue, consumer
      ensures View() == Apply(old(View()), Action.Dequeue(ok))
      ensures Valid()
      ensures busy == (requests != {}) == (pc == Serving)
    {
      hide AllHeld;
      hide Inv;
      hide Queued;
      hide Wired;
      hide Apply;
      ghost var s := View();
      InvKept(s, Action.Dequeue(ok));
      QueueInOrder(s);
      var found, id := NextRequest();
      if found {
        Connect(id, ok);
      }
      busy := requests != {};
      pc := if busy then Serving else Top;
      DequeueStep(s, ok, View());
    }

    /** The branches of the two callbacks of sockets, as far as they touch the request. */
    static method SocketCallback(r: Req, e: Disconnect.Event) returns (t: Req)
      requires !r.kind.Http()
      ensures t == Hear(r, SocketMeaning(e))
      ensures t == r.(wsi := t.wsi)
      ensures forall invoked: bool, notes: seq<Disconnect.Note> ::
        t.wsi == Disconnect.React(ClientOf(r.kind), Disconnect.Conn(r.wsi, r.shutdown, invoked, notes), e).wsi
    {
      t := r;
      if r.kind == Ws && r.shutdown {
        if r.wsi {
          t := r.(wsi := false);
        }
      } else {
        match e {
          case Error =>
            t := r.(wsi := false);
          case Connected =>
          case Rx =>
          case Writeable(lost) =>
            if lost {
              t := r.(wsi := false);
            }
          case Close =>
            t := r.(wsi := false);
          case Destroy =>
            t := r.(wsi := false);
        }
      }
    }

    /** The callback of the kind of the request. */
    static method Call(r: Req, p: Posted, c: Callback) returns (t: Req, said: string, wrote: Option<string>)
      requires c.Http? <==> r.kind.Http()
      ensures match EventOf(p, c)
        case None => t == r && said == ""
        case Some(e) => t == Hear(r, e) && (r.kind.Http() ==> said == Said(e))
      ensures Called(r, t, p, c)
      ensures c.Http? && c.reason.ReceiveRead? ==> said == c.reason.text
      ensures wrote ==
        if c.Http? && c.reason.BodyWriteable? && p.request.Some? && |p.request.value.body| + 1 <= ROOM
        then Some(p.request.value.body) else None
    {
      match c {
        case Http(reason) =>
          t, said, wrote := HttpCallback(r, p.path, p.request, reason);
          hide Meaning;
          hide Hear;
        case Socket(e) =>
          t := SocketCallback(r, e);
          said, wrote := "", None;
          assert t.wsi == Disconnect.React(ClientOf(r.kind), Disconnect.Conn(r.wsi, r.shutdown, false, []), e).wsi;
      }
    }

    /**
     * One call from libwebsockets, with what the client asked for; text for the response
     * goes into the stream of the object.
     */
    method OnCallback(id: nat, c: Callback) returns (wrote: Option<string>)
      requires Valid() && pc == Serving && id in connected && id < |reqs|
      requires c.Http? <==> reqs[id].kind.Http()
      modifies this`reqs, this`texts
      ensures Valid() && |reqs| == old(|reqs|) && forall i :: 0 <= i < |reqs| ==> reqs[i].kind == old(reqs)[i].kind
      ensures match EventOf(posted[id], c)
        case None => View() == old(View())
        case Some(e) => Enabled(old(View()), Happen(id, e)) && View() == Apply(old(View()), Happen(id, e))
      ensures reqs == old(reqs)[id := reqs[id]] && Called(old(reqs)[id], reqs[id], posted[id], c)
      ensures c.Http? && c.reason.ReceiveRead? ==>
        Text(reqs[id].obj) == old(Text(reqs[id].obj)) + c.reason.text
      ensures wrote ==
        if c.Http? && c.reason.BodyWriteable? && posted[id].request.Some?
          && |posted[id].request.value.body| + 1 <= ROOM
        then Some(posted[id].request.value.body) else None
    {
      hide AllHeld;
      hide Inv;
      hide Queued;
      hide Wired;
      hide Hear;
      hide Said;
      hide EventOf;
      hide CallEnds;
      var r := reqs[id];
      var t, said;
      t, said, wrote := Call(r, posted[id], c);
      ghost var event := EventOf(posted[id], c);
      if event.Some? {
        EventComes(View(), id, event.value);
        InvKept(View(), Happen(id, event.value));
        HearLeaves(r, event.value);
      }
      HeldAsBefore(pool.pool, reqs, handles, id, t);
      ghost var s := View();
      if r.kind.Http() && said != "" {
        texts := texts[r.obj := Text(r.obj) + said];
      }
      reqs := reqs[id := t];
      assert View() == if event.Some? then Apply(s, Happen(id, event.value)) else s;
      hide Apply;
      hide Called;
    }

    /** What the sweep does to a request, branch by branch. */
    static method SweepOut(r: Req, text: string) returns (t: Req, leaves: bool, release: bool)
      ensures t == Swept(r, text) && leaves == Leaves(r) && release == (t.releases != r.releases)
      ensures OutAsDue(r, t, leaves, text)
      ensures release <==> leaves && r.kind in {AsyncHttp(true), Ws, Raw}
    {
      t, leaves, release := r, false, false;
      if !r.wsi {
        if r.kind.Http() {
          t := r.(completed := true);
          if r.kind == AsyncHttp(true) {
            t := t.(answers := r.answers + [text], told := |r.heard|);
            t, release := t.(releases := r.releases + [Service]), true;
          }
          leaves := true;
        } else if r.shutdown {
          t, release := r.(releases := r.releases + [Service]), true;
          leaves := true;
        }
      }
    }

    /** `release_request`. */
    method Release(obj: PoolSteps.Obj, ghost h: nat)
      requires Wired() && h in pool.pool.held && pool.pool.held[h] == obj
      modifies pool, pool.index
      ensures Wired() && PoolUse.Fresh(old(pool.pool)) && PoolUse.Quiet(old(pool.pool))
      ensures pool.pool == PoolUse.ReleaseOnce(old(pool.pool), h)
    {
      PoolIsFresh(pool);
      hide PoolUse.Fresh;
      hide PoolUse.ReleaseOnce;
      hide Published;
      hide SizeAsserted;
      hide RingBuffers.RingBuffer.Valid;
      pool.Release(obj, h);
    }

    /** Mark the request, run its callback and release it, as far as it leaves. */
    method Finish(id: nat, text: string) returns (leaves: bool)
      requires Linked() && id < |reqs| && ReleasedRight(reqs[id], false)
      modifies this`reqs, pool, pool.index
      ensures Linked() && leaves == old(Leaves(reqs[id]))
      ensures reqs == old(reqs)[id := Swept(old(reqs)[id], text)]
    {
      hide AllHeld;
      hide Wired;
      hide Swept;
      hide Leaves;
      hide ReleasedRight;
      hide PoolUse.Fresh;
      hide PoolUse.Quiet;
      hide PoolUse.ReleaseOnce;
      WiredPool(this);
      HeldAfterSweep(pool.pool, reqs, handles, id, text);
      var r := reqs[id];
      var t, out, release := SweepOut(r, text);
      if release {
        Release(r.obj, handles[id]);
      }
      reqs := reqs[id := t];
      leaves := out;
    }

    /** One visit of the sweep: mark, run the callback, release and erase. */
    method Visit(id: nat)
      requires Valid() && Enabled(View(), Action.Visit(id))
      modifies this`reqs, this`requests, this`pc, pool, pool.index
      ensures View() == Visited(old(View()), id) && Linked()
    {
      hide AllHeld;
      hide Queued;
      hide Swept;
      hide Leaves;
      hide TextOf;
      hide Wired;
      NotYetReleased(View(), id);
      hide Inv;
      hide ReleasedRight;
      var leaves := Finish(id, Text(reqs[id].obj));
      if leaves {
        requests := requests - {id};
      }
      pc := Sweeping(pc.todo - {id});
    }

    /** The completion sweep over `requests_`, in whatever order the set yields them. */
    method Sweep() returns (ghost acts: seq<Action>)
      requires Valid() && pc == Serving
      modifies this`reqs, this`requests, this`pc, pool, pool.index
      ensures Valid() && Run(old(View()), acts) && View() == Exec(old(View()), acts)
      ensures AllSwept(old(View()), View()) && SweptAsDue(old(View()), View()) && pc == Top
    {
      hide Inv;
      hide PartlySwept;
      hide AllSwept;
      hide Run;
      hide Exec;
      hide Apply;
      hide AllHeld;
      hide Wired;
      hide Queued;
      hide Visited;
      hide VisitActs;
      ghost var s := View();
      var todo := requests;
      pc := Sweeping(todo);
      SweepStarts(s);
      acts := [StartSweep];
      InvAlways(s, acts);
      while todo != {}
        invariant pc == Sweeping(todo) && PartlySwept(s, View()) && Valid()
        invariant Run(s, acts) && View() == Exec(s, acts)
        decreases |todo|
      {
        ghost var before := View();
        var id :| id in todo;
        SweepStep(s, before, id);
        VisitRuns(before, id);
        RunAppend(s, acts, VisitActs(before, id));
        Visit(id);
        todo := todo - {id};
        acts := acts + VisitActs(before, id);
        InvAlways(s, acts);
      }
      SweepEnds(s, acts, View());
      pc := Top;
      SweptIsDue(s, View());
      acts := acts + [EndSweep];
      InvAlways(s, acts);
    }

    /** `lws_service`: the calls it makes, one after the other. */
    method Deliver(calls: seq<(nat, Callback)>) returns (ghost acts: seq<Action>)
      requires Valid() && pc == Serving
      requires forall i :: 0 <= i < |calls| ==>
        calls[i].0 in connected && calls[i].0 < |reqs| && (calls[i].1.Http? <==> reqs[calls[i].0].kind.Http())
      modifies this`reqs, this`texts
      ensures Valid() && Run(old(View()), acts) && View() == Exec(old(View()), acts)
      ensures acts == Happenings(posted, calls)
      ensures DeliveredTo(posted, calls, old(reqs), reqs) && requests == old(requests)
    {
      hide Inv;
      hide Apply;
      hide Run;
      hide Exec;
      hide Queued;
      hide Wired;
      hide AllHeld;
      hide EventOf;
      hide DeliveredTo;
      hide Called;
      ghost var s := View();
      acts := [];
      RunNone(s);
      NoneDelivered(posted, reqs);
      assert calls[..0] == [];
      for i := 0 to |calls|
        invariant Valid() && |reqs| == |s.reqs| && forall k :: 0 <= k < |reqs| ==> reqs[k].kind == s.reqs[k].kind
        invariant Run(s, acts) && View() == Exec(s, acts)
        invariant acts == Happenings(posted, calls[..i])
        invariant DeliveredTo(posted, calls[..i], s.reqs, reqs)
      {
        var (id, c) := calls[i];
        ghost var before := reqs;
        var wrote := OnCallback(id, c);
        DeliveredOneMore(posted, calls, i, s.reqs, before, reqs);
        assert calls[..i + 1][..i] == calls[..i];
        if EventOf(posted[id], c).Some? {
          ghost var e := EventOf(posted[id], c).value;
          RunOneMore(s, acts, Happen(id, e));
          acts := acts + [Happen(id, e)];
        }
      }
      assert calls[..|calls|] == calls;
    }

    /** One pass of the loop: dequeue, `lws_service`, sweep. */
    method Turn(ok: bool, calls: seq<(nat, Callback)>) returns (ghost acts: seq<Action>)
      requires Valid() && pc == Top && Expected(View(), calls)
      modifies this`reqs, this`requests, this`texts, this`pc, this`connected, queue`queue, consumer, pool, pool.index
      ensures Valid() && pc == Top && Run(old(View()), acts) && View() == Exec(old(View()), acts)
      ensures View().queue == old(View()).queue
      ensures View().cursor == old(View()).cursor + (if old(View()).cursor < |old(View()).queue| then 1 else 0)
      ensures PassDone(posted, ok, calls, old(View()), View())
      ensures |reqs| == old(|reqs|) && forall id :: 0 <= id < |reqs| ==> reqs[id].kind == old(reqs)[id].kind
    {
      hide Linked;
      hide Queued;
      hide Inv;
      hide Run;
      hide Exec;
      hide Apply;
      hide Expected;
      hide Happenings;
      hide DeliveredTo;
      hide AllSwept;
      hide SweptAsDue;
      hide PassDone;
      ghost var s := View();
      SameNumber(this);
      AfterDequeue(s, ok, calls);
      RunOne(s, Action.Dequeue(ok));
      acts := [Action.Dequeue(ok)];
      var busy := Dequeue(ok);
      if !busy {
        PassIdle(posted, ok, calls, s);
        return;
      }
      ghost var more := Deliver(calls);
      RunAppend(s, acts, more);
      acts := acts + more;
      ghost var u := reqs;
      ghost var before := View();
      more := Sweep();
      RunAppend(s, acts, more);
      acts := acts + more;
      PassFields(posted, ok, calls, s, before, View());
    }

    /** One of the things that happen. (`None`: nothing was asked, or the queue was full.) */
    method ServeOne(op: Op) returns (id: Option<nat>)
      requires Valid() && pc == Top
      modifies this, pool, pool.index, queue, queue.buffer, consumer
      ensures Valid() && pc == Top && |reqs| == |posted| && |reqs| >= old(|reqs|)
      ensures forall k :: 0 <= k < old(|reqs|) ==> reqs[k].kind == old(reqs)[k].kind
      ensures id.Some? ==>
        && op.Ask? && id.value == old(|reqs|) && |reqs| == id.value + 1 && reqs[id.value].kind == op.kind
        && posted == old(posted) + [op.order]
      ensures id.None? ==> posted == old(posted)
    {
      hide Inv;
      hide Queued;
      hide AllHeld;
      hide PassDone;
      hide Run;
      hide Exec;
      hide Apply;
      SameNumber(this);
      id := None;
      match op {
        case Ask(kind, order) =>
          if queue.reserved < consumer.cursor + queue.size {
            var n;
            ghost var acts;
            ghost var before := reqs;
            n, acts := Submit(kind, order);
            id := Some(n);
            assert forall k :: 0 <= k < |before| ==> reqs[k] == reqs[..n][k];
          }
        case Pass(ok, calls) =>
          FittingExpected(View(), calls);
          ghost var acts := Turn(ok, Fitting(reqs, calls));
      }
      SameNumber(this);
    }

    /**
     * Clients ask and the service makes passes, in any order. Whatever is asked and done
     * after it, a request keeps what its client has asked for.
     */
    method Serve(ops: seq<Op>) returns (ids: seq<Option<nat>>)
      requires Valid() && pc == Top
      modifies this, pool, pool.index, queue, queue.buffer, consumer
      ensures Valid() && pc == Top && |ids| == |ops| && old(posted) <= posted && |reqs| == |posted|
      ensures forall i :: 0 <= i < |ops| && ids[i].Some? ==>
        && ops[i].Ask? && old(|reqs|) <= ids[i].value < |reqs|
        && posted[ids[i].value] == ops[i].order && reqs[ids[i].value].kind == ops[i].kind
      ensures forall i, j :: 0 <= i < j < |ops| && ids[i].Some? && ids[j].Some? ==> ids[i].value < ids[j].value
    {
      hide Valid;
      ids := [];
      SameNumber(this);
      for k := 0 to |ops|
        invariant Valid() && pc == Top && |ids| == k && old(posted) <= posted && |reqs| == |posted|
        invariant forall i :: 0 <= i < k && ids[i].Some? ==>
          && ops[i].Ask? && old(|reqs|) <= ids[i].value < |reqs|
          && posted[ids[i].value] == ops[i].order && reqs[ids[i].value].kind == ops[i].kind
        invariant forall i, j :: 0 <= i < j < k && ids[i].Some? && ids[j].Some? ==> ids[i].value < ids[j].value
      {
        var id := ServeOne(ops[k]);
        ids := ids + [id];
      }
    }

    /** The end of a synchronous `request`: the caller has seen `completed`, reads the text and gives it back. */
    method Return(id: nat) returns (text: string)
      requires Valid() && Enabled(View(), Action.Return(id))
      modifies this`reqs, pool, pool.index
      ensures text == old(TextOf(View(), reqs[id].obj))
      ensures View() == Apply(old(View()), Action.Return(id))
      ensures Valid()
    {
      hide AllHeld;
      hide Queued;
      hide Inv;
      hide TextOf;
      hide Wired;
      ghost var s := View();
      InvKept(s, Action.Return(id));
      ReturnStep(s, id);
      hide Apply;
      text := Text(reqs[id].obj);
      GiveBack(id);
    }

    /** The release at the end of it. */
    method GiveBack(id: nat)
      requires Linked() && id < |reqs| && reqs[id].releases == []
      modifies this`reqs, pool, pool.index
      ensures Linked() && reqs == old(reqs)[id := old(reqs)[id].(releases := [Client])]
    {
      hide AllHeld;
      hide Wired;
      hide PoolUse.Fresh;
      hide PoolUse.Quiet;
      hide PoolUse.ReleaseOnce;
      WiredPool(this);
      HeldAfterReturn(pool.pool, reqs, handles, id);
      Release(reqs[id].obj, handles[id]);
      reqs := reqs[id := reqs[id].(releases := [Client])];
    }
  }

  lemma ReturnStep(s: State, id: nat)
    requires Enabled(s, Action.Return(id))
    ensures s.reqs[id].releases == []
    ensures Apply(s, Action.Return(id)) == s.(reqs := s.reqs[id := s.reqs[id].(releases := [Client])])
  {
    assert s.reqs[id].releases + [Client] == [Client];
  }

  lemma HeldAfterReturn(pool: PoolSteps.Pool, reqs: seq<Req>, handles: seq<nat>, id: nat)
    requires PoolUse.Fresh(pool) && AllHeld(pool, reqs, handles) && id < |reqs| && reqs[id].releases == []
    ensures var r := reqs[id].(releases := [Client]);
      && id < |handles| && handles[id] in pool.held && pool.held[handles[id]] == reqs[id].obj
      && AllHeld(PoolUse.ReleaseOnce(pool, handles[id]), reqs[id := r], handles)
  {
    HeldAfterRelease(pool, reqs, handles, id, reqs[id].(releases := [Client]));
  }

  lemma PoolIsFresh(pool: ObjectPools.ObjectPool)
    requires pool.Valid()
    ensures PoolUse.Fresh(pool.pool) && PoolUse.Quiet(pool.pool)
  {
    hide SizeAsserted;
    PoolUse.FreshSizes(pool.pool);
    hide PoolUse.Fresh;
    hide PoolUse.Quiet;
  }

  lemma SameNumber(service: SocketService)
    requires service.Valid()
    ensures |service.posted| == |service.reqs|
  {
    hide Inv;
    hide AllHeld;
  }

  lemma WiredPool(service: SocketService)
    requires service.Wired()
    ensures PoolUse.Fresh(service.pool.pool) && PoolUse.Quiet(service.pool.pool)
  {
    PoolIsFresh(service.pool);
  }

  /** Taking from the queue, field by field. */
  lemma DequeueStep(s: State, ok: bool, t: State)
    requires s.pc == Top && s.cursor <= |s.queue| && forall i :: 0 <= i < |s.queue| ==> s.queue[i] < |s.reqs|
    requires t.queue == s.queue && t.texts == s.texts && t.pc == if t.active == {} then Top else Serving
    requires
      if s.cursor < |s.queue| then
        var id := s.queue[s.cursor];
        && t.cursor == s.cursor + 1 && t.active == s.active + {id} && t.connected == s.connected + [id]
        && t.reqs == s.reqs[id := s.reqs[id].(connects := s.reqs[id].connects + 1, wsi := ok)]
      else
        t.cursor == s.cursor && t.active == s.active && t.connected == s.connected && t.reqs == s.reqs
    ensures t == Apply(s, Action.Dequeue(ok))
  {
    if s.cursor < |s.queue| {
      assert s.queue[s.cursor] in t.active;
    }
  }

  lemma QueueInOrder(s: State)
    requires Inv(s)
    ensures s.cursor <= |s.queue| && forall i :: 0 <= i < |s.queue| ==> s.queue[i] < |s.reqs|
  {
    hide NoRepeats;
  }

  lemma QueueHead(q: TicketQueue.Queue<nat>, s: State)
    requires Published(q) && Inv(s) && s.queue == Queued(q) && s.cursor == q.taken
    ensures q.taken <= q.cursor == |s.queue|
    ensures q.taken < q.cursor ==> q.taken in q.filled && q.filled[q.taken] == s.queue[s.cursor] < |s.reqs|
  {
    hide NoRepeats;
    hide TicketQueue.Tiled;
  }

  lemma NotYetReleased(s: State, id: nat)
    requires Inv(s) && Enabled(s, Action.Visit(id))
    ensures ReleasedRight(s.reqs[id], false) && s.reqs[id].connects == 1
  {
    hide NoRepeats;
    assert id in s.active && !Gone(s, id);
  }

  /** What the visit means for the pool. */
  lemma HeldAfterSweep(pool: PoolSteps.Pool, reqs: seq<Req>, handles: seq<nat>, id: nat, text: string)
    requires PoolUse.Fresh(pool) && AllHeld(pool, reqs, handles) && id < |reqs|
    requires ReleasedRight(reqs[id], false)
    ensures id < |handles|
    ensures var r := Swept(reqs[id], text);
      if r.releases == reqs[id].releases then AllHeld(pool, reqs[id := r], handles)
      else
        && handles[id] in pool.held && pool.held[handles[id]] == reqs[id].obj
        && AllHeld(PoolUse.ReleaseOnce(pool, handles[id]), reqs[id := r], handles)
  {
    var r := Swept(reqs[id], text);
    if r.releases == reqs[id].releases {
      HeldAsBefore(pool, reqs, handles, id, r);
    } else {
      HeldAfterRelease(pool, reqs, handles, id, r);
    }
  }

  lemma SubmitRuns(s: State, kind: Kind, obj: PoolSteps.Obj, t: State)
    requires Inv(s)
    requires t == s.(reqs := s.reqs + [Req(kind, obj, true, false, false, false, 0, [], [], [], 0)],
                     queue := s.queue + [|s.reqs|])
    ensures var acts := [Alloc(kind, obj)] + [Enqueue(|s.reqs|)];
      Run(s, acts) && Exec(s, acts) == t && Inv(t)
  {
    var acts := [Alloc(kind, obj)] + [Enqueue(|s.reqs|)];
    RunOne(s, Alloc(kind, obj));
    RunOneMore(s, [Alloc(kind, obj)], Enqueue(|s.reqs|));
    InvAlways(s, acts);
  }
}
