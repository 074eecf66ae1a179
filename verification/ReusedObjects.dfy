/**
 * What happens to requests when two threads are inside `get_obj`: a run for every pool, in
 * which an object is handed out again while `requests_` still has it, and all promises of
 * `PooledRequests` are broken.
 */
module ReusedObjects {
  import opened Laps
  import PoolSteps
  import PoolUse
  import PoolLimits
  import opened Requests
  import opened RequestObjects
  import opened RequestTexts
  import opened PooledRequests

  predicate Leads(j: Joint, ms: seq<Move>, k: Joint, bound: nat) {
    PooledRequests.Run(j, ms, bound) && PooledRequests.Exec(j, ms, bound) == k
  }

  lemma {:induction false} LeadsOn(j: Joint, a: seq<Move>, k: Joint, b: seq<Move>, l: Joint, bound: nat)
    requires Leads(j, a, k, bound) && Leads(k, b, l, bound)
    ensures Leads(j, a + b, l, bound)
    decreases |a|
  {
    hide Possible;
    hide After;
    if a == [] {
      assert a + b == b;
    } else {
      assert (a + b)[1..] == a[1..] + b;
      LeadsOn(After(j, a[0], bound), a[1..], k, b, l, bound);
    }
  }

  lemma LeadsByOne(j: Joint, m: Move, bound: nat)
    requires Possible(j, m, bound)
    ensures Leads(j, [m], After(j, m, bound), bound)
  {
    hide Possible;
    hide After;
    assert [m][1..] == [];
    var k := After(j, m, bound);
    assert PooledRequests.Run(k, [], bound) && PooledRequests.Exec(k, [], bound) == k;
  }

  lemma OneMore(j: Joint, ms: seq<Move>, k: Joint, m: Move, bound: nat)
    requires Leads(j, ms, k, bound) && Possible(k, m, bound)
    ensures Leads(j, ms + [m], After(k, m, bound), bound)
  {
    hide Possible;
    hide After;
    hide Leads;
    LeadsByOne(k, m, bound);
    LeadsOn(j, ms, k, [m], After(k, m, bound), bound);
  }

  lemma IsExec(j: Joint, ms: seq<Move>, k: Joint, bound: nat)
    requires Leads(j, ms, k, bound)
    ensures PooledRequests.Run(j, ms, bound) && PooledRequests.Exec(j, ms, bound) == k
  {
    hide Possible;
    hide After;
  }

  // ---------------------------------------------------------------- one request

  /** Nothing is in `requests_` or in the queue, and request `id` has its object. */
  predicate ReadyToServe(s: World, obj: PoolSteps.Obj, id: nat) {
    && s.pc == Top && s.requests == {} && s.cursor == |s.queue|
    && Holds(s, obj, id) && !s.uses[id].queued && s.uses[id].kind.Http()
  }

  /** The object is that of request `id`, and of no later one. */
  predicate Holds(s: World, obj: PoolSteps.Obj, id: nat) {
    Known(s, obj) && s.infos[obj].owner == id && s.uses[id].obj == obj
  }

  predicate SameObjects(s: World, t: World) {
    t.infos.Keys == s.infos.Keys && |t.uses| == |s.uses|
  }

  /** The request has been connected, has heard `text` and come to its end. */
  predicate Served(s: World, t: World, obj: PoolSteps.Obj, id: nat, text: string)
    requires Known(s, obj)
  {
    && t.pc == Serving && t.requests == {obj} && t.cursor == |t.queue| && SameObjects(s, t) && Holds(t, obj, id)
    && t.infos[obj].text == s.infos[obj].text + text
    && var r := Seen(s, obj);
       Seen(t, obj) == r.(queued := true, connects := r.connects + 1, wsi := false, completed := true,
                          heard := r.heard + [text])
  }

  lemma Connects(s: World, obj: PoolSteps.Obj, id: nat) returns (t: World)
    requires ReadyToServe(s, obj, id)
    ensures RequestObjects.Enabled(s, Enqueue(id))
    ensures var s1 := RequestObjects.Apply(s, Enqueue(id));
      RequestObjects.Enabled(s1, Dequeue(true)) && t == RequestObjects.Apply(s1, Dequeue(true))
    ensures t.pc == Serving && t.requests == {obj} && t.cursor == |t.queue| && SameObjects(s, t) && Holds(t, obj, id)
    ensures obj in t.connected && t.infos[obj].text == s.infos[obj].text
    ensures Seen(t, obj) == Seen(s, obj).(queued := true, connects := Seen(s, obj).connects + 1, wsi := true)
  {
    var s1 := RequestObjects.Apply(s, Enqueue(id));
    assert s1.queue[s1.cursor] == obj;
    t := RequestObjects.Apply(s1, Dequeue(true));
  }

  lemma Hears(s: World, obj: PoolSteps.Obj, id: nat, e: Event) returns (t: World)
    requires s.pc == Serving && obj in s.connected && Holds(s, obj, id) && s.uses[id].kind.Http()
    ensures RequestObjects.Enabled(s, Happen(obj, e)) && t == RequestObjects.Apply(s, Happen(obj, e))
    ensures t.pc == s.pc && t.requests == s.requests && t.cursor == s.cursor && t.queue == s.queue
    ensures SameObjects(s, t) && Holds(t, obj, id) && t.connected == s.connected
    ensures t.infos[obj].text == s.infos[obj].text + Said(e)
    ensures Seen(t, obj) == Hear(Seen(s, obj), e)
  {
    hide Said;
    HearLeaves(Seen(s, obj), e);
    hide Hear;
    t := RequestObjects.Apply(s, Happen(obj, e));
  }

  lemma Serve(j: Joint, obj: PoolSteps.Obj, id: nat, text: string, bound: nat) returns (ms: seq<Move>, k: Joint)
    requires ReadyToServe(j.world, obj, id)
    ensures Leads(j, ms, k, bound) && k.pool == j.pool && Served(j.world, k.world, obj, id, text)
  {
    hide RequestObjects.Apply;
    hide RequestObjects.Enabled;
    hide Leads;
    var s := j.world;
    var t := Connects(s, obj, id);
    var u := Hears(t, obj, id, Chunk(text));
    var v := Hears(u, obj, id, Done);
    var j1 := j.(world := RequestObjects.Apply(s, Enqueue(id)));
    LeadsByOne(j, InService(Enqueue(id)), bound);
    OneMore(j, [InService(Enqueue(id))], j1, InService(Dequeue(true)), bound);
    ms := [InService(Enqueue(id))] + [InService(Dequeue(true))];
    OneMore(j, ms, j.(world := t), InService(Happen(obj, Chunk(text))), bound);
    ms := ms + [InService(Happen(obj, Chunk(text)))];
    OneMore(j, ms, j.(world := u), InService(Happen(obj, Done)), bound);
    ms := ms + [InService(Happen(obj, Done))];
    k := j.(world := v);
    assert s.infos[obj].text + text + "" == s.infos[obj].text + text;
  }

  /** The sweep has taken the only object out. */
  predicate Emptied(s: World, t: World, obj: PoolSteps.Obj, id: nat)
    requires Known(s, obj)
  {
    && t.pc == Top && t.requests == {} && t.cursor == s.cursor && t.queue == s.queue
    && SameObjects(s, t) && Holds(t, obj, id)
    && t.infos[obj].text == s.infos[obj].text
    && Seen(t, obj) == AnsweredOut(MarkedOut(Seen(s, obj)), s.infos[obj].text)
  }

  lemma Marks(s: World, obj: PoolSteps.Obj, id: nat) returns (t: World)
    requires s.pc == Serving && s.requests == {obj} && Holds(s, obj, id) && Leaves(Seen(s, obj))
    ensures RequestObjects.Enabled(s, StartSweep)
    ensures var s1 := RequestObjects.Apply(s, StartSweep);
      RequestObjects.Enabled(s1, Visit(obj)) && t == RequestObjects.Apply(s1, Visit(obj))
    ensures t.pc == Marked(obj, {}) && t.requests == {obj} && t.cursor == s.cursor && t.queue == s.queue
    ensures SameObjects(s, t) && Holds(t, obj, id) && t.infos[obj].text == s.infos[obj].text
    ensures Seen(t, obj) == MarkedOut(Seen(s, obj))
  {
    var s1 := RequestObjects.Apply(s, StartSweep);
    assert Seen(s1, obj) == Seen(s, obj);
    hide Leaves;
    t := RequestObjects.Apply(s1, Visit(obj));
    assert {obj} - {obj} == {};
  }

  lemma Answers(s: World, obj: PoolSteps.Obj, id: nat) returns (t: World)
    requires s.pc == Marked(obj, {}) && s.requests == {obj} && Holds(s, obj, id)
    ensures RequestObjects.Enabled(s, Answer)
    ensures var s1 := RequestObjects.Apply(s, Answer);
      RequestObjects.Enabled(s1, Erase) && t == RequestObjects.Apply(s1, Erase)
    ensures t.pc == Sweeping({}) && t.requests == {} && t.cursor == s.cursor && t.queue == s.queue
    ensures SameObjects(s, t) && Holds(t, obj, id) && t.infos[obj].text == s.infos[obj].text
    ensures Seen(t, obj) == AnsweredOut(Seen(s, obj), s.infos[obj].text)
  {
    var s1 := RequestObjects.Apply(s, Answer);
    t := RequestObjects.Apply(s1, Erase);
  }

  lemma Sweep(j: Joint, obj: PoolSteps.Obj, id: nat, bound: nat) returns (ms: seq<Move>, k: Joint)
    requires j.world.pc == Serving && j.world.requests == {obj} && Holds(j.world, obj, id)
    requires Leaves(Seen(j.world, obj))
    ensures Leads(j, ms, k, bound) && k.pool == j.pool && Emptied(j.world, k.world, obj, id)
  {
    hide RequestObjects.Apply;
    hide RequestObjects.Enabled;
    hide Leads;
    hide AnsweredOut;
    hide MarkedOut;
    hide Leaves;
    var s := j.world;
    var t := Marks(s, obj, id);
    var u := Answers(t, obj, id);
    var v := EndsSweep(u);
    var s1, t1 := RequestObjects.Apply(s, StartSweep), RequestObjects.Apply(t, Answer);
    LeadsByOne(j, InService(StartSweep), bound);
    OneMore(j, [InService(StartSweep)], j.(world := s1), InService(Visit(obj)), bound);
    ms := [InService(StartSweep)] + [InService(Visit(obj))];
    OneMore(j, ms, j.(world := t), InService(Answer), bound);
    ms := ms + [InService(Answer)];
    OneMore(j, ms, j.(world := t1), InService(Erase), bound);
    ms := ms + [InService(Erase)];
    OneMore(j, ms, j.(world := u), InService(EndSweep), bound);
    ms := ms + [InService(EndSweep)];
    k := j.(world := v);
  }

  lemma EndsSweep(s: World) returns (t: World)
    requires s.pc == Sweeping({})
    ensures RequestObjects.Enabled(s, EndSweep) && t == RequestObjects.Apply(s, EndSweep) == s.(pc := Top)
  {
    t := s.(pc := Top);
  }

  /** A synchronous caller gives its request back. */
  lemma GivesBack(j: Joint, obj: PoolSteps.Obj, id: nat, bound: nat) returns (k: Joint)
    requires Holds(j.world, obj, id) && Seen(j.world, obj).completed && Seen(j.world, obj).queued
    requires Seen(j.world, obj).kind == SyncHttp && Seen(j.world, obj).releases == []
    ensures Leads(j, [InService(Return(id))], k, bound) && k.pool == j.pool
    ensures k.world == j.world.(uses := k.world.uses) && SameObjects(j.world, k.world) && Holds(k.world, obj, id)
    ensures Seen(k.world, obj) == Seen(j.world, obj).(releases := [Client])
    ensures k.world.uses[id].releases == [Client]
  {
    LeadsByOne(j, InService(Return(id)), bound);
    k := After(j, InService(Return(id)), bound);
    assert [] + [Client] == [Client];
  }

  // ---------------------------------------------------------------- cycles

  /** `k` requests have come and gone, each with the next object of the array. */
  predicate AtRest(j: Joint, size: nat, k: nat) {
    && j.pool == PoolLimits.Cycled(size, k) && |j.world.uses| == k
    && j.world.pc == Top && j.world.requests == {} && j.world.cursor == |j.world.queue|
    && forall obj :: obj in j.world.infos ==> obj.Pooled? && obj.index < k
  }

  /** Request `id` has just got the object. */
  predicate Handed(s: World, t: World, obj: PoolSteps.Obj, kind: Kind) {
    && t.pc == s.pc && t.requests == s.requests && t.cursor == s.cursor && t.queue == s.queue
    && t.connected == s.connected
    && t.infos.Keys == s.infos.Keys + {obj} && |t.uses| == |s.uses| + 1 && Holds(t, obj, |s.uses|)
    && t.infos[obj].text == (if obj in s.infos then s.infos[obj].text else "")
    && Seen(t, obj) == Req(kind, obj, false,
      obj in s.infos && s.infos[obj].wsi, obj in s.infos && s.infos[obj].completed,
      kind.Http() && obj in s.infos && s.infos[obj].shutdown, 0, [], [], [], 0)
  }

  lemma HandsOut(j: Joint, t: nat, obj: PoolSteps.Obj, kind: Kind, bound: nat) returns (k: Joint)
    requires PoolSteps.Formed(j.pool) && PoolSteps.Enabled(j.pool, PoolSteps.Load(t))
    requires PoolUse.Out(j.pool, PoolSteps.Load(t)) == [obj]
    ensures Leads(j, [InPool(PoolSteps.Load(t), kind)], k, bound)
    ensures k.pool == PoolSteps.Apply(j.pool, PoolSteps.Load(t)) && Handed(j.world, k.world, obj, kind)
  {
    hide PoolSteps.Apply;
    hide PoolUse.Out;
    LeadsByOne(j, InPool(PoolSteps.Load(t), kind), bound);
    k := After(j, InPool(PoolSteps.Load(t), kind), bound);
  }

  /** A step of the pool that hands out nothing. */
  lemma Quietly(j: Joint, ms: seq<Move>, k: Joint, a: PoolSteps.Action, q: PoolSteps.Pool, bound: nat)
    requires Leads(j, ms, k, bound)
    requires PoolSteps.Formed(k.pool) && PoolSteps.Enabled(k.pool, a) && PoolSteps.Bounded(k.pool, a, bound)
    requires a.Leave? ==> a.h < |k.world.uses| && k.world.uses[a.h].releases != []
    requires PoolSteps.Apply(k.pool, a) == q && q.handles == k.pool.handles
    ensures Leads(j, ms + [InPool(a, SyncHttp)], k.(pool := q), bound)
  {
    hide Leads;
    hide PoolSteps.Apply;
    OneMore(j, ms, k, InPool(a, SyncHttp), bound);
  }

  lemma Nothing(j: Joint, bound: nat)
    ensures Leads(j, [], j, bound)
  {
  }

  /** The object handed out next, and nothing else, is held. */
  function Holding(size: nat, k: nat): PoolSteps.Pool {
    PoolLimits.Cycled(size, k).(readCursor := k + 1, held := map[k := PoolSteps.Pooled(k)], handles := k + 1)
  }

  lemma Gets(j: Joint, size: nat, k: nat, bound: nat) returns (ms: seq<Move>, r: Joint)
    requires AtRest(j, size, k) && k + 1 < size && bound >= 1
    ensures Leads(j, ms, r, bound) && r.pool == Holding(size, k)
    ensures Handed(j.world, r.world, PoolSteps.Pooled(k), SyncHttp) && PoolSteps.Pooled(k) !in j.world.infos
  {
    PoolSteps.SmallCell(k, size);
    hide Cell;
    hide Handed;
    var p := PoolLimits.Cycled(size, k);
    var p1 := p.(inside := map[0 := PoolSteps.Checked]);
    var p2 := p.(inside := map[0 := PoolSteps.Ticketed(k)], readCursor := k + 1);
    assert PoolSteps.Apply(p, PoolSteps.Check(0)) == p1;
    assert PoolSteps.Apply(p1, PoolSteps.Ticket(0)) == p2;
    assert PoolSteps.Apply(p2, PoolSteps.Load(0)) == Holding(size, k);
    assert PoolUse.Out(p2, PoolSteps.Load(0)) == [PoolSteps.Pooled(k)];
    hide PoolSteps.Apply;
    hide PoolUse.Out;
    Nothing(j, bound);
    Quietly(j, [], j, PoolSteps.Check(0), p1, bound);
    ms := [] + [InPool(PoolSteps.Check(0), SyncHttp)];
    Quietly(j, ms, j.(pool := p1), PoolSteps.Ticket(0), p2, bound);
    ms := ms + [InPool(PoolSteps.Ticket(0), SyncHttp)];
    var last;
    r := HandsOut(j.(pool := p2), 0, PoolSteps.Pooled(k), SyncHttp, bound);
    last := [InPool(PoolSteps.Load(0), SyncHttp)];
    hide Leads;
    LeadsOn(j, ms, j.(pool := p2), last, r, bound);
    ms := ms + last;
  }

  lemma Releases(j: Joint, size: nat, k: nat, bound: nat) returns (ms: seq<Move>, r: Joint)
    requires j.pool == Holding(size, k) && k + 1 < size
    requires k < |j.world.uses| && j.world.uses[k].releases != []
    ensures Leads(j, ms, r, bound) && r == j.(pool := PoolLimits.Cycled(size, k + 1))
  {
    PoolSteps.SmallCell(k, size);
    hide Cell;
    var p, q := Holding(size, k), PoolLimits.Cycled(size, k + 1);
    var p1 := q.(releasing := map[k := PoolSteps.Leaver(k, k)]);
    assert PoolSteps.Apply(p, PoolSteps.Leave(k)) == p1;
    assert p1.index[k := k] == p1.index;
    assert PoolSteps.Apply(p1, PoolSteps.Store(k)) == q;
    hide PoolSteps.Apply;
    Nothing(j, bound);
    Quietly(j, [], j, PoolSteps.Leave(k), p1, bound);
    ms := [] + [InPool(PoolSteps.Leave(k), SyncHttp)];
    Quietly(j, ms, j.(pool := p1), PoolSteps.Store(k), q, bound);
    ms := ms + [InPool(PoolSteps.Store(k), SyncHttp)];
    r := j.(pool := q);
  }

  /** One more request comes and goes. */
  lemma CycleOnce(j: Joint, size: nat, k: nat, bound: nat) returns (ms: seq<Move>, r: Joint)
    requires AtRest(j, size, k) && k + 1 < size && bound >= 1
    ensures Leads(j, ms, r, bound) && AtRest(r, size, k + 1)
  {
    hide Leads;
    hide AnsweredOut;
    var obj := PoolSteps.Pooled(k);
    var a, j1 := Gets(j, size, k, bound);
    var b, j2 := Serve(j1, obj, k, "", bound);
    LeadsOn(j, a, j1, b, j2, bound);
    var j3 := GivesBack(j2, obj, k, bound);
    LeadsOn(j, a + b, j2, [InService(Return(k))], j3, bound);
    var d, j4 := Releases(j3, size, k, bound);
    var c := a + b + [InService(Return(k))];
    LeadsOn(j, c, j3, d, j4, bound);
    var e, j5 := Sweep(j4, obj, k, bound);
    LeadsOn(j, c + d, j4, e, j5, bound);
    ms, r := c + d + e, j5;
  }

  lemma {:induction false} CycleMany(size: nat, k: nat, bound: nat) returns (ms: seq<Move>, r: Joint)
    requires k < size && bound >= 1
    ensures Leads(Start(size), ms, r, bound) && AtRest(r, size, k)
  {
    if k == 0 {
      ms, r := [], Start(size);
    } else {
      hide AtRest;
      hide Leads;
      var a, j := CycleMany(size, k - 1, bound);
      var b;
      b, r := CycleOnce(j, size, k - 1, bound);
      LeadsOn(Start(size), a, j, b, r, bound);
      ms := a + b;
    }
  }

  // ---------------------------------------------------------------- two getters

  /** Two threads have the last two tickets. */
  function TwoTickets(size: nat): PoolSteps.Pool
    requires size >= 2
  {
    PoolLimits.Cycled(size, size - 2).(
      inside := map[0 := PoolSteps.Ticketed(size - 2), 1 := PoolSteps.Ticketed(size - 1)], readCursor := size)
  }

  /** The last one is used, the other one is not. */
  function OneTicket(size: nat): PoolSteps.Pool
    requires size >= 2
  {
    TwoTickets(size).(inside := map[0 := PoolSteps.Ticketed(size - 2)],
                      held := map[size - 2 := PoolSteps.Pooled(size - 1)], handles := size - 1)
  }

  /** The object is back, in the cell of the other ticket. */
  function InItsWay(size: nat): PoolSteps.Pool
    requires size >= 2
  {
    var p := OneTicket(size);
    p.(held := map[], writeCursor := size - 1,
       index := if |p.index| == size then p.index[size - 2 := size - 1] else p.index)
  }

  lemma TakeTickets(j: Joint, size: nat, bound: nat) returns (ms: seq<Move>, r: Joint)
    requires size >= 2 && bound >= 2 && AtRest(j, size, size - 2)
    ensures Leads(j, ms, r, bound) && r == j.(pool := TwoTickets(size))
  {
    var p, q := PoolLimits.Cycled(size, size - 2), TwoTickets(size);
    var p1 := p.(inside := map[0 := PoolSteps.Checked]);
    var p2 := p.(inside := map[0 := PoolSteps.Checked, 1 := PoolSteps.Checked]);
    var p3 := p.(inside := map[0 := PoolSteps.Ticketed(size - 2), 1 := PoolSteps.Checked], readCursor := size - 1);
    assert PoolSteps.Apply(p, PoolSteps.Check(0)) == p1;
    assert PoolSteps.Apply(p1, PoolSteps.Check(1)) == p2;
    assert PoolSteps.Apply(p2, PoolSteps.Ticket(0)) == p3;
    assert PoolSteps.Apply(p3, PoolSteps.Ticket(1)) == q;
    hide PoolSteps.Apply;
    Nothing(j, bound);
    Quietly(j, [], j, PoolSteps.Check(0), p1, bound);
    ms := [] + [InPool(PoolSteps.Check(0), SyncHttp)];
    Quietly(j, ms, j.(pool := p1), PoolSteps.Check(1), p2, bound);
    ms := ms + [InPool(PoolSteps.Check(1), SyncHttp)];
    Quietly(j, ms, j.(pool := p2), PoolSteps.Ticket(0), p3, bound);
    ms := ms + [InPool(PoolSteps.Ticket(0), SyncHttp)];
    Quietly(j, ms, j.(pool := p3), PoolSteps.Ticket(1), q, bound);
    ms := ms + [InPool(PoolSteps.Ticket(1), SyncHttp)];
    r := j.(pool := q);
  }

  lemma LastOut(j: Joint, size: nat, bound: nat) returns (r: Joint)
    requires size >= 2 && j.pool == TwoTickets(size)
    ensures Leads(j, [InPool(PoolSteps.Load(1), SyncHttp)], r, bound)
    ensures r.pool == OneTicket(size) && Handed(j.world, r.world, PoolSteps.Pooled(size - 1), SyncHttp)
  {
    PoolSteps.SmallCell(size - 1, size);
    hide Cell;
    hide Handed;
    assert PoolSteps.Apply(j.pool, PoolSteps.Load(1)) == OneTicket(size);
    r := HandsOut(j, 1, PoolSteps.Pooled(size - 1), SyncHttp, bound);
  }

  lemma BackInItsWay(j: Joint, size: nat, bound: nat) returns (ms: seq<Move>, r: Joint)
    requires size >= 2 && j.pool == OneTicket(size)
    requires size - 2 < |j.world.uses| && j.world.uses[size - 2].releases != []
    ensures Leads(j, ms, r, bound) && r == j.(pool := InItsWay(size))
  {
    PoolSteps.SmallCell(size - 2, size);
    hide Cell;
    var p, q, h: nat := OneTicket(size), InItsWay(size), size - 2;
    var p1 := p.(held := map[], writeCursor := size - 1, releasing := map[h := PoolSteps.Leaver(size - 1, size - 2)]);
    assert PoolSteps.Apply(p, PoolSteps.Leave(h)) == p1;
    assert PoolSteps.Apply(p1, PoolSteps.Store(h)) == q;
    hide PoolSteps.Apply;
    Nothing(j, bound);
    Quietly(j, [], j, PoolSteps.Leave(h), p1, bound);
    ms := [] + [InPool(PoolSteps.Leave(h), SyncHttp)];
    Quietly(j, ms, j.(pool := p1), PoolSteps.Store(h), q, bound);
    ms := ms + [InPool(PoolSteps.Store(h), SyncHttp)];
    r := j.(pool := q);
  }

  lemma OutAgain(j: Joint, size: nat, kind: Kind, bound: nat) returns (r: Joint)
    requires size >= 2 && j.pool == InItsWay(size)
    ensures Leads(j, [InPool(PoolSteps.Load(0), kind)], r, bound)
    ensures Handed(j.world, r.world, PoolSteps.Pooled(size - 1), kind)
  {
    PoolSteps.SmallCell(size - 2, size);
    hide Cell;
    hide Handed;
    var p := InItsWay(size);
    assert PoolSteps.Formed(p) && p.index[size - 2] == size - 1;
    assert PoolUse.Out(p, PoolSteps.Load(0)) == [PoolSteps.Pooled(size - 1)];
    r := HandsOut(j, 0, PoolSteps.Pooled(size - 1), kind, bound);
  }

  /**
   * A request has an object that a synchronous request has given back and that is still in
   * `requests_`: completed, with the other's response, and neither queued nor connected.
   */
  predicate Reused(s: World, obj: PoolSteps.Obj, id: nat, kind: Kind, text: string) {
    && s.pc == Serving && s.requests == {obj} && s.cursor == |s.queue| && Holds(s, obj, id)
    && s.infos[obj].text == text
    && Seen(s, obj) == Req(kind, obj, false, false, true, false, 0, [], [], [], 0)
  }

  lemma TwoGettersReuse(size: nat, bound: nat, kind: Kind, text: string) returns (ms: seq<Move>, r: Joint)
    requires size >= 2 && bound >= 2 && kind.Http()
    ensures Leads(Start(size), ms, r, bound) && Reused(r.world, PoolSteps.Pooled(size - 1), size - 1, kind, text)
  {
    hide Leads;
    var start, obj, first: nat := Start(size), PoolSteps.Pooled(size - 1), size - 2;
    var a, j1 := CycleMany(size, size - 2, bound);
    var b, j2 := TakeTickets(j1, size, bound);
    var j3 := LastOut(j2, size, bound);
    var d, j4 := Serve(j3, obj, first, text, bound);
    var j5 := GivesBack(j4, obj, first, bound);
    var e, j6 := BackInItsWay(j5, size, bound);
    r := OutAgain(j6, size, kind, bound);
    var l1, l2 := [InPool(PoolSteps.Load(1), SyncHttp)], [InService(Return(first))];
    var l3 := [InPool(PoolSteps.Load(0), kind)];
    LeadsOn(start, a, j1, b, j2, bound);
    LeadsOn(start, a + b, j2, l1, j3, bound);
    LeadsOn(start, a + b + l1, j3, d, j4, bound);
    LeadsOn(start, a + b + l1 + d, j4, l2, j5, bound);
    LeadsOn(start, a + b + l1 + d + l2, j5, e, j6, bound);
    LeadsOn(start, a + b + l1 + d + l2 + e, j6, l3, r, bound);
    ms := a + b + l1 + d + l2 + e + l3;
  }

  // ---------------------------------------------------------------- what goes wrong

  /** Its callback has run with `text`, and it is released; it was `times` connected. */
  predicate Wronged(s: World, obj: PoolSteps.Obj, id: nat, answers: seq<string>, releases: seq<Releaser>, times: nat) {
    && Holds(s, obj, id) && s.uses[id].kind == AsyncHttp(true)
    && s.uses[id].answers == answers && s.uses[id].releases == releases && s.uses[id].connects == times
  }

  /**
   * If the request is asynchronous, the sweep runs its callback with the response of the
   * other one and releases it, before it was ever queued; and does so again after it has
   * been connected and has come to its own end.
   */
  lemma ReusedObjectIsReleasedTwice(size: nat, bound: nat, text: string) returns (a: seq<Move>, b: seq<Move>)
    requires size >= 2 && bound >= 2
    ensures PooledRequests.Run(Start(size), a, bound) && PooledRequests.Run(Start(size), a + b, bound)
    ensures var obj, id := PoolSteps.Pooled(size - 1), size - 1;
      && Wronged(PooledRequests.Exec(Start(size), a, bound).world, obj, id, [text], [Service], 0)
      && Wronged(PooledRequests.Exec(Start(size), a + b, bound).world, obj, id,
                 [text] + [text], [Service] + [Service], 1)
  {
    hide Leads;
    var start, obj, id: nat := Start(size), PoolSteps.Pooled(size - 1), size - 1;
    var c, j := TwoGettersReuse(size, bound, AsyncHttp(true), text);
    var d, k := Sweep(j, obj, id, bound);
    LeadsOn(start, c, j, d, k, bound);
    var e, l := Serve(k, obj, id, "", bound);
    LeadsOn(start, c + d, k, e, l, bound);
    var f, m := Sweep(l, obj, id, bound);
    LeadsOn(start, c + d + e, l, f, m, bound);
    a, b := c + d, e + f;
    assert c + d + e + f == a + b;
    assert text + "" == text;
    IsExec(start, a, k, bound);
    IsExec(start, a + b, m, bound);
  }

  /** If it is synchronous, its caller can read the other's response, and give it back, while it is in the queue. */
  lemma ReusedObjectAnswersAtOnce(size: nat, bound: nat, text: string) returns (ms: seq<Move>, id: nat)
    requires size >= 2 && bound >= 2
    ensures PooledRequests.Run(Start(size), ms, bound)
    ensures var j := PooledRequests.Exec(Start(size), ms, bound);
      && Possible(j, InService(Return(id)), bound)
      && j.world.uses[id].connects == 0 && j.world.uses[id].heard == [] && j.world.uses[id].obj in j.world.queue
      && j.world.infos[j.world.uses[id].obj].text == text
  {
    var c, j := TwoGettersReuse(size, bound, SyncHttp, text);
    id := size - 1;
    OneMore(Start(size), c, j, InService(Enqueue(id)), bound);
    ms := c + [InService(Enqueue(id))];
    var s := After(j, InService(Enqueue(id)), bound).world;
    assert s.queue[|s.queue| - 1] == s.uses[id].obj;
  }

  /**
   * The bound is exact: over all runs, requests are connected, released and answered as
   * they should be if and only if calls of `get_obj` do not overlap, or there is but one object.
   */
  lemma OneGetterKeepsOrder(size: nat, bound: nat)
    requires size > 0
    ensures (forall ms | PooledRequests.Run(Start(size), ms, bound) ::
      AllOrderly(PooledRequests.Exec(Start(size), ms, bound).world)) <==> (bound <= 1 || size == 1)
  {
    if bound <= 1 || size == 1 {
      forall ms | PooledRequests.Run(Start(size), ms, bound)
        ensures AllOrderly(PooledRequests.Exec(Start(size), ms, bound).world)
      {
        OwnershipOverRuns(size, ms, bound);
      }
    } else {
      var a, b := ReusedObjectIsReleasedTwice(size, bound, "");
      assert !Orderly(PooledRequests.Exec(Start(size), a, bound).world, size - 1);
    }
  }

  /** The response a synchronous caller reads is what its own request has heard. */
  ghost predicate OwnResponses(s: World) {
    forall id: nat :: RequestObjects.Enabled(s, Return(id)) ==>
      s.infos[s.uses[id].obj].text == Concat(s.uses[id].heard)
  }

  /** And over all runs synchronous callers read their own responses under the same condition. */
  lemma OneGetterKeepsResponses(size: nat, bound: nat)
    requires size > 0
    ensures (forall ms | PooledRequests.Run(Start(size), ms, bound) ::
      OwnResponses(PooledRequests.Exec(Start(size), ms, bound).world)) <==> (bound <= 1 || size == 1)
  {
    if bound <= 1 || size == 1 {
      forall ms, id: nat | PooledRequests.Run(Start(size), ms, bound)
        && RequestObjects.Enabled(PooledRequests.Exec(Start(size), ms, bound).world, Return(id))
        ensures var s := PooledRequests.Exec(Start(size), ms, bound).world;
          s.infos[s.uses[id].obj].text == Concat(s.uses[id].heard)
      {
        ResponseIsOwnText(size, ms, bound, id);
      }
    } else {
      var ms, id := ReusedObjectAnswersAtOnce(size, bound, "a");
      var s := PooledRequests.Exec(Start(size), ms, bound).world;
      assert RequestObjects.Enabled(s, Return(id));
    }
  }
}
