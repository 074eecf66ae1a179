/**
 * Pool and requests together: `get_obj` and `release_obj` are run by clients and by the
 * service, step by step, while requests come and go in the objects handed out. The promises
 * of the life cycle hold exactly as long as calls of `get_obj` do not overlap.
 */
module PooledRequests {
  import PoolSteps
  import PoolUse
  import PoolLimits
  import opened Requests
  import opened RequestObjects
  import opened RequestTexts

  datatype Joint = Joint(pool: PoolSteps.Pool, world: World)

  /** A step inside the pool, with what the object is for if it is handed out, or one of a request. */
  datatype Move = InPool(a: PoolSteps.Action, kind: Kind) | InService(b: RequestObjects.Action)

  /** The pool's handles are the numbers of the requests: both count what was handed out. */
  function Start(size: nat): Joint {
    Joint(PoolSteps.Init(size), NOTHING)
  }

  /** `release_obj` begins only after somebody has decided to release the request. */
  predicate Possible(j: Joint, m: Move, bound: nat) {
    match m
    case InPool(a, _) =>
      && PoolSteps.Formed(j.pool) && PoolSteps.Enabled(j.pool, a) && PoolSteps.Bounded(j.pool, a, bound)
      && (a.Leave? ==> a.h < |j.world.uses| && j.world.uses[a.h].releases != [])
    case InService(b) => !b.Alloc? && RequestObjects.Enabled(j.world, b)
  }

  function After(j: Joint, m: Move, bound: nat): Joint
    requires Possible(j, m, bound)
  {
    match m
    case InPool(a, kind) =>
      var out := PoolUse.Out(j.pool, a);
      Joint(PoolSteps.Apply(j.pool, a),
            if out == [] then j.world else RequestObjects.Apply(j.world, Alloc(kind, out[0])))
    case InService(b) => j.(world := RequestObjects.Apply(j.world, b))
  }

  predicate Run(j: Joint, ms: seq<Move>, bound: nat)
    decreases |ms|
  {
    ms == [] || (Possible(j, ms[0], bound) && Run(After(j, ms[0], bound), ms[1..], bound))
  }

  function Exec(j: Joint, ms: seq<Move>, bound: nat): Joint
    requires Run(j, ms, bound)
    decreases |ms|
  {
    if ms == [] then j else Exec(After(j, ms[0], bound), ms[1..], bound)
  }

  // ---------------------------------------------------------------- one getter

  /** Every object handed out is new, and `t` shows the requests by themselves. */
  ghost predicate Sound(j: Joint, t: Requests.State) {
    && PoolUse.Alone(j.pool) && |j.world.uses| == j.pool.handles
    && (forall id :: 0 <= id < |j.world.uses| ==> j.world.uses[id].obj == PoolUse.Nth(j.pool.size, id))
    && Agree(j.world, t) && Requests.Inv(t) && OwnTexts(t)
  }

  lemma SoundInit(size: nat)
    requires size > 0
    ensures Sound(Start(size), EMPTY)
  {
    PoolUse.AloneInit(size);
    AgreeInit();
    hide PoolUse.Alone;
    hide Agree;
  }

  /** The next object in order is not one of those before. */
  lemma NextIsNew(j: Joint, t: Requests.State)
    requires Sound(j, t)
    ensures PoolUse.Nth(j.pool.size, j.pool.handles) !in j.world.infos
  {
    hide Requests.Inv;
    hide OwnTexts;
    var obj := PoolUse.Nth(j.pool.size, j.pool.handles);
    if obj in j.world.infos {
      assert Own(j.world);
      PoolUse.NthDiffer(j.pool.size, j.world.infos[obj].owner, j.pool.handles);
    }
  }

  lemma NewIsFresh(s: World, t: Requests.State, a: RequestObjects.Action)
    requires Agree(s, t) && RequestObjects.Enabled(s, a) && (a.Alloc? ==> a.obj !in s.infos)
    ensures Requests.Enabled(t, RequestObjects.Alone(s, a)) ==> FreshAlloc(t, RequestObjects.Alone(s, a))
  {
    hide SameStage;
    hide SameSet;
    hide SameTexts;
    hide SameConnected;
    hide SameQueue;
    if a.Alloc? {
      forall id | 0 <= id < |t.reqs|
        ensures t.reqs[id].obj != a.obj
      {
        assert t.reqs[id] == Seen(s, s.uses[id].obj);
      }
    }
  }

  /** What a move does to the requests by themselves. */
  function Mirror(j: Joint, m: Move, bound: nat): seq<Requests.Action>
    requires Possible(j, m, bound)
  {
    match m
    case InPool(a, kind) =>
      var out := PoolUse.Out(j.pool, a);
      if out == [] then [] else [Alloc(kind, out[0])]
    case InService(b) => [RequestObjects.Alone(j.world, b)]
  }

  lemma ObjectsSeen(s: World, t: Requests.State)
    requires Agree(s, t)
    ensures |Objects(t.reqs)| == |s.uses| && forall id :: 0 <= id < |s.uses| ==> Objects(t.reqs)[id] == s.uses[id].obj
  {
    hide SameStage;
    hide SameSet;
    hide SameTexts;
    hide SameConnected;
    hide SameQueue;
  }

  /** A step of a request that is new, or has its object already. */
  lemma SoundStep(s: World, t: Requests.State, a: RequestObjects.Action)
    requires Agree(s, t) && Requests.Inv(t) && OwnTexts(t)
    requires RequestObjects.Enabled(s, a) && (a.Alloc? ==> a.obj !in s.infos)
    ensures var b, r := RequestObjects.Alone(s, a), RequestObjects.Apply(s, a);
      && Requests.Enabled(t, b)
      && Agree(r, Requests.Apply(t, b)) && Requests.Inv(Requests.Apply(t, b)) && OwnTexts(Requests.Apply(t, b))
      && |r.uses| == |s.uses| + (if a.Alloc? then 1 else 0)
      && (forall id :: 0 <= id < |s.uses| ==> r.uses[id].obj == s.uses[id].obj)
      && (a.Alloc? ==> r.uses[|s.uses|].obj == a.obj)
  {
    hide Agree;
    hide Requests.Inv;
    hide OwnTexts;
    hide FreshAlloc;
    hide RequestObjects.Apply;
    hide RequestObjects.Enabled;
    hide Requests.Apply;
    var b := RequestObjects.Alone(s, a);
    StepsAlone(s, t, a);
    NewIsFresh(s, t, a);
    OwnTextsKept(t, b);
    ObjectsGrow(t, b);
    ObjectsSeen(s, t);
    ObjectsSeen(RequestObjects.Apply(s, a), Requests.Apply(t, b));
    hide Objects;
  }

  lemma SoundKept(j: Joint, t: Requests.State, m: Move, bound: nat)
    requires Sound(j, t) && Possible(j, m, bound) && (bound <= 1 || j.pool.size == 1)
    ensures Requests.Run(t, Mirror(j, m, bound))
    ensures Sound(After(j, m, bound), Requests.Exec(t, Mirror(j, m, bound)))
    ensures After(j, m, bound).pool.size == j.pool.size
  {
    hide PoolUse.Alone;
    hide PoolUse.Nth;
    hide PoolUse.Out;
    hide PoolSteps.Apply;
    hide Agree;
    hide Requests.Inv;
    hide OwnTexts;
    hide Requests.Apply;
    hide RequestObjects.Alone;
    var mirror := Mirror(j, m, bound);
    match m
    case InPool(a, kind) =>
      PoolUse.AloneKept(j.pool, a, bound);
      var out := PoolUse.Out(j.pool, a);
      if out != [] {
        NextIsNew(j, t);
        SoundStep(j.world, t, Alloc(kind, out[0]));
        AloneAlloc(j.world, kind, out[0]);
        RunOfOne(t, mirror[0]);
      }
    case InService(b) =>
      SoundStep(j.world, t, b);
      RunOfOne(t, mirror[0]);
  }

  lemma AloneAlloc(s: World, kind: Kind, obj: PoolSteps.Obj)
    ensures RequestObjects.Enabled(s, Alloc(kind, obj))
    ensures RequestObjects.Alone(s, Alloc(kind, obj)) == Alloc(kind, obj)
  {
  }

  lemma RunOfOne(t: Requests.State, a: Requests.Action)
    requires Requests.Enabled(t, a)
    ensures Requests.Run(t, [a]) && Requests.Exec(t, [a]) == Requests.Apply(t, a)
  {
    hide Requests.Enabled;
    hide Requests.Apply;
    assert [a][1..] == [];
    assert Requests.Run(Requests.Apply(t, a), []);
  }

  lemma {:induction false} RunThen(t: Requests.State, a: seq<Requests.Action>, b: seq<Requests.Action>)
    requires Requests.Run(t, a) && Requests.Run(Requests.Exec(t, a), b)
    ensures Requests.Run(t, a + b) && Requests.Exec(t, a + b) == Requests.Exec(Requests.Exec(t, a), b)
    decreases |a|
  {
    hide Requests.Enabled;
    hide Requests.Apply;
    if a == [] {
      assert a + b == b;
    } else {
      assert (a + b)[1..] == a[1..] + b;
      RunThen(Requests.Apply(t, a[0]), a[1..], b);
    }
  }

  /** The moves of a run as steps of requests by themselves. */
  function Mirrored(j: Joint, ms: seq<Move>, bound: nat): seq<Requests.Action>
    requires Run(j, ms, bound)
    decreases |ms|
  {
    if ms == [] then [] else Mirror(j, ms[0], bound) + Mirrored(After(j, ms[0], bound), ms[1..], bound)
  }

  /**
   * With calls of `get_obj` one at a time, every run, however the steps of the pool and of
   * the requests interleave, is a run of requests that have objects of their own.
   */
  lemma {:induction false} SoundAlways(j: Joint, t: Requests.State, ms: seq<Move>, bound: nat)
    requires Sound(j, t) && Run(j, ms, bound) && (bound <= 1 || j.pool.size == 1)
    ensures Requests.Run(t, Mirrored(j, ms, bound))
    ensures Sound(Exec(j, ms, bound), Requests.Exec(t, Mirrored(j, ms, bound)))
    ensures Exec(j, ms, bound).pool.size == j.pool.size
    decreases |ms|
  {
    hide Sound;
    hide Possible;
    hide After;
    hide Mirror;
    if ms != [] {
      SoundKept(j, t, ms[0], bound);
      var first := Mirror(j, ms[0], bound);
      SoundAlways(After(j, ms[0], bound), Requests.Exec(t, first), ms[1..], bound);
      RunThen(t, first, Mirrored(After(j, ms[0], bound), ms[1..], bound));
    }
  }

  // ---------------------------------------------------------------- what callers are promised

  /** The service is done with the object: out of `requests_`, or released and about to be taken out. */
  predicate DoneWith(s: World, obj: PoolSteps.Obj) {
    obj !in s.requests || (s.pc.Answered? && s.pc.id == obj)
  }

  /**
   * A request is connected at most once, and released at most once: a synchronous one by
   * its client, after completion, one the service owns exactly when it was connected and
   * the service is done with it, and one without a callback by nobody. Its callback runs at
   * most once, and gets the concatenation of what the request itself had heard by then.
   */
  ghost predicate Orderly(s: World, id: nat)
    requires id < |s.uses|
  {
    var u := s.uses[id];
    && u.connects <= 1 && |u.releases| <= 1 && (u.connects == 1 <==> u.obj in s.queue[..Min(s.cursor, |s.queue|)])
    && (Client in u.releases ==> u.kind == SyncHttp && u.connects == 1 && u.obj in s.infos && s.infos[u.obj].completed)
    && (Service in u.releases ==> u.kind in {AsyncHttp(true), Ws, Raw})
    && (u.kind in {AsyncHttp(true), Ws, Raw} ==> (u.releases == [Service] <==> u.connects == 1 && DoneWith(s, u.obj)))
    && (u.answers != [] ==>
      && u.kind == AsyncHttp(true) && u.releases == [Service] && u.told <= |u.heard|
      && u.answers == [Concat(u.heard[..u.told])])
  }

  /** And they are connected in the order of the queue, which has none of them twice. */
  ghost predicate AllOrderly(s: World) {
    && (forall i, j :: 0 <= i < j < |s.queue| ==> s.queue[i] != s.queue[j])
    && forall id :: 0 <= id < |s.uses| ==> Orderly(s, id)
  }

  function Min(a: nat, b: nat): nat {
    if a < b then a else b
  }

  lemma ConnectedInOrder(s: World, t: Requests.State, id: nat)
    requires Agree(s, t) && Requests.Inv(t) && id < |s.uses|
    ensures s.cursor <= |s.queue|
    ensures s.uses[id].connects == 1 <==> s.uses[id].obj in s.queue[..s.cursor]
  {
    hide SameStage;
    hide SameSet;
    hide SameTexts;
    hide SameConnected;
    hide NoRepeats;
    var done := s.queue[..s.cursor];
    if s.uses[id].obj in done {
      var i :| 0 <= i < |done| && done[i] == s.uses[id].obj;
      assert s.uses[t.queue[i]].obj == s.uses[id].obj && t.connected[i] == t.queue[i];
    }
    if id in t.connected {
      var i :| 0 <= i < |t.connected| && t.connected[i] == id;
      assert t.queue[i] == id && done[i] == s.uses[id].obj;
    }
  }

  lemma QueuedOnce(s: World, t: Requests.State)
    requires Agree(s, t) && Requests.Inv(t)
    ensures forall i, j :: 0 <= i < j < |s.queue| ==> s.queue[i] != s.queue[j]
  {
    hide SameStage;
    hide SameSet;
    hide SameTexts;
    hide SameConnected;
    hide SameReqs;
    assert NoRepeats(t.queue);
    hide Requests.Inv;
  }

  lemma DoneWithOne(s: World, t: Requests.State, id: nat)
    requires Agree(s, t) && id < |s.uses|
    ensures DoneWith(s, s.uses[id].obj) <==> Gone(t, id)
    ensures s.uses[id].obj in s.requests <==> id in t.active
  {
    hide SameTexts;
    hide SameConnected;
    hide SameQueue;
    hide SameReqs;
    assert s.infos[s.uses[id].obj].owner == id;
  }

  lemma OneRequest(t: Requests.State, id: nat)
    requires Requests.Inv(t) && OwnTexts(t) && id < |t.reqs|
    ensures var r := t.reqs[id];
      && r.connects <= 1 && ReleasedRight(r, Gone(t, id)) && Told(r) && TextOf(t, r.obj) == Concat(r.heard)
  {
    hide NoRepeats;
    hide ReleasedRight;
    hide Told;
    hide Concat;
  }

  lemma SeenAlone(s: World, t: Requests.State, id: nat)
    requires Agree(s, t) && id < |s.uses|
    ensures var obj := s.uses[id].obj;
      && Known(s, obj) && s.infos[obj].owner == id && id < |t.reqs| && t.reqs[id] == Seen(s, obj)
      && TextOf(t, obj) == s.infos[obj].text
  {
    hide SameStage;
    hide SameSet;
    hide SameConnected;
    hide SameQueue;
  }

  lemma SoundIsOrderly(j: Joint, t: Requests.State)
    requires Sound(j, t)
    ensures AllOrderly(j.world)
  {
    hide Agree;
    hide Requests.Inv;
    hide OwnTexts;
    hide Concat;
    QueuedOnce(j.world, t);
    forall id | 0 <= id < |j.world.uses|
      ensures Orderly(j.world, id)
    {
      SeenAlone(j.world, t, id);
      OneRequest(t, id);
      DoneWithOne(j.world, t, id);
      ConnectedInOrder(j.world, t, id);
      hide Gone;
      hide DoneWith;
    }
  }

  /** All runs as long as calls of `get_obj` do not overlap. */
  lemma OwnershipOverRuns(size: nat, ms: seq<Move>, bound: nat)
    requires size > 0 && Run(Start(size), ms, bound) && (bound <= 1 || size == 1)
    ensures AllOrderly(Exec(Start(size), ms, bound).world)
  {
    hide Sound;
    SoundInit(size);
    SoundAlways(Start(size), EMPTY, ms, bound);
    SoundIsOrderly(Exec(Start(size), ms, bound), Requests.Exec(EMPTY, Mirrored(Start(size), ms, bound)));
  }

  /**
   * Asynchronous completion: in every order of events and of the steps of the pool, the
   * callback of a request runs at most once, and the text it gets is the concatenation of
   * what that request itself had heard up to the sweep.
   */
  lemma CallbackGetsOwnText(size: nat, ms: seq<Move>, bound: nat, id: nat)
    requires size > 0 && Run(Start(size), ms, bound) && (bound <= 1 || size == 1)
    requires id < |Exec(Start(size), ms, bound).world.uses|
    ensures var u := Exec(Start(size), ms, bound).world.uses[id];
      && |u.answers| <= 1
      && (u.answers != [] ==>
        && u.kind == AsyncHttp(true) && u.releases == [Service] && u.told <= |u.heard|
        && u.answers == [Concat(u.heard[..u.told])])
  {
    hide Run;
    hide Exec;
    hide Concat;
    OwnershipOverRuns(size, ms, bound);
    assert Orderly(Exec(Start(size), ms, bound).world, id);
  }

  lemma ResponseBySound(j: Joint, t: Requests.State, id: nat, bound: nat)
    requires Sound(j, t) && Possible(j, InService(Return(id)), bound)
    ensures var s := j.world;
      s.infos[s.uses[id].obj].text == Concat(s.uses[id].heard) && s.uses[id].connects == 1
  {
    hide PoolUse.Alone;
    hide Agree;
    hide OwnTexts;
    hide Requests.Inv;
    hide ReleasedRight;
    hide Told;
    hide Concat;
    SeenAlone(j.world, t, id);
    OneRequest(t, id);
    CompletedWasConnected(t, id);
  }

  /** What a synchronous caller reads when it gives its request back is what that request has heard. */
  lemma ResponseIsOwnText(size: nat, ms: seq<Move>, bound: nat, id: nat)
    requires size > 0 && Run(Start(size), ms, bound) && (bound <= 1 || size == 1)
    requires Possible(Exec(Start(size), ms, bound), InService(Return(id)), bound)
    ensures var s := Exec(Start(size), ms, bound).world;
      s.infos[s.uses[id].obj].text == Concat(s.uses[id].heard) && s.uses[id].connects == 1
  {
    hide Sound;
    hide After;
    hide Concat;
    hide Run;
    hide Exec;
    SoundInit(size);
    SoundAlways(Start(size), EMPTY, ms, bound);
    var t := Requests.Exec(EMPTY, Mirrored(Start(size), ms, bound));
    ResponseBySound(Exec(Start(size), ms, bound), t, id, bound);
  }

  lemma CompletedWasConnected(t: Requests.State, id: nat)
    requires Requests.Inv(t) && id < |t.reqs| && t.reqs[id].completed
    ensures t.reqs[id].connects == 1
  {
    hide NoRepeats;
  }

  /** The request has been completed in the object its client looks at. */
  predicate Complete(s: World, id: nat) {
    id < |s.uses| && s.uses[id].obj in s.infos && s.infos[s.uses[id].obj].completed
  }

  lemma CompletedBySound(j: Joint, t: Requests.State, m: Move, id: nat, bound: nat)
    requires Sound(j, t) && Possible(j, m, bound) && (bound <= 1 || j.pool.size == 1) && id < |j.world.uses|
    requires !Complete(j.world, id) && Complete(After(j, m, bound).world, id)
    ensures var s := After(j, m, bound).world;
      && s.uses[id].obj in s.requests && s.uses[id].kind.Http()
      && (s.uses[id].kind == SyncHttp ==> Possible(After(j, m, bound), InService(Return(id)), bound))
  {
    hide PoolUse.Alone;
    hide Agree;
    hide OwnTexts;
    hide Requests.Inv;
    hide Requests.Apply;
    hide RequestObjects.Apply;
    SoundKept(j, t, m, bound);
    var mirror := Mirror(j, m, bound);
    var u := Requests.Exec(t, mirror);
    var k := After(j, m, bound);
    SeenAlone(j.world, t, id);
    SeenAlone(k.world, u, id);
    assert mirror != [];
    RunOfOne(t, mirror[0]);
    CompletedWhileActive(t, mirror[0], id);
    OneRequest(t, id);
    CompletedWasConnected(u, id);
    ConnectedWasQueued(u, id);
    DoneWithOne(k.world, u, id);
    if u.reqs[id].kind == SyncHttp {
      NotReturned(u, id);
    }
    OneRequest(u, id);
  }

  /**
   * There is no safe moment for a synchronous caller to give its request back. In every
   * run, whenever a request becomes completed, be it by an event or by the sweep, it is
   * still in `requests_`; and at once its caller, who sees nothing else, may release it.
   */
  lemma CompletedIsNeverSafe(size: nat, ms: seq<Move>, m: Move, id: nat, bound: nat)
    requires size > 0 && Run(Start(size), ms, bound) && (bound <= 1 || size == 1)
    requires Possible(Exec(Start(size), ms, bound), m, bound) && id < |Exec(Start(size), ms, bound).world.uses|
    requires !Complete(Exec(Start(size), ms, bound).world, id)
    requires Complete(After(Exec(Start(size), ms, bound), m, bound).world, id)
    ensures var j := After(Exec(Start(size), ms, bound), m, bound);
      && j.world.uses[id].obj in j.world.requests && j.world.uses[id].kind.Http()
      && (j.world.uses[id].kind == SyncHttp ==> Possible(j, InService(Return(id)), bound))
  {
    hide Sound;
    hide Possible;
    hide After;
    hide Complete;
    SoundInit(size);
    SoundAlways(Start(size), EMPTY, ms, bound);
    var t := Requests.Exec(EMPTY, Mirrored(Start(size), ms, bound));
    CompletedBySound(Exec(Start(size), ms, bound), t, m, id, bound);
  }

  /** From `StartSweep` to the first `EndSweep`; clients and pool may go on meanwhile. */
  predicate WholeSweep(ms: seq<Move>) {
    && ms != [] && ms[|ms| - 1] == InService(EndSweep)
    && forall i :: 0 <= i < |ms| - 1 ==> ms[i] != InService(EndSweep)
  }

  lemma MirrorOfSweep(j: Joint, m: Move, bound: nat)
    requires Possible(j, m, bound)
    ensures m == InService(EndSweep) ==> Mirror(j, m, bound) == [EndSweep]
    ensures m != InService(EndSweep) ==> EndSweep !in Mirror(j, m, bound)
  {
  }

  lemma {:induction false} SweepMirrored(j: Joint, ms: seq<Move>, bound: nat)
    requires Run(j, ms, bound) && WholeSweep(ms)
    ensures SweepRun(Mirrored(j, ms, bound))
    decreases |ms|
  {
    hide After;
    hide Possible;
    hide Mirror;
    MirrorOfSweep(j, ms[0], bound);
    if |ms| == 1 {
      assert ms[1..] == [];
    } else {
      SweepMirrored(After(j, ms[0], bound), ms[1..], bound);
    }
  }

  lemma SweepBySound(j: Joint, t: Requests.State, ms: seq<Move>, id: nat, bound: nat)
    requires Sound(j, t) && (bound <= 1 || j.pool.size == 1)
    requires Run(j, [InService(StartSweep)] + ms, bound) && WholeSweep(ms)
    requires id < |j.world.uses| && Known(j.world, j.world.uses[id].obj)
    requires j.world.uses[id].obj in j.world.requests && !j.world.infos[j.world.uses[id].obj].wsi
    requires j.world.uses[id].kind.Http() || j.world.infos[j.world.uses[id].obj].shutdown
    ensures var s := Exec(j, [InService(StartSweep)] + ms, bound).world;
      && id < |s.uses| && s.uses[id].obj !in s.requests
      && (j.world.uses[id].kind == AsyncHttp(true) ==> |s.uses[id].answers| == 1)
      && (j.world.uses[id].kind in {AsyncHttp(true), Ws, Raw} ==> s.uses[id].releases == [Service])
  {
    hide PoolUse.Alone;
    hide Agree;
    hide OwnTexts;
    hide Requests.Inv;
    var all := [InService(StartSweep)] + ms;
    assert all[0] == InService(StartSweep) && all[1..] == ms;
    SoundAlways(j, t, all, bound);
    var k := After(j, all[0], bound);
    SweepMirrored(k, ms, bound);
    var acts := Mirrored(k, ms, bound);
    assert Mirrored(j, all, bound) == [StartSweep] + acts;
    SeenAlone(j.world, t, id);
    DoneWithOne(j.world, t, id);
    ServingAlone(j.world, t);
    SweepCompletes(t, acts, id);
    var u := Requests.Exec(t, [StartSweep] + acts);
    HeadSeen(Exec(j, all, bound).world, u);
    SeenAlone(Exec(j, all, bound).world, u, id);
    DoneWithOne(Exec(j, all, bound).world, u, id);
  }

  /**
   * Once the `wsi` of a request in `requests_` is null (for a socket: and its client has
   * stopped), the next sweep, when it ends, has taken it out, told its callback exactly
   * once and released it.
   */
  lemma SweepFinishes(size: nat, before: seq<Move>, ms: seq<Move>, id: nat, bound: nat)
    requires size > 0 && Run(Start(size), before, bound) && (bound <= 1 || size == 1) && WholeSweep(ms)
    requires Run(Exec(Start(size), before, bound), [InService(StartSweep)] + ms, bound)
    requires var s := Exec(Start(size), before, bound).world;
      && id < |s.uses| && Known(s, s.uses[id].obj) && s.uses[id].obj in s.requests
      && !s.infos[s.uses[id].obj].wsi && (s.uses[id].kind.Http() || s.infos[s.uses[id].obj].shutdown)
    ensures var j := Exec(Start(size), before, bound);
      var s := Exec(j, [InService(StartSweep)] + ms, bound).world;
      && id < |s.uses| && s.uses[id].obj !in s.requests
      && (j.world.uses[id].kind == AsyncHttp(true) ==> |s.uses[id].answers| == 1)
      && (j.world.uses[id].kind in {AsyncHttp(true), Ws, Raw} ==> s.uses[id].releases == [Service])
  {
    hide Sound;
    hide Run;
    hide Exec;
    SoundInit(size);
    SoundAlways(Start(size), EMPTY, before, bound);
    var t := Requests.Exec(EMPTY, Mirrored(Start(size), before, bound));
    SweepBySound(Exec(Start(size), before, bound), t, ms, id, bound);
  }

  lemma StopMirrored(j: Joint, m: Move, bound: nat, id: nat)
    requires Possible(j, m, bound) && m != InService(Stop(id))
    ensures Stop(id) !in Mirror(j, m, bound)
  {
  }

  lemma {:induction false} StopsMirrored(j: Joint, ms: seq<Move>, bound: nat, id: nat)
    requires Run(j, ms, bound) && InService(Stop(id)) !in ms
    ensures Stop(id) !in Mirrored(j, ms, bound)
    decreases |ms|
  {
    hide After;
    hide Possible;
    hide Mirror;
    if ms != [] {
      StopMirrored(j, ms[0], bound, id);
      StopsMirrored(After(j, ms[0], bound), ms[1..], bound, id);
    }
  }

  lemma LiveBySound(j: Joint, t: Requests.State, ms: seq<Move>, id: nat, bound: nat)
    requires Sound(j, t) && (bound <= 1 || j.pool.size == 1)
    requires Run(j, [InService(StartSweep)] + ms, bound) && WholeSweep(ms)
    requires id < |j.world.uses| && Known(j.world, j.world.uses[id].obj)
    requires j.world.uses[id].obj in j.world.requests
    requires var o := j.world.infos[j.world.uses[id].obj];
      o.wsi || (!j.world.uses[id].kind.Http() && !o.shutdown && InService(Stop(id)) !in ms)
    ensures var s, t := j.world, Exec(j, [InService(StartSweep)] + ms, bound).world;
      && id < |t.uses| && t.uses[id].obj == s.uses[id].obj && t.uses[id].obj in t.requests && Known(t, t.uses[id].obj)
      && t.infos[t.uses[id].obj].wsi == s.infos[s.uses[id].obj].wsi
      && t.infos[t.uses[id].obj].completed == s.infos[s.uses[id].obj].completed
      && t.uses[id].answers == s.uses[id].answers
      && (Service in t.uses[id].releases <==> Service in s.uses[id].releases)
  {
    hide PoolUse.Alone;
    hide PoolUse.Nth;
    hide Agree;
    hide OwnTexts;
    hide Requests.Inv;
    var all := [InService(StartSweep)] + ms;
    assert all[0] == InService(StartSweep) && all[1..] == ms;
    SoundAlways(j, t, all, bound);
    var k := After(j, all[0], bound);
    SweepMirrored(k, ms, bound);
    var acts := Mirrored(k, ms, bound);
    assert Mirrored(j, all, bound) == [StartSweep] + acts;
    SeenAlone(j.world, t, id);
    DoneWithOne(j.world, t, id);
    ServingAlone(j.world, t);
    if InService(Stop(id)) !in ms {
      StopsMirrored(k, ms, bound, id);
    }
    SweepLeavesLive(t, acts, id);
    var u := Requests.Exec(t, [StartSweep] + acts);
    var w := Exec(j, all, bound).world;
    HeadSeen(w, u);
    SeenAlone(w, u, id);
    DoneWithOne(w, u, id);
  }

  /**
   * And a request in `requests_` that has a `wsi`, or a socket whose client does not stop,
   * is still there after the sweep: not marked, not answered, not released by the service.
   */
  lemma SweepLeavesLiveObjects(size: nat, before: seq<Move>, ms: seq<Move>, id: nat, bound: nat)
    requires size > 0 && Run(Start(size), before, bound) && (bound <= 1 || size == 1) && WholeSweep(ms)
    requires Run(Exec(Start(size), before, bound), [InService(StartSweep)] + ms, bound)
    requires var s := Exec(Start(size), before, bound).world;
      && id < |s.uses| && Known(s, s.uses[id].obj) && s.uses[id].obj in s.requests
      && var o := s.infos[s.uses[id].obj];
         o.wsi || (!s.uses[id].kind.Http() && !o.shutdown && InService(Stop(id)) !in ms)
    ensures var j := Exec(Start(size), before, bound);
      var s, t := j.world, Exec(j, [InService(StartSweep)] + ms, bound).world;
      && id < |t.uses| && t.uses[id].obj == s.uses[id].obj && t.uses[id].obj in t.requests && Known(t, t.uses[id].obj)
      && t.infos[t.uses[id].obj].wsi == s.infos[s.uses[id].obj].wsi
      && t.infos[t.uses[id].obj].completed == s.infos[s.uses[id].obj].completed
      && t.uses[id].answers == s.uses[id].answers
      && (Service in t.uses[id].releases <==> Service in s.uses[id].releases)
  {
    hide Sound;
    hide Run;
    hide Exec;
    SoundInit(size);
    SoundAlways(Start(size), EMPTY, before, bound);
    var t := Requests.Exec(EMPTY, Mirrored(Start(size), before, bound));
    LiveBySound(Exec(Start(size), before, bound), t, ms, id, bound);
  }

  lemma ServingAlone(s: World, t: Requests.State)
    requires Agree(s, t) && s.pc == Serving
    ensures t.pc == Serving
  {
  }

  // ---------------------------------------------------------------- never released

  predicate NoneReleased(s: World) {
    forall id :: 0 <= id < |s.uses| && s.uses[id].kind == AsyncHttp(false) ==> s.uses[id].releases == []
  }

  lemma NoneReleasedStep(s: World, a: RequestObjects.Action)
    requires RequestObjects.Enabled(s, a) && NoneReleased(s)
    ensures NoneReleased(RequestObjects.Apply(s, a))
  {
    if a.Happen? {
      HearLeaves(Seen(s, a.id), a.e);
      hide Hear;
      hide Said;
    }
  }

  lemma NoneReleasedMove(j: Joint, m: Move, bound: nat)
    requires Possible(j, m, bound) && NoneReleased(j.world)
    ensures NoneReleased(After(j, m, bound).world)
  {
    hide NoneReleased;
    hide RequestObjects.Apply;
    hide PoolSteps.Apply;
    hide PoolUse.Out;
    match m
    case InPool(a, kind) =>
      var out := PoolUse.Out(j.pool, a);
      if out != [] {
        AloneAlloc(j.world, kind, out[0]);
        NoneReleasedStep(j.world, Alloc(kind, out[0]));
      }
    case InService(b) => NoneReleasedStep(j.world, b);
  }

  lemma {:induction false} NoneReleasedAlways(j: Joint, ms: seq<Move>, bound: nat)
    requires Run(j, ms, bound) && NoneReleased(j.world)
    ensures NoneReleased(Exec(j, ms, bound).world)
    decreases |ms|
  {
    hide NoneReleased;
    hide Possible;
    hide After;
    if ms != [] {
      NoneReleasedMove(j, ms[0], bound);
      NoneReleasedAlways(After(j, ms[0], bound), ms[1..], bound);
    }
  }

  /** A request whose asynchronous caller passed no callback is never given back, in whatever run. */
  lemma NoCallbackNoRelease(size: nat, ms: seq<Move>, bound: nat, id: nat)
    requires Run(Start(size), ms, bound) && id < |Exec(Start(size), ms, bound).world.uses|
    ensures var u := Exec(Start(size), ms, bound).world.uses[id];
      u.kind == AsyncHttp(false) ==> u.releases == []
  {
    NoneReleasedAlways(Start(size), ms, bound);
  }

  // ---------------------------------------------------------------- only when over

  /** What the sweep has taken on has no `wsi`. */
  predicate TakenIsDown(s: World) {
    s.pc.Marked? || s.pc.Answered? ==> s.pc.id in s.infos && !s.infos[s.pc.id].wsi
  }

  lemma TakenIsDownStep(s: World, a: RequestObjects.Action)
    requires RequestObjects.Enabled(s, a) && TakenIsDown(s)
    ensures TakenIsDown(RequestObjects.Apply(s, a))
  {
    if a.Happen? {
      HearLeaves(Seen(s, a.id), a.e);
      hide Hear;
      hide Said;
    }
  }

  lemma TakenIsDownMove(j: Joint, m: Move, bound: nat)
    requires Possible(j, m, bound) && TakenIsDown(j.world)
    ensures TakenIsDown(After(j, m, bound).world)
  {
    hide TakenIsDown;
    hide RequestObjects.Apply;
    hide PoolSteps.Apply;
    hide PoolUse.Out;
    match m
    case InPool(a, kind) =>
      var out := PoolUse.Out(j.pool, a);
      if out != [] {
        AloneAlloc(j.world, kind, out[0]);
        TakenIsDownStep(j.world, Alloc(kind, out[0]));
      }
    case InService(b) => TakenIsDownStep(j.world, b);
  }

  lemma {:induction false} TakenIsDownAlways(j: Joint, ms: seq<Move>, bound: nat)
    requires Run(j, ms, bound) && TakenIsDown(j.world)
    ensures TakenIsDown(Exec(j, ms, bound).world)
    decreases |ms|
  {
    hide TakenIsDown;
    hide Possible;
    hide After;
    if ms != [] {
      TakenIsDownMove(j, ms[0], bound);
      TakenIsDownAlways(After(j, ms[0], bound), ms[1..], bound);
    }
  }

  lemma AnsweredByAnswer(s: World, a: RequestObjects.Action, id: nat)
    requires RequestObjects.Enabled(s, a) && id < |s.uses|
    ensures var t := RequestObjects.Apply(s, a);
      && id < |t.uses|
      && (t.uses[id].answers != s.uses[id].answers
          || (t.uses[id].releases != s.uses[id].releases && t.uses[id].releases != s.uses[id].releases + [Client]) ==>
            a == Answer && s.infos[s.pc.id].owner == id)
  {
    if a.Happen? {
      HearLeaves(Seen(s, a.id), a.e);
      hide Hear;
      hide Said;
    }
  }

  /**
   * In every run, with any number of getters, the service makes a callback or a release
   * only in a visit of the sweep, for the object visited, and only while that has no `wsi`.
   */
  lemma AnswersOnlyTheEnded(size: nat, ms: seq<Move>, m: Move, id: nat, bound: nat)
    requires Run(Start(size), ms, bound) && Possible(Exec(Start(size), ms, bound), m, bound)
    requires id < |Exec(Start(size), ms, bound).world.uses|
    requires var j := Exec(Start(size), ms, bound);
      var u, v := j.world.uses[id], After(j, m, bound).world.uses;
      id < |v| && (v[id].answers != u.answers
                   || (v[id].releases != u.releases && v[id].releases != u.releases + [Client]))
    ensures var s := Exec(Start(size), ms, bound).world;
      && m == InService(Answer) && s.pc.Marked? && s.pc.id in s.infos
      && !s.infos[s.pc.id].wsi && s.infos[s.pc.id].owner == id
  {
    hide RequestObjects.Apply;
    hide PoolSteps.Apply;
    hide PoolUse.Out;
    TakenIsDownAlways(Start(size), ms, bound);
    var j := Exec(Start(size), ms, bound);
    match m
    case InPool(a, kind) =>
      var out := PoolUse.Out(j.pool, a);
      if out != [] {
        AloneAlloc(j.world, kind, out[0]);
        AnsweredByAnswer(j.world, Alloc(kind, out[0]), id);
      }
    case InService(b) => AnsweredByAnswer(j.world, b, id);
  }
}
