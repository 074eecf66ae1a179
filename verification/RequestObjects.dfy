/**
 * The same life in the objects of the code. The queue, `requests_` and libwebsockets have
 * pointers: what a callback or the sweep finds is in the object, and if that has been handed
 * out again, it is what the new user and the old one have left there. `Requests` is what
 * this comes to when every request has an object of its own.
 */
module RequestObjects {
  import opened PoolSteps
  import opened Requests

  /** An object: the request it was last handed out for, its fields, and its response stream. */
  datatype Info = Info(owner: nat, wsi: bool, completed: bool, shutdown: bool, text: string)

  /** What became of an allocation; `kind` stands for the type and the callback it put into the object. */
  datatype Use = Use(
    kind: Kind,
    obj: Obj,
    queued: bool,
    connects: nat,
    releases: seq<Releaser>,
    answers: seq<string>,
    heard: seq<string>,
    told: nat)

  datatype World = World(
    uses: seq<Use>,
    infos: map<Obj, Info>,
    queue: seq<Obj>,
    cursor: nat,
    requests: set<Obj>,
    pc: Stage<Obj>,
    connected: set<Obj>)

  type Action = Step<Obj>

  const NOTHING := World([], map[], [], 0, {}, Top, {})

  /** The object was handed out. */
  predicate Known(s: World, obj: Obj) {
    obj in s.infos && s.infos[obj].owner < |s.uses|
  }

  /** What a pointer to the object shows: its fields, and the type and callback of its last user. */
  function Seen(s: World, obj: Obj): Req
    requires Known(s, obj)
  {
    var o := s.infos[obj];
    var u := s.uses[o.owner];
    Req(u.kind, obj, u.queued, o.wsi, o.completed, o.shutdown, u.connects, u.releases, u.answers, u.heard, u.told)
  }

  /** The object changed through a pointer; what is done for its user counts for the last one. */
  function Put(s: World, obj: Obj, r: Req): World
    requires Known(s, obj)
  {
    var o := s.infos[obj];
    var u := s.uses[o.owner];
    s.(infos := s.infos[obj := o.(wsi := r.wsi, completed := r.completed, shutdown := r.shutdown)],
       uses := s.uses[o.owner := u.(connects := r.connects, releases := r.releases, answers := r.answers,
                                    heard := r.heard, told := r.told)])
  }

  /** A socket's `connect` takes the shutdown down; nobody clears anything else. */
  function HandedTo(s: World, kind: Kind, obj: Obj): Info {
    if obj in s.infos then
      s.infos[obj].(owner := |s.uses|, shutdown := kind.Http() && s.infos[obj].shutdown)
    else Info(|s.uses|, false, false, false, "")
  }

  predicate Enabled(s: World, a: Action) {
    match a
    case Alloc(_, _) => true
    case Enqueue(id) => id < |s.uses| && !s.uses[id].queued
    case Stop(id) => id < |s.uses| && !s.uses[id].kind.Http() && Known(s, s.uses[id].obj)
    case Return(id) =>
      && id < |s.uses| && s.uses[id].kind == SyncHttp && Known(s, s.uses[id].obj)
      && s.uses[id].queued && s.infos[s.uses[id].obj].completed && Client !in s.uses[id].releases
    case Dequeue(_) => s.pc == Top
    case Happen(obj, _) => s.pc == Serving && obj in s.connected && Known(s, obj)
    case StartSweep => s.pc == Serving
    case Visit(obj) => s.pc.Sweeping? && obj in s.pc.todo && Known(s, obj)
    case Answer => s.pc.Marked? && Known(s, s.pc.id)
    case Erase => s.pc.Answered?
    case EndSweep => s.pc == Sweeping({})
  }

  function Apply(s: World, a: Action): World
    requires Enabled(s, a)
  {
    match a
    case Alloc(kind, obj) =>
      s.(uses := s.uses + [Use(kind, obj, false, 0, [], [], [], 0)], infos := s.infos[obj := HandedTo(s, kind, obj)])
    case Enqueue(id) =>
      s.(uses := s.uses[id := s.uses[id].(queued := true)], queue := s.queue + [s.uses[id].obj])
    case Stop(id) =>
      var obj := s.uses[id].obj;
      s.(infos := s.infos[obj := s.infos[obj].(shutdown := true)])
    case Return(id) =>
      s.(uses := s.uses[id := s.uses[id].(releases := s.uses[id].releases + [Client])])
    case Dequeue(ok) =>
      if s.cursor < |s.queue| && Known(s, s.queue[s.cursor]) then
        var obj := s.queue[s.cursor];
        var r := Seen(s, obj);
        Put(s, obj, r.(connects := r.connects + 1, wsi := ok))
        .(cursor := s.cursor + 1, requests := s.requests + {obj}, connected := s.connected + {obj}, pc := Serving)
      else
        s.(pc := if s.requests == {} then Top else Serving)
    case Happen(obj, e) =>
      var r := Seen(s, obj);
      var t := Put(s, obj, Hear(r, e));
      if r.kind.Http() && Said(e) != "" then
        t.(infos := t.infos[obj := t.infos[obj].(text := s.infos[obj].text + Said(e))])
      else t
    case StartSweep => s.(pc := Sweeping(s.requests))
    case Visit(obj) =>
      var r, rest := Seen(s, obj), s.pc.todo - {obj};
      if Leaves(r) then Put(s, obj, MarkedOut(r)).(pc := Marked(obj, rest)) else s.(pc := Sweeping(rest))
    case Answer =>
      var obj := s.pc.id;
      Put(s, obj, AnsweredOut(Seen(s, obj), s.infos[obj].text)).(pc := Answered(obj, s.pc.todo))
    case Erase => s.(requests := s.requests - {s.pc.id}, pc := Sweeping(s.pc.todo))
    case EndSweep => s.(pc := Top)
  }

  // ---------------------------------------------------------------- objects of their own

  /** `objs` are the objects of the requests `ids`. */
  ghost predicate SameSet(s: World, objs: set<Obj>, ids: set<nat>) {
    && (forall obj :: obj in objs ==> Known(s, obj) && s.infos[obj].owner in ids)
    && (forall id :: id in ids ==> id < |s.uses| && s.uses[id].obj in objs)
  }

  ghost predicate SameStage(s: World, at: Stage<Obj>, pc: ServePc) {
    match at
    case Top => pc == Top
    case Serving => pc == Serving
    case Sweeping(todo) => pc.Sweeping? && SameSet(s, todo, pc.todo)
    case Marked(obj, todo) =>
      pc.Marked? && SameSet(s, todo, pc.todo) && Known(s, obj) && pc.id == s.infos[obj].owner
    case Answered(obj, todo) =>
      pc.Answered? && SameSet(s, todo, pc.todo) && Known(s, obj) && pc.id == s.infos[obj].owner
  }

  /** Every request has an object of its own. */
  ghost predicate Own(s: World) {
    && (forall id :: 0 <= id < |s.uses| ==> s.uses[id].obj in s.infos && s.infos[s.uses[id].obj].owner == id)
    && (forall obj :: obj in s.infos ==> s.infos[obj].owner < |s.uses| && s.uses[s.infos[obj].owner].obj == obj)
  }

  ghost predicate SameReqs(s: World, reqs: seq<Req>) {
    && |reqs| == |s.uses|
    && forall id :: 0 <= id < |s.uses| ==> Known(s, s.uses[id].obj) && reqs[id] == Seen(s, s.uses[id].obj)
  }

  ghost predicate SameQueue(s: World, queue: seq<nat>) {
    && |queue| == |s.queue|
    && forall i :: 0 <= i < |s.queue| ==> queue[i] < |s.uses| && s.uses[queue[i]].obj == s.queue[i]
  }

  ghost predicate SameConnected(s: World) {
    && (forall obj :: obj in s.connected ==> obj in s.infos)
    && (forall id :: 0 <= id < |s.uses| ==> (s.uses[id].connects > 0 <==> s.uses[id].obj in s.connected))
  }

  ghost predicate SameTexts(s: World, t: Requests.State) {
    && (forall obj :: obj in t.texts ==> obj in s.infos)
    && (forall obj :: obj in s.infos ==> TextOf(t, obj) == s.infos[obj].text)
  }

  /** `t` shows the same requests, each by itself. */
  ghost predicate Agree(s: World, t: Requests.State) {
    && Own(s) && SameReqs(s, t.reqs) && SameQueue(s, t.queue) && t.cursor == s.cursor
    && SameSet(s, s.requests, t.active) && SameStage(s, s.pc, t.pc) && SameConnected(s) && SameTexts(s, t)
  }

  /** The step of a request by itself. */
  function Alone(s: World, a: Action): Requests.Action
    requires Enabled(s, a)
  {
    match a
    case Alloc(kind, obj) => Alloc(kind, obj)
    case Enqueue(id) => Enqueue(id)
    case Stop(id) => Stop(id)
    case Return(id) => Return(id)
    case Dequeue(ok) => Dequeue(ok)
    case Happen(obj, e) => Happen(s.infos[obj].owner, e)
    case StartSweep => StartSweep
    case Visit(obj) => Visit(s.infos[obj].owner)
    case Answer => Answer
    case Erase => Erase
    case EndSweep => EndSweep
  }

  lemma AgreeInit()
    ensures Agree(NOTHING, EMPTY) && Requests.Inv(EMPTY)
  {
  }

  /** Objects and owners are as before. */
  ghost predicate SameOwners(s: World, r: World) {
    && |r.uses| == |s.uses| && (forall id :: 0 <= id < |s.uses| ==> r.uses[id].obj == s.uses[id].obj)
    && r.infos.Keys == s.infos.Keys && (forall obj :: obj in s.infos ==> r.infos[obj].owner == s.infos[obj].owner)
  }

  lemma Carried(s: World, r: World, objs: set<Obj>, ids: set<nat>)
    requires SameOwners(s, r)
    ensures Own(s) ==> Own(r)
    ensures SameSet(s, objs, ids) ==> SameSet(r, objs, ids)
  {
  }

  lemma StageCarried(s: World, r: World, at: Stage<Obj>, pc: ServePc)
    requires SameOwners(s, r) && SameStage(s, at, pc)
    ensures SameStage(r, at, pc)
  {
    hide SameOwners;
    if at.InSweep() {
      Carried(s, r, at.todo, pc.todo);
    }
    hide SameSet;
    assert forall obj :: Known(s, obj) ==> Known(r, obj) && r.infos[obj].owner == s.infos[obj].owner by {
      KnownCarried(s, r);
    }
  }

  lemma KnownCarried(s: World, r: World)
    requires SameOwners(s, r)
    ensures forall obj :: Known(s, obj) ==> Known(r, obj) && r.infos[obj].owner == s.infos[obj].owner
  {
  }

  /** What a change of fields leaves alone, apart from the requests themselves. */
  lemma PlacesCarried(s: World, r: World, t: Requests.State)
    requires Agree(s, t) && SameOwners(s, r)
    ensures Own(r) && SameSet(r, s.requests, t.active) && SameStage(r, s.pc, t.pc)
    ensures r.queue == s.queue ==> SameQueue(r, t.queue)
  {
    Carried(s, r, s.requests, t.active);
    StageCarried(s, r, s.pc, t.pc);
    hide Own;
    hide SameSet;
    hide SameStage;
  }

  lemma TextsCarried(s: World, r: World, t: Requests.State, u: Requests.State)
    requires SameTexts(s, t) && u.texts == t.texts && r.infos.Keys == s.infos.Keys
    requires forall obj :: obj in s.infos ==> r.infos[obj].text == s.infos[obj].text
    ensures SameTexts(r, u)
  {
  }

  lemma ConnectedCarried(s: World, r: World)
    requires SameConnected(s) && SameOwners(s, r) && r.connected == s.connected
    requires forall id :: 0 <= id < |s.uses| ==> r.uses[id].connects == s.uses[id].connects
    ensures SameConnected(r)
  {
  }

  lemma ReqsSeen(s: World, t: Requests.State, id: nat)
    requires Agree(s, t) && id < |s.uses|
    ensures Known(s, s.uses[id].obj) && s.infos[s.uses[id].obj].owner == id
    ensures id < |t.reqs| && t.reqs[id] == Seen(s, s.uses[id].obj)
  {
  }

  lemma OneChanged(s: World, reqs: seq<Req>, id: nat, u: Use, o: Info)
    requires Own(s) && SameReqs(s, reqs) && id < |s.uses| && u.obj == s.uses[id].obj && o.owner == id
    ensures var r := s.(uses := s.uses[id := u], infos := s.infos[u.obj := o]);
      && id < |reqs| && Known(r, u.obj)
      && SameReqs(r, reqs[id := Seen(r, u.obj)]) && SameOwners(s, r)
  {
  }

  /** One request and its object change, by a step of its client. */
  lemma ClientChangesOne(s: World, r: World, reqs: seq<Req>, id: nat, u: Use, o: Info)
    requires Own(s) && SameReqs(s, reqs) && id < |s.uses| && u.obj == s.uses[id].obj && o.owner == id
    requires r.uses == s.uses[id := u] && r.infos == s.infos[u.obj := o]
    ensures id < |reqs| && Known(r, u.obj)
    ensures SameReqs(r, reqs[id := Seen(r, u.obj)]) && SameOwners(s, r)
  {
    var w := s.(uses := s.uses[id := u], infos := s.infos[u.obj := o]);
    OneChanged(s, reqs, id, u, o);
    assert forall i :: 0 <= i < |r.uses| && Known(w, w.uses[i].obj) ==>
      Seen(r, r.uses[i].obj) == Seen(w, w.uses[i].obj);
  }

  /** A change through a pointer is a change of the one request whose object it is. */
  lemma PutChangesOne(s: World, reqs: seq<Req>, obj: Obj, r: Req)
    requires Own(s) && SameReqs(s, reqs) && Known(s, obj)
    requires r == Seen(s, obj).(wsi := r.wsi, completed := r.completed, shutdown := r.shutdown, connects := r.connects,
                                releases := r.releases, answers := r.answers, heard := r.heard, told := r.told)
    ensures var id := s.infos[obj].owner;
      && id < |reqs| && reqs[id] == Seen(s, obj)
      && SameReqs(Put(s, obj, r), reqs[id := r]) && SameOwners(s, Put(s, obj, r))
  {
    var id, w := s.infos[obj].owner, Put(s, obj, r);
    assert s.uses[id].obj == obj && reqs[id] == Seen(s, obj);
    hide Own;
    hide SameReqs;
    OneChanged(s, reqs, id, w.uses[id], w.infos[obj]);
    assert Seen(w, obj) == r;
  }

  lemma QueueGrows(s: World, r: World, queue: seq<nat>, id: nat)
    requires SameQueue(s, queue) && SameOwners(s, r) && id < |s.uses| && r.queue == s.queue + [s.uses[id].obj]
    ensures SameQueue(r, queue + [id])
  {
  }

  lemma AgreeByEnqueue(s: World, t: Requests.State, id: nat)
    requires Agree(s, t) && Enabled(s, Enqueue(id))
    ensures Requests.Enabled(t, Enqueue(id)) && Agree(Apply(s, Enqueue(id)), Requests.Apply(t, Enqueue(id)))
  {
    hide SameStage;
    hide SameSet;
    hide SameReqs;
    hide SameTexts;
    hide SameConnected;
    hide Own;
    var u := s.uses[id].(queued := true);
    var r := Apply(s, Enqueue(id));
    ReqsSeen(s, t, id);
    assert s.infos[u.obj := s.infos[u.obj]] == s.infos;
    ClientChangesOne(s, r, t.reqs, id, u, s.infos[u.obj]);
    QueueGrows(s, r, t.queue, id);
    PlacesCarried(s, r, t);
    ConnectedCarried(s, r);
    TextsCarried(s, r, t, Requests.Apply(t, Enqueue(id)));
  }

  lemma AgreeByStop(s: World, t: Requests.State, id: nat)
    requires Agree(s, t) && Enabled(s, Stop(id))
    ensures Requests.Enabled(t, Stop(id)) && Agree(Apply(s, Stop(id)), Requests.Apply(t, Stop(id)))
  {
    hide SameStage;
    hide SameSet;
    hide SameReqs;
    hide SameTexts;
    hide SameConnected;
    hide Own;
    var u := s.uses[id];
    var r := Apply(s, Stop(id));
    ReqsSeen(s, t, id);
    assert s.uses[id := u] == s.uses;
    ClientChangesOne(s, r, t.reqs, id, u, s.infos[u.obj].(shutdown := true));
    PlacesCarried(s, r, t);
    ConnectedCarried(s, r);
    TextsCarried(s, r, t, Requests.Apply(t, Stop(id)));
  }

  lemma NotReturned(t: Requests.State, id: nat)
    requires Requests.Inv(t) && id < |t.reqs| && t.reqs[id].kind == SyncHttp
    ensures Client !in t.reqs[id].releases <==> t.reqs[id].releases == []
  {
    hide NoRepeats;
    assert ReleasedRight(t.reqs[id], Gone(t, id));
  }

  lemma AgreeByReturn(s: World, t: Requests.State, id: nat)
    requires Agree(s, t) && Requests.Inv(t) && Enabled(s, Return(id))
    ensures Requests.Enabled(t, Return(id)) && Agree(Apply(s, Return(id)), Requests.Apply(t, Return(id)))
  {
    hide Requests.Inv;
    hide SameStage;
    hide SameSet;
    hide SameReqs;
    hide SameTexts;
    hide SameConnected;
    hide Own;
    var u := s.uses[id].(releases := s.uses[id].releases + [Client]);
    var r := Apply(s, Return(id));
    ReqsSeen(s, t, id);
    NotReturned(t, id);
    assert s.infos[u.obj := s.infos[u.obj]] == s.infos;
    ClientChangesOne(s, r, t.reqs, id, u, s.infos[u.obj]);
    PlacesCarried(s, r, t);
    ConnectedCarried(s, r);
    TextsCarried(s, r, t, Requests.Apply(t, Return(id)));
  }

  // ---------------------------------------------------------------- steps of the service

  /** What the service can do to an object it can do to the request by itself. */
  lemma AloneEnabled(s: World, t: Requests.State, a: Action)
    requires Agree(s, t) && Requests.Inv(t) && Enabled(s, a)
    ensures Requests.Enabled(t, Alone(s, a))
  {
    hide SameQueue;
    hide SameTexts;
    if a.Return? {
      NotReturned(t, a.req);
    }
    hide Requests.Inv;
  }

  lemma PutAgrees(s: World, t: Requests.State, obj: Obj, r: Req)
    requires Agree(s, t) && Known(s, obj)
    requires r == Seen(s, obj).(wsi := r.wsi, completed := r.completed, shutdown := r.shutdown,
                                releases := r.releases, answers := r.answers, heard := r.heard, told := r.told)
    ensures var id := s.infos[obj].owner;
      && id < |t.reqs| && t.reqs[id] == Seen(s, obj) && Agree(Put(s, obj, r), t.(reqs := t.reqs[id := r]))
  {
    hide SameStage;
    hide SameSet;
    hide SameReqs;
    hide SameQueue;
    hide SameTexts;
    hide SameConnected;
    hide Own;
    var w := Put(s, obj, r);
    PutChangesOne(s, t.reqs, obj, r);
    PlacesCarried(s, w, t);
    ConnectedCarried(s, w);
    TextsCarried(s, w, t, t.(reqs := t.reqs[s.infos[obj].owner := r]));
    hide SameOwners;
  }

  lemma ReqsText(s: World, reqs: seq<Req>, obj: Obj, text: string)
    requires SameReqs(s, reqs) && Known(s, obj)
    ensures SameReqs(s.(infos := s.infos[obj := s.infos[obj].(text := text)]), reqs)
  {
  }

  lemma TextsText(s: World, t: Requests.State, obj: Obj, text: string)
    requires SameTexts(s, t) && Known(s, obj)
    ensures SameTexts(s.(infos := s.infos[obj := s.infos[obj].(text := text)]), t.(texts := t.texts[obj := text]))
  {
  }

  lemma TextAgrees(s: World, t: Requests.State, obj: Obj, text: string)
    requires Agree(s, t) && Known(s, obj)
    ensures Agree(s.(infos := s.infos[obj := s.infos[obj].(text := text)]), t.(texts := t.texts[obj := text]))
  {
    hide SameStage;
    hide SameSet;
    hide SameQueue;
    hide SameReqs;
    hide SameTexts;
    hide SameConnected;
    hide Own;
    var r := s.(infos := s.infos[obj := s.infos[obj].(text := text)]);
    PlacesCarried(s, r, t);
    ConnectedCarried(s, r);
    ReqsText(s, t.reqs, obj, text);
    TextsText(s, t, obj, text);
  }

  lemma StageAgrees(s: World, t: Requests.State, at: Stage<Obj>, pc: ServePc)
    requires Agree(s, t) && SameStage(s, at, pc)
    ensures Agree(s.(pc := at), t.(pc := pc))
  {
    hide SameStage;
    hide SameSet;
    PlacesCarried(s, s.(pc := at), t);
    StageCarried(s, s.(pc := at), at, pc);
    hide Own;
  }

  lemma ActiveAgrees(s: World, t: Requests.State, objs: set<Obj>, ids: set<nat>, at: Stage<Obj>, pc: ServePc)
    requires Agree(s, t) && SameSet(s, objs, ids) && SameStage(s, at, pc)
    ensures Agree(s.(requests := objs, pc := at), t.(active := ids, pc := pc))
  {
    hide SameStage;
    hide SameSet;
    var r := s.(requests := objs, pc := at);
    PlacesCarried(s, r, t);
    Carried(s, r, objs, ids);
    StageCarried(s, r, at, pc);
    hide Own;
  }

  lemma WithoutOne(s: World, objs: set<Obj>, ids: set<nat>, obj: Obj)
    requires Own(s) && SameSet(s, objs, ids) && Known(s, obj)
    ensures SameSet(s, objs - {obj}, ids - {s.infos[obj].owner})
  {
  }

  lemma WithOne(s: World, objs: set<Obj>, ids: set<nat>, obj: Obj)
    requires Own(s) && SameSet(s, objs, ids) && Known(s, obj)
    ensures SameSet(s, objs + {obj}, ids + {s.infos[obj].owner})
  {
  }

  lemma AgreeByEvent(s: World, t: Requests.State, obj: Obj, e: Event)
    requires Agree(s, t) && Requests.Inv(t) && Enabled(s, Happen(obj, e))
    ensures var a := Happen(obj, e);
      Requests.Enabled(t, Alone(s, a)) && Agree(Apply(s, a), Requests.Apply(t, Alone(s, a)))
  {
    AloneEnabled(s, t, Happen(obj, e));
    hide Requests.Inv;
    hide SameStage;
    hide SameSet;
    hide SameQueue;
    hide SameReqs;
    hide Hear;
    hide Said;
    var r, id := Seen(s, obj), s.infos[obj].owner;
    HearLeaves(r, e);
    PutAgrees(s, t, obj, Hear(r, e));
    assert r.connects > 0;
    assert TextOf(t, obj) == s.infos[obj].text;
    hide SameTexts;
    hide SameConnected;
    hide Own;
    if r.kind.Http() && Said(e) != "" {
      TextAgrees(Put(s, obj, Hear(r, e)), t.(reqs := t.reqs[id := Hear(r, e)]), obj, s.infos[obj].text + Said(e));
    }
    hide Agree;
    hide TextOf;
  }

  /** A change through a pointer, and then the next stage of the sweep. */
  lemma PutMovesOn(s: World, t: Requests.State, obj: Obj, r: Req, at: Stage<Obj>, pc: ServePc)
    requires Agree(s, t) && Known(s, obj) && SameStage(s, at, pc)
    requires r == Seen(s, obj).(wsi := r.wsi, completed := r.completed, shutdown := r.shutdown,
                                releases := r.releases, answers := r.answers, heard := r.heard, told := r.told)
    ensures var id := s.infos[obj].owner;
      && id < |t.reqs| && t.reqs[id] == Seen(s, obj)
      && Agree(Put(s, obj, r).(pc := at), t.(reqs := t.reqs[id := r], pc := pc))
  {
    hide Agree;
    hide SameStage;
    PutAgrees(s, t, obj, r);
    assert SameOwners(s, Put(s, obj, r));
    StageCarried(s, Put(s, obj, r), at, pc);
    StageAgrees(Put(s, obj, r), t.(reqs := t.reqs[s.infos[obj].owner := r]), at, pc);
  }

  lemma SweepStages(s: World, t: Requests.State, obj: Obj)
    requires Agree(s, t) && s.pc.Sweeping? && Known(s, obj)
    ensures t.pc.Sweeping?
    ensures var id, todo, ids := s.infos[obj].owner, s.pc.todo - {obj}, t.pc.todo - {s.infos[obj].owner};
      SameStage(s, Sweeping(todo), Sweeping(ids)) && SameStage(s, Marked(obj, todo), Marked(id, ids))
  {
    hide SameQueue;
    hide SameReqs;
    hide SameTexts;
    hide SameConnected;
    WithoutOne(s, s.pc.todo, t.pc.todo, obj);
  }

  lemma AgreeByVisit(s: World, t: Requests.State, obj: Obj)
    requires Agree(s, t) && Requests.Inv(t) && Enabled(s, Visit(obj))
    ensures var a := Visit(obj);
      Requests.Enabled(t, Alone(s, a)) && Agree(Apply(s, a), Requests.Apply(t, Alone(s, a)))
  {
    hide Agree;
    hide Requests.Inv;
    hide SameStage;
    hide Leaves;
    AloneEnabled(s, t, Visit(obj));
    SweepStages(s, t, obj);
    var r, id, todo, ids := Seen(s, obj), s.infos[obj].owner, s.pc.todo - {obj}, t.pc.todo - {s.infos[obj].owner};
    PutMovesOn(s, t, obj, MarkedOut(r), Marked(obj, todo), Marked(id, ids));
    StageAgrees(s, t, Sweeping(todo), Sweeping(ids));
  }

  lemma AgreeByAnswer(s: World, t: Requests.State)
    requires Agree(s, t) && Requests.Inv(t) && Enabled(s, Answer)
    ensures Requests.Enabled(t, Answer) && Agree(Apply(s, Answer), Requests.Apply(t, Answer))
  {
    hide Requests.Inv;
    hide SameQueue;
    hide SameReqs;
    hide SameConnected;
    hide SameSet;
    AloneEnabled(s, t, Answer);
    var obj, todo := s.pc.id, s.pc.todo;
    var text := s.infos[obj].text;
    assert TextOf(t, obj) == text;
    var n := AnsweredOut(Seen(s, obj), text);
    PutMovesOn(s, t, obj, n, Answered(obj, todo), Answered(s.infos[obj].owner, t.pc.todo));
    hide Agree;
  }

  lemma EraseStages(s: World, t: Requests.State)
    requires Agree(s, t) && s.pc.Answered?
    ensures Known(s, s.pc.id) && t.pc.Answered? && t.pc.id == s.infos[s.pc.id].owner
    ensures SameStage(s, Sweeping(s.pc.todo), Sweeping(t.pc.todo)) && Own(s) && SameSet(s, s.requests, t.active)
  {
    hide SameQueue;
    hide SameReqs;
    hide SameTexts;
    hide SameConnected;
  }

  lemma AgreeByErase(s: World, t: Requests.State)
    requires Agree(s, t) && Requests.Inv(t) && Enabled(s, Erase)
    ensures Requests.Enabled(t, Erase) && Agree(Apply(s, Erase), Requests.Apply(t, Erase))
  {
    hide Requests.Inv;
    hide Agree;
    hide SameSet;
    hide SameStage;
    hide Own;
    AloneEnabled(s, t, Erase);
    EraseStages(s, t);
    var obj := s.pc.id;
    WithoutOne(s, s.requests, t.active, obj);
    ActiveAgrees(s, t, s.requests - {obj}, t.active - {t.pc.id}, Sweeping(s.pc.todo), Sweeping(t.pc.todo));
  }

  lemma HeadSeen(s: World, t: Requests.State)
    requires Agree(s, t)
    ensures t.cursor == s.cursor && |t.queue| == |s.queue| && |t.reqs| == |s.uses|
    ensures s.cursor < |s.queue| ==>
      && Known(s, s.queue[s.cursor]) && t.queue[t.cursor] == s.infos[s.queue[s.cursor]].owner
      && s.uses[t.queue[t.cursor]].obj == s.queue[s.cursor]
    ensures t.active == {} <==> s.requests == {}
  {
    hide SameTexts;
    hide SameConnected;
    if s.requests != {} {
      var obj :| obj in s.requests;
      assert s.infos[obj].owner in t.active;
    }
    if t.active != {} {
      var id :| id in t.active;
      assert s.uses[id].obj in s.requests;
    }
  }

  lemma PlainStages(s: World)
    ensures SameStage(s, Top, Top) && SameStage(s, Serving, Serving)
  {
  }

  /** The head of the queue, connected. */
  function Head(s: World, ok: bool): Req
    requires s.cursor < |s.queue| && Known(s, s.queue[s.cursor])
  {
    var r := Seen(s, s.queue[s.cursor]);
    r.(connects := r.connects + 1, wsi := ok)
  }

  function Connected(s: World, ok: bool): World
    requires s.cursor < |s.queue| && Known(s, s.queue[s.cursor])
  {
    var obj := s.queue[s.cursor];
    Put(s, obj, Head(s, ok)).(cursor := s.cursor + 1, requests := s.requests + {obj},
                              connected := s.connected + {obj}, pc := Serving)
  }

  lemma ConnectsThere(s: World, t: Requests.State, ok: bool)
    requires Agree(s, t) && s.pc == Top && s.cursor < |s.queue|
    ensures HeadKnown(s, t) && Requests.Enabled(t, Dequeue(ok))
    ensures var id := t.queue[t.cursor];
      Requests.Apply(t, Dequeue(ok)) == t.(cursor := t.cursor + 1, active := t.active + {id},
        connected := t.connected + [id], pc := Serving, reqs := t.reqs[id := Head(s, ok)])
  {
    hide SameTexts;
    hide SameConnected;
    hide SameSet;
    HeadSeen(s, t);
    hide SameQueue;
  }

  predicate HeadKnown(s: World, t: Requests.State) {
    && s.cursor < |s.queue| && Known(s, s.queue[s.cursor]) && t.cursor < |t.queue|
    && t.queue[t.cursor] == s.infos[s.queue[s.cursor]].owner < |t.reqs|
  }

  lemma ConnectsOne(s: World, t: Requests.State, ok: bool)
    requires Own(s) && SameReqs(s, t.reqs) && HeadKnown(s, t)
    ensures SameReqs(Connected(s, ok), t.reqs[t.queue[t.cursor] := Head(s, ok)]) && SameOwners(s, Connected(s, ok))
  {
    PutChangesOne(s, t.reqs, s.queue[s.cursor], Head(s, ok));
  }

  lemma ConnectedWith(s: World, ok: bool)
    requires Own(s) && SameConnected(s) && s.cursor < |s.queue| && Known(s, s.queue[s.cursor])
    ensures SameConnected(Connected(s, ok))
  {
  }

  lemma ConnectedFields(s: World, ok: bool)
    requires s.cursor < |s.queue| && Known(s, s.queue[s.cursor])
    ensures var r := Connected(s, ok);
      && r.queue == s.queue && r.requests == s.requests + {s.queue[s.cursor]} && r.pc == Serving
      && r.cursor == s.cursor + 1
      && r.infos.Keys == s.infos.Keys && forall obj :: obj in s.infos ==> r.infos[obj].text == s.infos[obj].text
  {
  }

  lemma ConnectPlaces(s: World, t: Requests.State, ok: bool, active: set<nat>)
    requires Agree(s, t) && HeadKnown(s, t) && active == t.active + {t.queue[t.cursor]}
    ensures var r := Connected(s, ok);
      Own(r) && SameQueue(r, t.queue) && SameSet(r, r.requests, active) && SameStage(r, Serving, Serving)
  {
    hide SameStage;
    hide SameSet;
    hide SameConnected;
    hide SameTexts;
    hide SameReqs;
    hide SameQueue;
    hide SameOwners;
    hide Own;
    hide Connected;
    var r := Connected(s, ok);
    ConnectedFields(s, ok);
    ConnectsOne(s, t, ok);
    PlacesCarried(s, r, t);
    WithOne(s, s.requests, t.active, s.queue[s.cursor]);
    Carried(s, r, r.requests, active);
    PlainStages(r);
  }

  lemma ConnectAgrees(s: World, t: Requests.State, ok: bool, u: Requests.State)
    requires Agree(s, t) && HeadKnown(s, t)
    requires var id := t.queue[t.cursor];
      u == t.(cursor := t.cursor + 1, active := t.active + {id},
        connected := t.connected + [id], pc := Serving, reqs := t.reqs[id := Head(s, ok)])
    ensures Agree(Connected(s, ok), u)
  {
    hide SameStage;
    hide SameReqs;
    hide SameSet;
    hide SameTexts;
    hide SameConnected;
    hide SameOwners;
    hide SameQueue;
    hide Own;
    hide Connected;
    hide Head;
    ConnectedFields(s, ok);
    ConnectsOne(s, t, ok);
    ConnectedWith(s, ok);
    ConnectPlaces(s, t, ok, u.active);
    TextsCarried(s, Connected(s, ok), t, u);
  }

  /** The head of the queue goes into `requests_`. */
  lemma AgreeByConnect(s: World, t: Requests.State, ok: bool)
    requires Agree(s, t) && s.pc == Top && s.cursor < |s.queue|
    ensures Requests.Enabled(t, Dequeue(ok))
    ensures Agree(Apply(s, Dequeue(ok)), Requests.Apply(t, Dequeue(ok)))
  {
    hide Agree;
    ConnectsThere(s, t, ok);
    ConnectAgrees(s, t, ok, Requests.Apply(t, Dequeue(ok)));
    hide Requests.Apply;
    assert Apply(s, Dequeue(ok)) == Connected(s, ok);
  }

  lemma AgreeByLoop(s: World, t: Requests.State, a: Action)
    requires Agree(s, t) && Requests.Inv(t) && Enabled(s, a)
    requires a.StartSweep? || a.EndSweep? || (a.Dequeue? && s.cursor >= |s.queue|)
    ensures Requests.Enabled(t, Alone(s, a)) && Agree(Apply(s, a), Requests.Apply(t, Alone(s, a)))
  {
    hide Requests.Inv;
    hide SameQueue;
    hide SameReqs;
    hide SameTexts;
    hide SameConnected;
    hide Own;
    AloneEnabled(s, t, a);
    HeadSeen(s, t);
    PlainStages(s);
    StageAgrees(s, t, Top, Top);
    StageAgrees(s, t, Serving, Serving);
    StageAgrees(s, t, Sweeping(s.requests), Sweeping(t.active));
    hide SameSet;
    hide SameStage;
  }

  /** Own objects stay so if the next one is a new one. */
  lemma GrownCarried(s: World, r: World, kind: Kind, obj: Obj, objs: set<Obj>, ids: set<nat>)
    requires obj !in s.infos && r == Apply(s, Alloc(kind, obj))
    ensures Own(s) ==> Own(r)
    ensures SameSet(s, objs, ids) ==> SameSet(r, objs, ids)
    ensures forall o :: Known(s, o) ==> Known(r, o) && r.infos[o].owner == s.infos[o].owner
  {
  }

  lemma StageGrown(s: World, kind: Kind, obj: Obj, at: Stage<Obj>, pc: ServePc)
    requires obj !in s.infos && SameStage(s, at, pc)
    ensures SameStage(Apply(s, Alloc(kind, obj)), at, pc)
  {
    GrownCarried(s, Apply(s, Alloc(kind, obj)), kind, obj,
      if at.InSweep() then at.todo else {}, if pc.InSweep() then pc.todo else {});
    hide SameSet;
    hide Apply;
  }

  lemma ReqsGrown(s: World, t: Requests.State, kind: Kind, obj: Obj)
    requires Agree(s, t) && obj !in s.infos
    ensures var r, u := Apply(s, Alloc(kind, obj)), Requests.Apply(t, Alloc(kind, obj));
      SameReqs(r, u.reqs) && SameConnected(r) && SameTexts(r, u)
  {
    hide SameStage;
    hide SameSet;
    hide SameQueue;
  }

  lemma AgreeByAlloc(s: World, t: Requests.State, kind: Kind, obj: Obj)
    requires Agree(s, t) && obj !in s.infos
    ensures Agree(Apply(s, Alloc(kind, obj)), Requests.Apply(t, Alloc(kind, obj)))
  {
    hide SameStage;
    hide SameSet;
    hide SameReqs;
    hide SameTexts;
    hide SameConnected;
    var r := Apply(s, Alloc(kind, obj));
    StageGrown(s, kind, obj, s.pc, t.pc);
    GrownCarried(s, r, kind, obj, s.requests, t.active);
    ReqsGrown(s, t, kind, obj);
    hide Own;
  }

  /**
   * As long as objects are handed out once, the code's pointers make no difference: every
   * step is the step of one request by itself.
   */
  lemma StepsAlone(s: World, t: Requests.State, a: Action)
    requires Agree(s, t) && Requests.Inv(t) && Enabled(s, a) && (a.Alloc? ==> a.obj !in s.infos)
    ensures Requests.Enabled(t, Alone(s, a)) && Agree(Apply(s, a), Requests.Apply(t, Alone(s, a)))
    ensures Requests.Inv(Requests.Apply(t, Alone(s, a)))
  {
    hide Agree;
    hide Requests.Inv;
    hide Apply;
    hide Requests.Apply;
    AloneEnabled(s, t, a);
    Requests.InvKept(t, Alone(s, a));
    match a
    case Alloc(kind, obj) => AgreeByAlloc(s, t, kind, obj);
    case Enqueue(id) => AgreeByEnqueue(s, t, id);
    case Stop(id) => AgreeByStop(s, t, id);
    case Return(id) => AgreeByReturn(s, t, id);
    case Dequeue(ok) => if s.cursor < |s.queue| { AgreeByConnect(s, t, ok); } else { AgreeByLoop(s, t, a); }
    case Happen(obj, e) => AgreeByEvent(s, t, obj, e);
    case StartSweep => AgreeByLoop(s, t, a);
    case Visit(obj) => AgreeByVisit(s, t, obj);
    case Answer => AgreeByAnswer(s, t);
    case Erase => AgreeByErase(s, t);
    case EndSweep => AgreeByLoop(s, t, a);
  }
}
