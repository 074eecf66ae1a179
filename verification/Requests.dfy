/**
 * The life of a request: clients allocate and enqueue it, `serve` connects it, feeds it
 * events and sweeps it out, and it is released by one side or the other. Libwebsockets is
 * an environment that may send any event to any request that was ever connected.
 */
module Requests {
  import opened PoolSteps

  /** The kinds of request, and for an asynchronous one whether its callback is set. */
  datatype Kind = SyncHttp | AsyncHttp(callback: bool) | Ws | Raw {
    predicate Http() { SyncHttp? || AsyncHttp? }
  }

  /** Who called `release_obj`. */
  datatype Releaser = Client | Service

  /**
   * A request by its allocation. `wsi` tells whether the pointer is set. `heard` and `told`
   * are history: the texts of its own events, and how many of them there were when its
   * callback ran.
   */
  datatype Req = Req(
    kind: Kind,
    obj: Obj,
    queued: bool,
    wsi: bool,
    completed: bool,
    shutdown: bool,
    connects: nat,
    releases: seq<Releaser>,
    answers: seq<string>,
    heard: seq<string>,
    told: nat)

  /**
   * Where the service thread is in its loop, with requests named by `P`. A visit of the
   * sweep that takes a request out has two stops on the way: the request `Marked` as
   * completed, and `Answered`, when its callback has run and the service has released it.
   */
  datatype Stage<P> =
    | Top
    | Serving
    | Sweeping(todo: set<P>)
    | Marked(id: P, todo: set<P>)
    | Answered(id: P, todo: set<P>)
  {
    predicate InSweep() { Sweeping? || Marked? || Answered? }
  }

  type ServePc = Stage<nat>

  /**
   * Requests are numbered as they are allocated. `queue` is what producers published,
   * `active` is `requests_`, `texts` the response streams, one in each object.
   */
  datatype State = State(
    reqs: seq<Req>,
    queue: seq<nat>,
    cursor: nat,
    active: set<nat>,
    pc: ServePc,
    connected: seq<nat>,
    texts: map<Obj, string>)

  /**
   * The branches of the callbacks that matter to the life of a request: text for the
   * response (for a socket: any event that leaves `wsi` alone), an error with its text, a
   * body that cannot be read, and an end.
   */
  datatype Event =
    | Chunk(text: string)
    | Failed(text: string)
    | ReadFailed
    | Done

  /** Steps of clients, who name requests as they allocated them, and of the service. */
  datatype Step<P> =
    | Alloc(kind: Kind, obj: Obj)
    | Enqueue(req: nat)
    | Stop(req: nat)
    | Return(req: nat)
    | Dequeue(ok: bool)
    | Happen(id: P, e: Event)
    | StartSweep
    | Visit(id: P)
    | Answer
    | Erase
    | EndSweep

  type Action = Step<nat>

  const EMPTY := State([], [], 0, {}, Top, [], map[])

  function TextOf(s: State, obj: Obj): string {
    if obj in s.texts then s.texts[obj] else ""
  }

  predicate Enabled(s: State, a: Action) {
    match a
    case Alloc(_, _) => true
    case Enqueue(id) => id < |s.reqs| && !s.reqs[id].queued
    case Stop(id) => id < |s.reqs| && !s.reqs[id].kind.Http()
    case Return(id) =>
      && id < |s.reqs| && s.reqs[id].kind == SyncHttp
      && s.reqs[id].queued && s.reqs[id].completed && s.reqs[id].releases == []
    case Dequeue(_) => s.pc == Top
    case Happen(id, _) => s.pc == Serving && id < |s.reqs| && s.reqs[id].connects > 0
    case StartSweep => s.pc == Serving
    case Visit(id) => s.pc.Sweeping? && id in s.pc.todo && id < |s.reqs|
    case Answer => s.pc.Marked? && s.pc.id < |s.reqs|
    case Erase => s.pc.Answered? && s.pc.id < |s.reqs|
    case EndSweep => s.pc == Sweeping({})
  }

  /** What a callback does to the request it is called for. */
  function Hear(r: Req, e: Event): Req {
    if r.kind.Http() then
      match e
      case Chunk(text) => r.(heard := r.heard + [text])
      case Failed(text) => r.(heard := r.heard + [text], wsi := false, completed := true)
      case ReadFailed => r.(completed := true)
      case Done => r.(wsi := false, completed := true)
    else if (r.kind == Ws && r.shutdown) || e.Failed? || e.Done? then r.(wsi := false)
    else r
  }

  function Said(e: Event): string {
    match e
    case Chunk(text) => text
    case Failed(text) => text
    case _ => ""
  }

  /** Whether the sweep takes the request out. */
  predicate Leaves(r: Req) {
    !r.wsi && (r.kind.Http() || r.shutdown)
  }

  /** The sweep marks a request that leaves. */
  function MarkedOut(r: Req): Req {
    if r.kind.Http() then r.(completed := true) else r
  }

  /** Then it runs the callback, if there is one, and releases what is the service's. */
  function AnsweredOut(r: Req, text: string): Req {
    match r.kind
    case SyncHttp => r
    case AsyncHttp(callback) =>
      if callback then
        r.(answers := r.answers + [text], releases := r.releases + [Service], told := |r.heard|)
      else r
    case _ => r.(releases := r.releases + [Service])
  }

  /** What a whole visit does to a request. */
  function Swept(r: Req, text: string): Req {
    if Leaves(r) then AnsweredOut(MarkedOut(r), text) else r
  }

  function Apply(s: State, a: Action): State
    requires Enabled(s, a)
  {
    match a
    case Alloc(kind, obj) =>
      s.(reqs := s.reqs + [Req(kind, obj, false, false, false, false, 0, [], [], [], 0)])
    case Enqueue(id) =>
      s.(reqs := s.reqs[id := s.reqs[id].(queued := true)], queue := s.queue + [id])
    case Stop(id) =>
      s.(reqs := s.reqs[id := s.reqs[id].(shutdown := true)])
    case Return(id) =>
      s.(reqs := s.reqs[id := s.reqs[id].(releases := s.reqs[id].releases + [Client])])
    case Dequeue(ok) =>
      if s.cursor < |s.queue| && s.queue[s.cursor] < |s.reqs| then
        var id := s.queue[s.cursor];
        s.(cursor := s.cursor + 1, active := s.active + {id}, connected := s.connected + [id], pc := Serving,
           reqs := s.reqs[id := s.reqs[id].(connects := s.reqs[id].connects + 1, wsi := ok)])
      else
        s.(pc := if s.active == {} then Top else Serving)
    case Happen(id, e) =>
      var r := s.reqs[id];
      s.(reqs := s.reqs[id := Hear(r, e)],
         texts := if r.kind.Http() && Said(e) != "" then s.texts[r.obj := TextOf(s, r.obj) + Said(e)] else s.texts)
    case StartSweep => s.(pc := Sweeping(s.active))
    case Visit(id) =>
      var r, rest := s.reqs[id], s.pc.todo - {id};
      if Leaves(r) then s.(reqs := s.reqs[id := MarkedOut(r)], pc := Marked(id, rest)) else s.(pc := Sweeping(rest))
    case Answer =>
      var r := s.reqs[s.pc.id];
      s.(reqs := s.reqs[s.pc.id := AnsweredOut(r, TextOf(s, r.obj))], pc := Answered(s.pc.id, s.pc.todo))
    case Erase => s.(active := s.active - {s.pc.id}, pc := Sweeping(s.pc.todo))
    case EndSweep => s.(pc := Top)
  }

  predicate Run(s: State, acts: seq<Action>)
    decreases |acts|
  {
    acts == [] || (Enabled(s, acts[0]) && Run(Apply(s, acts[0]), acts[1..]))
  }

  function Exec(s: State, acts: seq<Action>): State
    requires Run(s, acts)
    decreases |acts|
  {
    if acts == [] then s else Exec(Apply(s, acts[0]), acts[1..])
  }

  // ---------------------------------------------------------------- ownership

  ghost predicate NoRepeats(ids: seq<nat>) {
    forall i, j :: 0 <= i < j < |ids| ==> ids[i] != ids[j]
  }

  /** The service is done with the request: out of `requests_`, or released and about to be taken out. */
  predicate Gone(s: State, id: nat) {
    id !in s.active || (s.pc.Answered? && s.pc.id == id)
  }

  /**
   * Which releases a request may have had: a synchronous one by its client, after it was
   * completed; one without callback none; any other by the service, exactly if it was
   * connected and the service is done with it.
   */
  predicate ReleasedRight(r: Req, gone: bool) {
    match r.kind
    case SyncHttp =>
      (r.releases == [] || (r.releases == [Client] && r.completed && r.connects == 1)) && r.answers == []
    case AsyncHttp(callback) =>
      if callback then
        && r.releases == (if r.connects == 1 && gone then [Service] else [])
        && |r.answers| == |r.releases|
      else r.releases == [] && r.answers == []
    case _ =>
      r.releases == (if r.connects == 1 && gone then [Service] else []) && r.answers == []
  }

  predicate IsMarked(r: Req) {
    r.kind.Http() ==> r.completed
  }

  predicate SweepRight(s: State) {
    match s.pc
    case Sweeping(todo) => todo <= s.active
    case Marked(id, todo) =>
      todo <= s.active && id in s.active && id !in todo && id < |s.reqs| && IsMarked(s.reqs[id]) && Leaves(s.reqs[id])
    case Answered(id, todo) =>
      todo <= s.active && id in s.active && id !in todo && id < |s.reqs| && IsMarked(s.reqs[id]) && Leaves(s.reqs[id])
    case _ => true
  }

  ghost predicate Inv(s: State) {
    && (forall i :: 0 <= i < |s.queue| ==> s.queue[i] < |s.reqs| && s.reqs[s.queue[i]].queued)
    && NoRepeats(s.queue)
    && s.cursor <= |s.queue| && s.connected == s.queue[..s.cursor]
    && (forall id :: id in s.active ==> id < |s.reqs|)
    && (forall id :: 0 <= id < |s.reqs| ==>
      && s.reqs[id].connects == (if id in s.connected then 1 else 0)
      && (id in s.active ==> s.reqs[id].connects == 1)
      && (s.reqs[id].completed ==> s.reqs[id].connects == 1)
      && (s.reqs[id].kind.Http() && s.reqs[id].connects == 1 && id !in s.active ==> s.reqs[id].completed)
      && ReleasedRight(s.reqs[id], Gone(s, id)))
    && SweepRight(s)
  }

  lemma KeptByDequeue(s: State, ok: bool)
    requires Inv(s) && s.pc == Top
    ensures Inv(Apply(s, Dequeue(ok)))
  {
    var t := Apply(s, Dequeue(ok));
    if s.cursor < |s.queue| {
      var id := s.queue[s.cursor];
      assert t.connected == s.queue[..s.cursor + 1];
      assert id !in s.connected;
      forall i | 0 <= i < |t.reqs|
        ensures t.reqs[i].connects == (if i in t.connected then 1 else 0)
      {
        assert i in t.connected <==> i in s.connected || i == id;
      }
    }
  }

  lemma KeptByEnqueue(s: State, id: nat)
    requires Inv(s) && Enabled(s, Enqueue(id))
    ensures Inv(Apply(s, Enqueue(id)))
  {
    var t := Apply(s, Enqueue(id));
    assert t.queue[..s.cursor] == s.queue[..s.cursor];
  }

  lemma KeptByVisit(s: State, id: nat)
    requires Inv(s) && Enabled(s, Visit(id))
    ensures Inv(Apply(s, Visit(id)))
  {
    hide NoRepeats;
    assert id in s.active;
  }

  lemma AnsweredRight(r: Req, text: string)
    requires ReleasedRight(r, false) && r.connects == 1
    ensures var t := AnsweredOut(r, text);
      && t == r.(answers := t.answers, releases := t.releases, told := t.told)
      && ReleasedRight(t, true)
  {
  }

  lemma KeptByAnswer(s: State)
    requires Inv(s) && Enabled(s, Answer)
    ensures Inv(Apply(s, Answer))
  {
    hide NoRepeats;
    var r := s.reqs[s.pc.id];
    assert !Gone(s, s.pc.id);
    AnsweredRight(r, TextOf(s, r.obj));
    hide AnsweredOut;
    hide ReleasedRight;
    hide TextOf;
  }

  lemma KeptByErase(s: State)
    requires Inv(s) && Enabled(s, Erase)
    ensures Inv(Apply(s, Erase))
  {
    hide NoRepeats;
  }

  /** An event touches nothing but what was heard, `wsi` and `completed`. */
  lemma HearLeaves(r: Req, e: Event)
    ensures var t := Hear(r, e);
      t == r.(heard := t.heard, wsi := t.wsi, completed := t.completed)
    ensures (Hear(r, e).wsi ==> r.wsi) && (r.completed ==> Hear(r, e).completed)
  {
  }

  lemma KeptByEvent(s: State, id: nat, e: Event)
    requires Inv(s) && Enabled(s, Happen(id, e))
    ensures Inv(Apply(s, Happen(id, e)))
  {
    hide NoRepeats;
    hide Hear;
    hide Said;
    HearLeaves(s.reqs[id], e);
  }

  lemma KeptByAlloc(s: State, kind: Kind, obj: Obj)
    requires Inv(s)
    ensures Inv(Apply(s, Alloc(kind, obj)))
  {
    hide NoRepeats;
  }

  lemma KeptByClient(s: State, a: Action)
    requires Inv(s) && Enabled(s, a) && (a.Stop? || a.Return?)
    ensures Inv(Apply(s, a))
  {
    hide NoRepeats;
  }

  lemma KeptByLoop(s: State, a: Action)
    requires Inv(s) && Enabled(s, a) && (a == StartSweep || a == EndSweep)
    ensures Inv(Apply(s, a))
  {
    hide NoRepeats;
    hide ReleasedRight;
  }

  lemma InvKept(s: State, a: Action)
    requires Inv(s) && Enabled(s, a)
    ensures Inv(Apply(s, a))
  {
    match a
    case Alloc(kind, obj) => KeptByAlloc(s, kind, obj);
    case Enqueue(id) => KeptByEnqueue(s, id);
    case Stop(_) => KeptByClient(s, a);
    case Return(_) => KeptByClient(s, a);
    case Dequeue(ok) => KeptByDequeue(s, ok);
    case Happen(id, e) => KeptByEvent(s, id, e);
    case StartSweep => KeptByLoop(s, a);
    case Visit(id) => KeptByVisit(s, id);
    case Answer => KeptByAnswer(s);
    case Erase => KeptByErase(s);
    case EndSweep => KeptByLoop(s, a);
  }

  lemma {:induction false} InvAlways(s: State, acts: seq<Action>)
    requires Inv(s) && Run(s, acts)
    ensures Inv(Exec(s, acts))
    decreases |acts|
  {
    hide Inv;
    hide Apply;
    if acts != [] {
      InvKept(s, acts[0]);
      InvAlways(Apply(s, acts[0]), acts[1..]);
    }
  }

  /**
   * The service releases a request of its own in the visit that takes it out of
   * `requests_`, between marking and erasing it, and in no other step.
   */
  lemma ReleasedWhereRemoved(s: State, a: Action, id: nat)
    requires Inv(s) && Enabled(s, a) && id < |s.reqs|
    requires s.reqs[id].kind in {AsyncHttp(true), Ws, Raw}
    ensures var t := Apply(s, a);
      && (t.reqs[id].releases != s.reqs[id].releases <==> !Gone(s, id) && Gone(t, id))
      && (t.reqs[id].releases != s.reqs[id].releases ==> a == Answer && s.pc.Marked? && s.pc.id == id)
      && (id in s.active && id !in t.active ==> a == Erase && s.pc.Answered? && s.pc.id == id)
  {
    hide NoRepeats;
    match a
    case Visit(i) => assert i in s.active;
    case Dequeue(_) =>
      if s.cursor < |s.queue| {
        DequeuedWasOut(s);
      }
    case Happen(i, e) =>
      HearLeaves(s.reqs[i], e);
      hide Hear;
    case Enqueue(_) =>
    case Alloc(_, _) =>
    case Stop(_) =>
    case Return(_) =>
    case StartSweep =>
    case Answer =>
    case Erase =>
    case EndSweep =>
  }

  /**
   * The sweep takes on exactly the requests whose `wsi` is null, sockets among them only if
   * they are shut down. Only to these a callback is made, only these are released by the
   * service, and only these leave `requests_`, each step while that is still so.
   */
  lemma ServedWhileConnected(s: State, a: Action, id: nat)
    requires Inv(s) && Enabled(s, a) && id < |s.reqs|
    ensures var r, t := s.reqs[id], Apply(s, a);
      var over := !r.wsi && (r.kind.Http() || r.shutdown);
      && (a == Visit(id) ==> (t.pc == Marked(id, s.pc.todo - {id}) <==> over) && (t.pc.Marked? <==> over))
      && (t.pc.Marked? && t.pc.id == id && t.pc != s.pc ==> a == Visit(id))
      && (t.reqs[id].answers != r.answers || (Service in t.reqs[id].releases <==> Service !in r.releases) ==>
            a == Answer && s.pc.Marked? && s.pc.id == id && over)
      && (id in s.active && id !in t.active ==> a == Erase && s.pc.Answered? && s.pc.id == id && over)
  {
    hide NoRepeats;
    hide ReleasedRight;
    if a.Happen? {
      HearLeaves(s.reqs[a.id], a.e);
      hide Hear;
    }
  }

  /** Connecting gives a request the `wsi` that libwebsockets gave, and puts it into `requests_`. */
  lemma ConnectedAsTold(s: State, ok: bool)
    requires Inv(s) && s.pc == Top && s.cursor < |s.queue|
    ensures var id, t := s.queue[s.cursor], Apply(s, Dequeue(ok));
      && id < |s.reqs| && id in t.active && t.reqs[id].wsi == ok && t.reqs[id].connects == 1 && !t.reqs[id].completed
      && t.reqs[id].answers == [] && t.reqs[id].releases == []
  {
    KeptByDequeue(s, ok);
    DequeuedWasOut(s);
    hide NoRepeats;
  }

  /** The request at the head of the queue was never connected. */
  lemma DequeuedWasOut(s: State)
    requires Inv(s) && s.cursor < |s.queue|
    ensures s.queue[s.cursor] !in s.connected && s.queue[s.cursor] !in s.active
  {
    assert s.queue[s.cursor] !in s.connected;
  }

  // ---------------------------------------------------------------- early release

  lemma CompletedWhileActive(s: State, a: Action, id: nat)
    requires Inv(s) && Enabled(s, a) && id < |s.reqs|
    requires !s.reqs[id].completed && Apply(s, a).reqs[id].completed
    ensures id in Apply(s, a).active && s.reqs[id].kind.Http()
    ensures Apply(s, a).reqs[id] ==
      s.reqs[id].(completed := true, wsi := Apply(s, a).reqs[id].wsi, heard := Apply(s, a).reqs[id].heard)
  {
    hide NoRepeats;
    if a.Happen? {
      HearLeaves(s.reqs[a.id], a.e);
    }
  }

  lemma ConnectedWasQueued(s: State, id: nat)
    requires Inv(s) && id < |s.reqs| && s.reqs[id].connects == 1
    ensures s.reqs[id].queued
  {
    hide NoRepeats;
    assert id in s.connected;
    var i :| 0 <= i < |s.connected| && s.connected[i] == id;
    assert s.queue[i] == id;
  }
}
