/** What callers are told, and that a sweep tells them. */
module RequestTexts {
  import PoolSteps
  import opened Requests

  function Concat(pieces: seq<string>): string
    decreases |pieces|
  {
    if pieces == [] then "" else Concat(pieces[..|pieces| - 1]) + pieces[|pieces| - 1]
  }

  lemma ConcatNext(pieces: seq<string>, piece: string)
    ensures Concat(pieces + [piece]) == Concat(pieces) + piece
  {
    assert (pieces + [piece])[..|pieces|] == pieces;
  }

  // ---------------------------------------------------------------- texts

  /** The object of a new request was never the object of another one. */
  ghost predicate FreshAlloc(s: State, a: Action) {
    a.Alloc? ==> forall id :: 0 <= id < |s.reqs| ==> s.reqs[id].obj != a.obj
  }

  function Objects(reqs: seq<Req>): (objs: seq<PoolSteps.Obj>)
    ensures |objs| == |reqs| && forall i :: 0 <= i < |reqs| ==> objs[i] == reqs[i].obj
    decreases |reqs|
  {
    if reqs == [] then [] else Objects(reqs[..|reqs| - 1]) + [reqs[|reqs| - 1].obj]
  }

  ghost predicate AllDifferent(objs: seq<PoolSteps.Obj>) {
    forall i, j :: 0 <= i < j < |objs| ==> objs[i] != objs[j]
  }

  lemma ObjectsGrow(s: State, a: Action)
    requires Enabled(s, a)
    ensures Objects(Apply(s, a).reqs) == Objects(s.reqs) + if a.Alloc? then [a.obj] else []
  {
    var t := Apply(s, a);
    if a.Alloc? {
      assert t.reqs[..|s.reqs|] == s.reqs;
    } else {
      hide Apply;
      ObjectsStay(s, a);
    }
  }

  lemma ObjectsStay(s: State, a: Action)
    requires Enabled(s, a) && !a.Alloc?
    ensures var t := Apply(s, a);
      |t.reqs| == |s.reqs| && forall i :: 0 <= i < |s.reqs| ==> t.reqs[i].obj == s.reqs[i].obj
  {
    hide Hear;
    hide Said;
    hide AnsweredOut;
    if a.Happen? {
      HearLeaves(s.reqs[a.id], a.e);
    } else if a == Answer {
      AnsweredTold(s.reqs[s.pc.id], TextOf(s, s.reqs[s.pc.id].obj));
    }
  }

  /** The callback was told what its request had heard by then. */
  ghost predicate Told(r: Req) {
    r.answers != [] ==> r.told <= |r.heard| && r.answers == [Concat(r.heard[..r.told])]
  }

  function TextIn(texts: map<PoolSteps.Obj, string>, obj: PoolSteps.Obj): string {
    if obj in texts then texts[obj] else ""
  }

  /**
   * Every response stream holds what its request has heard and nothing else; every
   * callback was told what its request had heard by then.
   */
  ghost predicate OwnTexts(s: State) {
    && AllDifferent(Objects(s.reqs))
    && (forall obj :: obj in s.texts ==> obj in Objects(s.reqs))
    && (forall id :: 0 <= id < |s.reqs| ==>
      TextIn(s.texts, s.reqs[id].obj) == Concat(s.reqs[id].heard) && Told(s.reqs[id]))
  }

  lemma OwnTextsByAlloc(s: State, a: Action)
    requires OwnTexts(s) && a.Alloc? && FreshAlloc(s, a)
    ensures OwnTexts(Apply(s, a))
  {
    hide Told;
    hide Objects;
    var t, added := Apply(s, a), Req(a.kind, a.obj, false, false, false, false, 0, [], [], [], 0);
    ObjectsGrow(s, a);
    NotYetUsed(s, a.obj);
    NewReqOwn(added);
    hide Concat;
    DifferentGrow(Objects(s.reqs), a.obj);
    forall id | 0 <= id < |t.reqs|
      ensures TextIn(t.texts, t.reqs[id].obj) == Concat(t.reqs[id].heard) && Told(t.reqs[id])
    {
      assert t.reqs[id] == if id < |s.reqs| then s.reqs[id] else added;
    }
  }

  lemma NotYetUsed(s: State, obj: PoolSteps.Obj)
    requires forall id :: 0 <= id < |s.reqs| ==> s.reqs[id].obj != obj
    ensures obj !in Objects(s.reqs)
  {
  }

  lemma NewReqOwn(r: Req)
    requires r.heard == [] && r.answers == []
    ensures Concat(r.heard) == "" && Told(r)
  {
  }

  lemma DifferentGrow(objs: seq<PoolSteps.Obj>, obj: PoolSteps.Obj)
    requires AllDifferent(objs) && obj !in objs
    ensures AllDifferent(objs + [obj])
  {
  }

  lemma HearOwn(r: Req, e: Event, text: string)
    requires text == Concat(r.heard) && Told(r)
    ensures Told(Hear(r, e))
    ensures r.kind.Http() ==> text + Said(e) == Concat(Hear(r, e).heard)
    ensures !r.kind.Http() ==> Hear(r, e).heard == r.heard
  {
    ConcatNext(r.heard, Said(e));
    if r.answers != [] {
      assert Hear(r, e).heard[..r.told] == r.heard[..r.told];
    }
  }

  lemma Distinct(s: State, i: nat, j: nat)
    requires AllDifferent(Objects(s.reqs)) && i < |s.reqs| && j < |s.reqs| && i != j
    ensures s.reqs[i].obj != s.reqs[j].obj
  {
    assert Objects(s.reqs)[i] == s.reqs[i].obj && Objects(s.reqs)[j] == s.reqs[j].obj;
  }

  lemma EventOnlyThere(s: State, id: nat, e: Event)
    requires Enabled(s, Happen(id, e))
    ensures var t, r := Apply(s, Happen(id, e)), s.reqs[id];
      && t.reqs == s.reqs[id := Hear(r, e)]
      && t.texts ==
        if r.kind.Http() && Said(e) != "" then s.texts[r.obj := TextIn(s.texts, r.obj) + Said(e)] else s.texts
  {
  }

  lemma OwnTextsByEvent(s: State, id: nat, e: Event)
    requires OwnTexts(s) && Enabled(s, Happen(id, e))
    ensures OwnTexts(Apply(s, Happen(id, e)))
  {
    hide Told;
    hide Hear;
    hide Said;
    hide AllDifferent;
    hide Concat;
    var r, t := s.reqs[id], Apply(s, Happen(id, e));
    ObjectsGrow(s, Happen(id, e));
    assert Objects(s.reqs) + [] == Objects(s.reqs);
    EventOnlyThere(s, id, e);
    hide Apply;
    HearOwn(r, e, TextIn(s.texts, r.obj));
    HearLeaves(r, e);
    assert Objects(s.reqs)[id] == r.obj;
    forall i | 0 <= i < |t.reqs|
      ensures TextIn(t.texts, t.reqs[i].obj) == Concat(t.reqs[i].heard) && Told(t.reqs[i])
    {
      if i != id {
        Distinct(s, i, id);
      }
    }
  }

  lemma OwnTextsByAnswer(s: State)
    requires Inv(s) && OwnTexts(s) && Enabled(s, Answer)
    ensures OwnTexts(Apply(s, Answer))
  {
    var id, t := s.pc.id, Apply(s, Answer);
    NotYetAnswered(s);
    hide Inv;
    OwnText(s);
    hide OwnTexts;
    hide Told;
    hide Concat;
    AnsweredTold(s.reqs[id], TextOf(s, s.reqs[id].obj));
    ObjectsGrow(s, Answer);
    assert Objects(s.reqs) + [] == Objects(s.reqs);
    hide Objects;
    AnswerOnlyThere(s);
    hide AnsweredOut;
    hide Apply;
    hide TextOf;
    OwnTextsCarried(s, t);
  }

  lemma AnswerOnlyThere(s: State)
    requires Enabled(s, Answer)
    ensures var t, r := Apply(s, Answer), s.reqs[s.pc.id];
      && t.texts == s.texts && t.reqs == s.reqs[s.pc.id := AnsweredOut(r, TextOf(s, r.obj))]
  {
  }

  lemma OwnText(s: State)
    requires OwnTexts(s)
    ensures forall id :: 0 <= id < |s.reqs| ==>
      TextOf(s, s.reqs[id].obj) == Concat(s.reqs[id].heard) && Told(s.reqs[id])
  {
    hide Told;
  }

  lemma NotYetAnswered(s: State)
    requires Inv(s) && Enabled(s, Answer)
    ensures s.reqs[s.pc.id].answers == []
  {
    hide NoRepeats;
    assert !Gone(s, s.pc.id);
  }

  lemma AnsweredTold(r: Req, text: string)
    ensures AnsweredOut(r, text).heard == r.heard && AnsweredOut(r, text).obj == r.obj
    ensures text == Concat(r.heard) && r.answers == [] ==> Told(AnsweredOut(r, text))
  {
    assert r.heard[..|r.heard|] == r.heard;
  }

  /** Objects, streams and what was heard are as before. */
  lemma OwnTextsCarried(s: State, t: State)
    requires OwnTexts(s) && t.texts == s.texts && |t.reqs| == |s.reqs| && Objects(t.reqs) == Objects(s.reqs)
    requires forall i :: 0 <= i < |s.reqs| ==> t.reqs[i].heard == s.reqs[i].heard && Told(t.reqs[i])
    ensures OwnTexts(t)
  {
    hide Told;
    hide AllDifferent;
    hide Concat;
    forall i | 0 <= i < |t.reqs|
      ensures t.reqs[i].obj == s.reqs[i].obj
    {
      assert Objects(t.reqs)[i] == Objects(s.reqs)[i];
    }
  }

  /** Every other step leaves texts, and what is told, alone. */
  lemma TextsUntouched(s: State, a: Action)
    requires Enabled(s, a) && !a.Alloc? && !a.Happen? && a != Answer
    ensures var t := Apply(s, a);
      && t.texts == s.texts && |t.reqs| == |s.reqs|
      && (forall i :: 0 <= i < |s.reqs| ==>
        && t.reqs[i].heard == s.reqs[i].heard && t.reqs[i].told == s.reqs[i].told
        && t.reqs[i].answers == s.reqs[i].answers)
  {
  }

  lemma OwnTextsElsewhere(s: State, a: Action)
    requires OwnTexts(s) && Enabled(s, a) && !a.Alloc? && !a.Happen? && a != Answer
    ensures OwnTexts(Apply(s, a))
  {
    hide OwnTexts;
    ObjectsGrow(s, a);
    TextsUntouched(s, a);
    OwnText(s);
    assert Objects(s.reqs) + [] == Objects(s.reqs);
    hide Apply;
    hide Objects;
    OwnTextsCarried(s, Apply(s, a));
  }

  lemma OwnTextsKept(s: State, a: Action)
    requires Inv(s) && OwnTexts(s) && Enabled(s, a) && FreshAlloc(s, a)
    ensures OwnTexts(Apply(s, a))
  {
    hide Inv;
    hide OwnTexts;
    hide Apply;
    match a
    case Alloc(_, _) => OwnTextsByAlloc(s, a);
    case Happen(id, e) => OwnTextsByEvent(s, id, e);
    case Answer => OwnTextsByAnswer(s);
    case _ => OwnTextsElsewhere(s, a);
  }

  // ---------------------------------------------------------------- completion

  /** Still to be visited and due to leave, or being visited, or already gone. */
  predicate Going(s: State, id: nat) {
    && id < |s.reqs| && s.reqs[id].connects > 0
    && (id in s.active ==>
      || (s.pc.InSweep() && id in s.pc.todo && Leaves(s.reqs[id]))
      || ((s.pc.Marked? || s.pc.Answered?) && s.pc.id == id))
  }

  lemma GoingKept(s: State, a: Action, id: nat)
    requires Inv(s) && s.pc.InSweep() && Going(s, id) && Enabled(s, a)
    ensures Going(Apply(s, a), id) && Apply(s, a).reqs[id].kind == s.reqs[id].kind
    ensures a != EndSweep ==> Apply(s, a).pc.InSweep()
  {
    hide NoRepeats;
    hide ReleasedRight;
  }

  /** A sweep from its first visit to its end; clients may act meanwhile. */
  predicate SweepRun(acts: seq<Action>) {
    acts != [] && acts[|acts| - 1] == EndSweep && forall i :: 0 <= i < |acts| - 1 ==> acts[i] != EndSweep
  }

  lemma {:induction false} SweepTakesOut(s: State, acts: seq<Action>, id: nat)
    requires Inv(s) && s.pc.InSweep() && Going(s, id) && Run(s, acts) && SweepRun(acts)
    ensures var t := Exec(s, acts);
      && Inv(t) && t.pc == Top && id < |t.reqs| && id !in t.active
      && t.reqs[id].connects > 0 && t.reqs[id].kind == s.reqs[id].kind
    decreases |acts|
  {
    hide Inv;
    InvKept(s, acts[0]);
    GoingKept(s, acts[0], id);
    if |acts| == 1 {
      assert acts[1..] == [];
    } else {
      hide Going;
      hide Apply;
      SweepTakesOut(Apply(s, acts[0]), acts[1..], id);
    }
  }

  /**
   * Once the `wsi` of a request in `requests_` is null (for a socket: and its client has
   * stopped), the next sweep, when it ends, has taken it out, told its callback exactly
   * once and released it.
   */
  lemma SweepCompletes(s: State, acts: seq<Action>, id: nat)
    requires Inv(s) && s.pc == Serving && id in s.active
    requires !s.reqs[id].wsi && (s.reqs[id].kind.Http() || s.reqs[id].shutdown)
    requires Run(s, [StartSweep] + acts) && SweepRun(acts)
    ensures var t := Exec(s, [StartSweep] + acts);
      && id < |t.reqs| && id !in t.active && (s.reqs[id].kind.Http() ==> t.reqs[id].completed)
      && (s.reqs[id].kind == AsyncHttp(true) ==> |t.reqs[id].answers| == 1)
      && (s.reqs[id].kind in {AsyncHttp(true), Ws, Raw} ==> t.reqs[id].releases == [Service])
  {
    hide NoRepeats;
    var t := Apply(s, StartSweep);
    assert ([StartSweep] + acts)[1..] == acts;
    InvKept(s, StartSweep);
    SweepTakesOut(t, acts, id);
    assert Exec(s, [StartSweep] + acts) == Exec(t, acts);
  }

  /** In `requests_`, not taken on by the sweep, and with no reason to be. */
  predicate Staying(s: State, id: nat) {
    && id < |s.reqs| && id in s.active && (s.pc.Marked? || s.pc.Answered? ==> s.pc.id != id)
    && (s.reqs[id].wsi || (!s.reqs[id].kind.Http() && !s.reqs[id].shutdown))
  }

  /** What the sweep must leave as it is. */
  predicate LeftAlone(r: Req, t: Req) {
    t.kind == r.kind && t.obj == r.obj && t.wsi == r.wsi && t.completed == r.completed && t.answers == r.answers
    && (Service in t.releases <==> Service in r.releases)
  }

  lemma StayingKept(s: State, a: Action, id: nat)
    requires Inv(s) && s.pc.InSweep() && Staying(s, id) && Enabled(s, a)
    requires s.reqs[id].wsi || a != Stop(id)
    ensures Staying(Apply(s, a), id) && LeftAlone(s.reqs[id], Apply(s, a).reqs[id])
    ensures a != EndSweep ==> Apply(s, a).pc.InSweep()
  {
    hide NoRepeats;
    hide ReleasedRight;
  }

  lemma {:induction false} SweepLeavesFrom(s: State, acts: seq<Action>, id: nat)
    requires Inv(s) && s.pc.InSweep() && Staying(s, id) && Run(s, acts) && SweepRun(acts)
    requires s.reqs[id].wsi || Stop(id) !in acts
    ensures var t := Exec(s, acts);
      id < |t.reqs| && id in t.active && LeftAlone(s.reqs[id], t.reqs[id])
    decreases |acts|
  {
    hide Inv;
    InvKept(s, acts[0]);
    StayingKept(s, acts[0], id);
    if |acts| == 1 {
      assert acts[1..] == [];
    } else {
      hide Apply;
      SweepLeavesFrom(Apply(s, acts[0]), acts[1..], id);
    }
  }

  /**
   * A request in `requests_` that has a `wsi`, or a socket whose client does not stop, is
   * still there when the sweep ends: not marked, not answered, and not released by the
   * service.
   */
  lemma SweepLeavesLive(s: State, acts: seq<Action>, id: nat)
    requires Inv(s) && s.pc == Serving && id in s.active && Run(s, [StartSweep] + acts) && SweepRun(acts)
    requires s.reqs[id].wsi || (!s.reqs[id].kind.Http() && !s.reqs[id].shutdown && Stop(id) !in acts)
    ensures var r, t := s.reqs[id], Exec(s, [StartSweep] + acts);
      && id < |t.reqs| && id in t.active && t.reqs[id].obj == r.obj
      && t.reqs[id].wsi == r.wsi && t.reqs[id].completed == r.completed && t.reqs[id].answers == r.answers
      && (Service in t.reqs[id].releases <==> Service in r.releases)
  {
    hide NoRepeats;
    var t := Apply(s, StartSweep);
    assert ([StartSweep] + acts)[1..] == acts;
    InvKept(s, StartSweep);
    SweepLeavesFrom(t, acts, id);
    assert Exec(s, [StartSweep] + acts) == Exec(t, acts);
  }

  // ---------------------------------------------------------------- early release

  /**
   * A synchronous caller may give its request back while the service still has it in
   * `requests_`, and will still look at it.
   */
  lemma SynchronousReleaseCanComeEarly() returns (acts: seq<Action>)
    ensures Run(EMPTY, acts)
    ensures var s := Exec(EMPTY, acts);
      |s.reqs| == 1 && s.reqs[0].releases == [Client] && 0 in s.active && s.pc == Serving
  {
    var obj := PoolSteps.Pooled(0);
    var a0, a1, a2, a3, a4 := Alloc(SyncHttp, obj), Enqueue(0), Dequeue(true), Happen(0, Done), Return(0);
    var s1 := Apply(EMPTY, a0);
    var s2 := Apply(s1, a1);
    var s3 := Apply(s2, a2);
    var s4 := Apply(s3, a3);
    var s5 := Apply(s4, a4);
    acts := [a0, a1, a2, a3, a4];
    assert acts[1..] == [a1, a2, a3, a4] && acts[1..][1..] == [a2, a3, a4];
    assert acts[1..][1..][1..] == [a3, a4] && acts[1..][1..][1..][1..] == [a4];
    assert acts[1..][1..][1..][1..][1..] == [];
    assert Run(s5, []) && Exec(s5, []) == s5;
    assert Run(s4, [a4]) && Exec(s4, [a4]) == s5;
    assert Run(s3, [a3, a4]) && Exec(s3, [a3, a4]) == s5;
    assert Run(s2, [a2, a3, a4]) && Exec(s2, [a2, a3, a4]) == s5;
    assert Run(s1, [a1, a2, a3, a4]) && Exec(s1, [a1, a2, a3, a4]) == s5;
  }
}
