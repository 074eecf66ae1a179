/**
 * What a pool hands out, and in what order, while at most one thread at a time is inside
 * `get_obj`, and any number are inside `release_obj`.
 */
module PoolUse {
  import opened Laps
  import opened PoolSteps

  /** The object a step hands out, if it hands out one. */
  function Out(p: Pool, a: Action): (objs: seq<Obj>)
    requires Formed(p) && Enabled(p, a)
  {
    var r := Apply(p, a);
    if p.handles in r.held && r.handles == p.handles + 1 then [r.held[p.handles]] else []
  }

  /** The objects handed out in a run, in order. */
  function Handed(p: Pool, acts: seq<Action>, bound: nat): (objs: seq<Obj>)
    requires Formed(p) && Run(p, acts, bound)
    decreases |acts|
  {
    if acts == [] then [] else Out(p, acts[0]) + Handed(Apply(p, acts[0]), acts[1..], bound)
  }

  // ---------------------------------------------------------------- one getter

  /**
   * At most one thread is inside `get_obj`, any number are inside `release_obj`. The table
   * is untouched from the next ticket on: with the objects of the array still held, the
   * write cursor is where the loaded tickets end, so every store hits a cell below.
   */
  ghost predicate Alone(p: Pool)
    ensures Alone(p) ==> Formed(p)
  {
    var loaded := p.handles - p.heaps;
    && Formed(p) && |p.inside| <= 1 && 0 <= loaded <= p.size - 1
    && (p.inside == map[] ==> p.readCursor == loaded)
    && (forall t :: t in p.inside ==> match p.inside[t]
      case Checked => p.readCursor == loaded < p.size - 1
      case Ticketed(i) => i == loaded < p.size - 1 && p.readCursor == loaded + 1)
    && p.writeCursor + |FromArray(p.held)| == loaded
    && (forall j :: loaded <= j < p.size ==> p.index[j] == j)
    && (forall h :: h in p.releasing ==> p.releasing[h].target < p.writeCursor)
    && (forall h :: h in p.held ==> h < p.handles)
    && (p.heaps > 0 ==> loaded == p.size - 1 && p.inside == map[])
  }

  /** The holders of objects of the array. */
  function FromArray(held: map<nat, Obj>): set<nat> {
    set h | h in held && held[h].Pooled?
  }

  lemma HoldersAfterGet(held: map<nat, Obj>, h: nat, obj: Obj)
    requires h !in held
    ensures |FromArray(held[h := obj])| == |FromArray(held)| + if obj.Pooled? then 1 else 0
  {
    assert FromArray(held[h := obj]) == FromArray(held) + if obj.Pooled? then {h} else {};
  }

  lemma HoldersAfterLeave(held: map<nat, Obj>, h: nat)
    requires h in held
    ensures |FromArray(held)| == |FromArray(held - {h})| + if held[h].Pooled? then 1 else 0
  {
    assert FromArray(held) == FromArray(held - {h}) + if held[h].Pooled? then {h} else {};
  }

  /** The objects in the order in which a single getter sees them. */
  function Nth(size: nat, k: nat): Obj {
    if k + 1 < size then Pooled(k) else Heap(if k + 1 >= size then k + 1 - size else 0)
  }

  /** One more object is handed out in `r`, the next in order. */
  predicate Gives(p: Pool, r: Pool) {
    r.handles == p.handles + 1 && p.handles in r.held && r.held[p.handles] == Nth(p.size, p.handles)
  }

  lemma AloneInit(size: nat)
    requires size > 0
    ensures Alone(Init(size))
  {
    assert FromArray(map[]) == {};
  }

  lemma OnlyOneInside<V>(m: map<nat, V>, t: nat)
    requires |m| <= 1 && t in m
    ensures m - {t} == map[] && forall u :: u in m ==> u == t
  {
    var rest := m.Keys - {t};
    assert m.Keys == {t} + rest;
    assert |m.Keys| == |m|;
    assert rest == {};
    assert (m - {t}).Keys == {};
  }

  lemma NobodyInside<V>(m: map<nat, V>, bound: nat)
    requires |m| < bound <= 1
    ensures m == map[]
  {
    assert |m.Keys| == |m|;
    assert m.Keys == {};
  }

  lemma NobodyBeside(p: Pool, bound: nat)
    requires Alone(p) && |p.inside| < bound && (bound <= 1 || p.size == 1)
    ensures p.inside == map[] && p.readCursor == p.handles - p.heaps
  {
    hide FromArray;
    if p.size > 1 {
      NobodyInside(p.inside, bound);
    } else {
      assert p.inside.Keys == {};
    }
  }

  lemma AloneByCheck(p: Pool, t: nat, bound: nat)
    requires Alone(p) && Enabled(p, Check(t)) && Bounded(p, Check(t), bound) && (bound <= 1 || p.size == 1)
    ensures var r := Apply(p, Check(t));
      Alone(r) && (r.handles == p.handles || Gives(p, r))
  {
    hide Cell;
    NobodyBeside(p, bound);
    HoldersAfterGet(p.held, p.handles, Heap(p.heaps));
    hide FromArray;
    if p.readCursor < p.size - 1 {
      assert Apply(p, Check(t)) == p.(inside := map[t := Checked]);
    } else {
      assert Apply(p, Check(t)) == HandOutHeap(p);
    }
    hide Apply;
  }

  lemma AloneByTicket(p: Pool, t: nat)
    requires Alone(p) && Enabled(p, Ticket(t))
    ensures Alone(Apply(p, Ticket(t))) && Apply(p, Ticket(t)).handles == p.handles
  {
    hide Cell;
    hide FromArray;
    OnlyOneInside(p.inside, t);
    assert Apply(p, Ticket(t)).inside == map[t := Ticketed(p.readCursor)];
  }

  lemma AloneByLoad(p: Pool, t: nat)
    requires Alone(p) && Enabled(p, Load(t))
    ensures Alone(Apply(p, Load(t))) && Gives(p, Apply(p, Load(t)))
  {
    var r := Apply(p, Load(t));
    OnlyOneInside(p.inside, t);
    SmallCell(p.inside[t].ticket, p.size);
    hide Cell;
    assert r == HandOut(p.(inside := map[]), Pooled(p.inside[t].ticket));
    hide Apply;
    HoldersAfterGet(p.held, p.handles, Pooled(p.inside[t].ticket));
    hide FromArray;
  }

  lemma AloneByLeave(p: Pool, h: nat)
    requires Alone(p) && Enabled(p, Leave(h))
    ensures Alone(Apply(p, Leave(h))) && Apply(p, Leave(h)).handles == p.handles
  {
    hide Cell;
    HoldersAfterLeave(p.held, h);
    hide FromArray;
  }

  lemma AloneByStore(p: Pool, h: nat)
    requires Alone(p) && Enabled(p, Store(h))
    ensures Alone(Apply(p, Store(h))) && Apply(p, Store(h)).handles == p.handles
  {
    SmallCell(p.releasing[h].target, p.size);
    hide Cell;
    hide FromArray;
  }

  lemma AloneKept(p: Pool, a: Action, bound: nat)
    requires Alone(p) && Enabled(p, a) && Bounded(p, a, bound) && (bound <= 1 || p.size == 1)
    ensures var r := Apply(p, a);
      && Alone(r) && r.handles == p.handles + |Out(p, a)|
      && Out(p, a) == if r.handles > p.handles then [Nth(p.size, p.handles)] else []
  {
    hide Alone;
    hide Nth;
    match a
    case Check(t) => AloneByCheck(p, t, bound);
    case Ticket(t) => AloneByTicket(p, t);
    case Load(t) => AloneByLoad(p, t);
    case Leave(h) => AloneByLeave(p, h);
    case Store(h) => AloneByStore(p, h);
  }

  /**
   * With calls of `get_obj` one at a time, however many calls of `release_obj` overlap
   * them, the first `size - 1` objects handed out are those of the array, in order, and
   * all others come from the heap. None of them comes a second time.
   */
  lemma {:induction false} ArrayFirstThenHeap(p: Pool, acts: seq<Action>, bound: nat, k: nat)
    requires Alone(p) && Run(p, acts, bound) && (bound <= 1 || p.size == 1) && k < |Handed(p, acts, bound)|
    ensures Handed(p, acts, bound)[k] == Nth(p.size, p.handles + k)
    decreases |acts|
  {
    hide Alone;
    hide Apply;
    hide Out;
    hide Nth;
    AloneKept(p, acts[0], bound);
    var now := Out(p, acts[0]);
    if k >= |now| {
      ArrayFirstThenHeap(Apply(p, acts[0]), acts[1..], bound, k - |now|);
    }
  }

  /** No object is handed out a second time, released or not. */
  ghost predicate NoneTwice(objs: seq<Obj>) {
    forall i, j :: 0 <= i < j < |objs| ==> objs[i] != objs[j]
  }

  lemma NthDiffer(size: nat, i: nat, j: nat)
    requires size > 0 && i < j
    ensures Nth(size, i) != Nth(size, j)
  {
  }

  lemma OneGetterHandsOutFreshObjects(p: Pool, acts: seq<Action>, bound: nat)
    requires Alone(p) && Run(p, acts, bound) && (bound <= 1 || p.size == 1)
    ensures NoneTwice(Handed(p, acts, bound))
  {
    var objs := Handed(p, acts, bound);
    forall i, j | 0 <= i < j < |objs|
      ensures objs[i] != objs[j]
    {
      ArrayFirstThenHeap(p, acts, bound, i);
      ArrayFirstThenHeap(p, acts, bound, j);
      NthDiffer(p.size, p.handles + i, p.handles + j);
      hide *;
    }
  }

  // ---------------------------------------------------------------- one call at a time

  /** Nobody is inside a call. */
  predicate Quiet(p: Pool) {
    Formed(p) && p.inside == map[] && p.releasing == map[]
  }

  /** A call of `get_obj`: check, then ticket and load if the check lets it through. */
  function GetOnce(p: Pool): (r: Pool)
    requires Quiet(p)
    ensures Formed(r) && r.size == p.size
  {
    var c := Apply(p, Check(0));
    if 0 in c.inside then Apply(Apply(c, Ticket(0)), Load(0)) else c
  }

  /** A call of `release_obj` by the holder with handle `h`. */
  function ReleaseOnce(p: Pool, h: nat): (r: Pool)
    requires Quiet(p) && h in p.held
    ensures Formed(r) && r.size == p.size
  {
    var l := Apply(p, Leave(h));
    if h in l.releasing then Apply(l, Store(h)) else l
  }

  /** Between calls that do not overlap. */
  ghost predicate Fresh(p: Pool) {
    Quiet(p) && Alone(p)
  }

  lemma FreshInit(size: nat)
    requires size > 0
    ensures Fresh(Init(size))
  {
    AloneInit(size);
  }

  /** The next object: the next one of the array while there are two left, then the heap's. */
  function Next(p: Pool): Obj {
    if p.readCursor < p.size - 1 then Pooled(p.readCursor) else Heap(p.heaps)
  }

  /** What a call of `get_obj` changes. */
  lemma GetOnceIs(p: Pool)
    requires Fresh(p)
    ensures p.readCursor < p.size && p.index[p.readCursor] == p.readCursor
    ensures GetOnce(p) ==
      if Next(p).Pooled? then HandOut(p.(readCursor := p.readCursor + 1), Next(p)) else HandOutHeap(p)
  {
    hide FromArray;
    SmallCell(p.readCursor, p.size);
    hide Cell;
    assert p.inside[0 := Checked][0 := Ticketed(p.readCursor)] - {0} == map[];
  }

  lemma GetKeepsAlone(p: Pool)
    requires Fresh(p)
    ensures Alone(GetOnce(p))
  {
    AloneByCheck(p, 0, 1);
    hide Alone;
    hide Cell;
    var c := Apply(p, Check(0));
    if 0 in c.inside {
      AloneByTicket(c, 0);
      AloneByLoad(Apply(c, Ticket(0)), 0);
    }
  }

  lemma FreshGet(p: Pool)
    requires Fresh(p)
    ensures var r := GetOnce(p);
      && Fresh(r) && r.held == p.held[p.handles := Next(p)] && r.handles == p.handles + 1
      && r.readCursor == p.readCursor + (if Next(p).Pooled? then 1 else 0)
      && r.heaps == p.heaps + (if Next(p).Pooled? then 0 else 1)
  {
    GetOnceIs(p);
    GetKeepsAlone(p);
    hide Alone;
    hide Apply;
    hide GetOnce;
  }

  /** What a call of `release_obj` changes. */
  lemma ReleaseOnceIs(p: Pool, h: nat)
    requires Fresh(p) && h in p.held
    ensures p.held[h].Pooled? ==> p.writeCursor < p.size
    ensures ReleaseOnce(p, h) ==
      if p.held[h].Heap? then p.(held := p.held - {h})
      else p.(held := p.held - {h}, writeCursor := p.writeCursor + 1,
              index := p.index[p.writeCursor := p.held[h].index])
  {
    HoldersAfterLeave(p.held, h);
    hide FromArray;
    if p.held[h].Pooled? {
      SmallCell(p.writeCursor, p.size);
      hide Cell;
      assert p.releasing[h := Leaver(p.held[h].index, p.writeCursor)] - {h} == map[];
    }
  }

  lemma ReleaseKeepsAlone(p: Pool, h: nat)
    requires Fresh(p) && h in p.held
    ensures Alone(ReleaseOnce(p, h))
  {
    AloneByLeave(p, h);
    hide Alone;
    hide Cell;
    var l := Apply(p, Leave(h));
    if h in l.releasing {
      AloneByStore(l, h);
    }
  }

  lemma FreshRelease(p: Pool, h: nat)
    requires Fresh(p) && h in p.held
    ensures var r := ReleaseOnce(p, h);
      && Fresh(r) && r.held == p.held - {h} && r.handles == p.handles
      && r.readCursor == p.readCursor && r.heaps == p.heaps
  {
    ReleaseOnceIs(p, h);
    ReleaseKeepsAlone(p, h);
    hide Alone;
    hide Apply;
    hide ReleaseOnce;
  }

  lemma FreshSizes(p: Pool)
    requires Fresh(p)
    ensures Quiet(p) && p.readCursor < p.size
  {
  }
}
