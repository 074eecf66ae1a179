/** How many threads inside `get_obj` the pool stands, for each of the things it might promise. */
module PoolLimits {
  import opened Laps
  import opened PoolSteps
  import opened PoolUse

  // ---------------------------------------------------------------- three at a time

  /** The pool after `k` calls of `get_obj` by one thread. */
  function After(size: nat, k: nat): Pool {
    Init(size).(readCursor := k, handles := k, held := FirstObjects(k))
  }

  function FirstObjects(k: nat): (m: map<nat, Obj>)
    ensures forall h: nat :: h in m <==> h < k
    ensures forall h: nat :: h < k ==> m[h] == Pooled(h)
  {
    map h: nat | h < k :: Pooled(h)
  }

  /** The run `acts` leads from `p` to `q`. */
  predicate Leads(p: Pool, acts: seq<Action>, q: Pool, bound: nat) {
    Formed(p) && Run(p, acts, bound) && Exec(p, acts, bound) == q
  }

  lemma LeadsOn(p: Pool, a: seq<Action>, q: Pool, b: seq<Action>, r: Pool, bound: nat)
    requires Leads(p, a, q, bound) && Leads(q, b, r, bound)
    ensures Leads(p, a + b, r, bound)
  {
    ExecThen(p, a, b, bound);
  }

  lemma LeadsByOne(p: Pool, a: Action, bound: nat)
    requires Formed(p) && Enabled(p, a) && Bounded(p, a, bound)
    ensures Leads(p, [a], Apply(p, a), bound)
  {
    hide Apply;
    assert [a][1..] == [];
    assert Run(Apply(p, a), [], bound) && Exec(Apply(p, a), [], bound) == Apply(p, a);
  }

  lemma {:induction false} GetMany(size: nat, k: nat, bound: nat) returns (acts: seq<Action>)
    requires size >= 1 && k <= size - 1 && bound > 0
    ensures Leads(Init(size), acts, After(size, k), bound)
  {
    if k == 0 {
      acts := [];
      assert FirstObjects(0) == map[];
      assert After(size, 0) == Init(size);
    } else {
      var first := GetMany(size, k - 1, bound);
      var p := After(size, k - 1);
      SmallCell(k - 1, size);
      hide Cell;
      var p1 := Apply(p, Check(0));
      var p2 := Apply(p1, Ticket(0));
      var p3 := Apply(p2, Load(0));
      assert p3 == After(size, k);
      LeadsByOne(p, Check(0), bound);
      LeadsByOne(p1, Ticket(0), bound);
      LeadsByOne(p2, Load(0), bound);
      hide Leads;
      LeadsOn(Init(size), first, p, [Check(0)], p1, bound);
      LeadsOn(Init(size), first + [Check(0)], p1, [Ticket(0)], p2, bound);
      LeadsOn(Init(size), first + [Check(0)] + [Ticket(0)], p2, [Load(0)], p3, bound);
      acts := first + [Check(0)] + [Ticket(0)] + [Load(0)];
    }
  }

  /** Three threads pass the check together when one ticket is left of those it is meant to guard. */
  lemma ThreePass(size: nat, bound: nat) returns (acts: seq<Action>, q: Pool)
    requires size >= 2 && bound >= 3
    ensures Leads(After(size, size - 2), acts, q, bound)
    ensures q == After(size, size - 2).(
      inside := map[0 := Ticketed(size - 2), 1 := Ticketed(size - 1), 2 := Ticketed(size)], readCursor := size + 1)
  {
    var p := After(size, size - 2);
    var p1 := Apply(p, Check(0));
    var p2 := Apply(p1, Check(1));
    var p3 := Apply(p2, Check(2));
    LeadsByOne(p, Check(0), bound);
    LeadsByOne(p1, Check(1), bound);
    LeadsByOne(p2, Check(2), bound);
    var p4 := Apply(p3, Ticket(0));
    var p5 := Apply(p4, Ticket(1));
    q := Apply(p5, Ticket(2));
    LeadsByOne(p3, Ticket(0), bound);
    LeadsByOne(p4, Ticket(1), bound);
    LeadsByOne(p5, Ticket(2), bound);
    assert q.inside == map[0 := Ticketed(size - 2), 1 := Ticketed(size - 1), 2 := Ticketed(size)];
    hide Leads;
    LeadsOn(p, [Check(0)], p1, [Check(1)], p2, bound);
    LeadsOn(p, [Check(0)] + [Check(1)], p2, [Check(2)], p3, bound);
    var c := [Check(0)] + [Check(1)] + [Check(2)];
    LeadsOn(p, c, p3, [Ticket(0)], p4, bound);
    LeadsOn(p, c + [Ticket(0)], p4, [Ticket(1)], p5, bound);
    LeadsOn(p, c + [Ticket(0)] + [Ticket(1)], p5, [Ticket(2)], q, bound);
    acts := c + [Ticket(0)] + [Ticket(1)] + [Ticket(2)];
  }

  /** The third ticket is the size; a release that has only its ticket makes cell 0 look filled. */
  lemma ThirdGetsHeldObject(p: Pool, bound: nat) returns (acts: seq<Action>, q: Pool)
    requires p.size >= 2
    requires p == After(p.size, p.size - 2).(
      inside := map[0 := Ticketed(p.size - 2), 1 := Ticketed(p.size - 1), 2 := Ticketed(p.size)],
      readCursor := p.size + 1)
    ensures Leads(p, acts, q, bound) && !Exclusive(q)
  {
    var n := p.size;
    FirstLoad(p, bound);
    var p2 := SecondLoad(n, bound);
    LeadsOn(p, [Load(0)], FirstLoaded(n), [Load(1)], p2, bound);
    SmallCell(0, n);
    SmallCell(1, n);
    NextLapSameCell(0, n);
    hide Cell;
    var p3 := Apply(p2, Leave(n - 1));
    q := Apply(p3, Load(2));
    LeadsByOne(p2, Leave(n - 1), bound);
    LeadsByOne(p3, Load(2), bound);
    assert 0 in q.held && n in q.held && q.held[0] == Pooled(0) == q.held[n];
    hide Leads;
    LeadsOn(p, [Load(0)] + [Load(1)], p2, [Leave(n - 1)], p3, bound);
    LeadsOn(p, [Load(0)] + [Load(1)] + [Leave(n - 1)], p3, [Load(2)], q, bound);
    acts := [Load(0)] + [Load(1)] + [Leave(n - 1)] + [Load(2)];
  }

  /** Three threads have the last two tickets and one more, and the first has loaded. */
  function FirstLoaded(n: nat): Pool
    requires n >= 2
  {
    After(n, n - 1).(inside := map[1 := Ticketed(n - 1), 2 := Ticketed(n)], readCursor := n + 1)
  }

  lemma FirstLoad(p: Pool, bound: nat)
    requires p.size >= 2
    requires p == After(p.size, p.size - 2).(
      inside := map[0 := Ticketed(p.size - 2), 1 := Ticketed(p.size - 1), 2 := Ticketed(p.size)],
      readCursor := p.size + 1)
    ensures Leads(p, [Load(0)], FirstLoaded(p.size), bound)
  {
    SmallCell(p.size - 2, p.size);
    hide Cell;
    var q := Apply(p, Load(0));
    assert q.held == FirstObjects(p.size - 1);
    assert q.inside == map[1 := Ticketed(p.size - 1), 2 := Ticketed(p.size)];
    LeadsByOne(p, Load(0), bound);
  }

  lemma SecondLoad(n: nat, bound: nat) returns (q: Pool)
    requires n >= 2
    ensures Leads(FirstLoaded(n), [Load(1)], q, bound)
    ensures q == After(n, n).(inside := map[2 := Ticketed(n)], readCursor := n + 1)
  {
    SmallCell(n - 1, n);
    hide Cell;
    q := Apply(FirstLoaded(n), Load(1));
    assert q.held == FirstObjects(n);
    assert q.inside == map[2 := Ticketed(n)];
    LeadsByOne(FirstLoaded(n), Load(1), bound);
  }

  lemma ThreeGettersShareAnObject(size: nat, bound: nat) returns (acts: seq<Action>)
    requires size >= 2 && bound >= 3
    ensures Run(Init(size), acts, bound) && !Exclusive(Exec(Init(size), acts, bound))
  {
    var a := GetMany(size, size - 2, bound);
    var b, p := ThreePass(size, bound);
    var c, q := ThirdGetsHeldObject(p, bound);
    LeadsOn(Init(size), a, After(size, size - 2), b, p, bound);
    LeadsOn(Init(size), a + b, p, c, q, bound);
    acts := a + b + c;
  }

  /**
   * The bound is exact: objects stay exclusive in every run if and only if at most two
   * threads may be inside `get_obj` at once, or there is but one object.
   */
  lemma TwoGettersIsTheLimit(size: nat, bound: nat)
    requires size > 0
    ensures (forall acts | Run(Init(size), acts, bound) :: Exclusive(Exec(Init(size), acts, bound)))
      <==> (bound <= 2 || size == 1)
  {
    if bound <= 2 || size == 1 {
      forall acts | Run(Init(size), acts, bound)
        ensures Exclusive(Exec(Init(size), acts, bound))
      {
        InvInit(size, bound);
        InvAlways(Init(size), acts, bound);
        InvExclusive(Exec(Init(size), acts, bound), bound);
      }
    } else {
      var acts := ThreeGettersShareAnObject(size, bound);
    }
  }

  // ---------------------------------------------------------------- two at a time

  /** The pool after `k` calls of `get_obj`, each object given back before the next call. */
  function Cycled(size: nat, k: nat): Pool {
    Init(size).(readCursor := k, writeCursor := k, handles := k)
  }

  lemma CycleOnce(size: nat, k: nat) returns (acts: seq<Action>)
    requires k + 1 < size
    ensures Leads(Cycled(size, k), acts, Cycled(size, k + 1), 2)
  {
    SmallCell(k, size);
    hide Cell;
    var p := Cycled(size, k);
    var p1 := Apply(p, Check(0));
    var p2 := Apply(p1, Ticket(0));
    var p3 := Apply(p2, Load(0));
    var p4 := Apply(p3, Leave(k));
    var p5 := Apply(p4, Store(k));
    assert p5.index == p.index && p5 == Cycled(size, k + 1);
    LeadsByOne(p, Check(0), 2);
    LeadsByOne(p1, Ticket(0), 2);
    LeadsByOne(p2, Load(0), 2);
    LeadsByOne(p3, Leave(k), 2);
    LeadsByOne(p4, Store(k), 2);
    hide Leads;
    LeadsOn(p, [Check(0)], p1, [Ticket(0)], p2, 2);
    LeadsOn(p, [Check(0)] + [Ticket(0)], p2, [Load(0)], p3, 2);
    var a := [Check(0)] + [Ticket(0)] + [Load(0)];
    LeadsOn(p, a, p3, [Leave(k)], p4, 2);
    LeadsOn(p, a + [Leave(k)], p4, [Store(k)], p5, 2);
    acts := a + [Leave(k)] + [Store(k)];
  }

  lemma {:induction false} CycleMany(size: nat, k: nat) returns (acts: seq<Action>)
    requires k < size
    ensures Leads(Init(size), acts, Cycled(size, k), 2)
  {
    if k == 0 {
      acts := [];
      assert Cycled(size, 0) == Init(size);
    } else {
      var before := CycleMany(size, k - 1);
      var once := CycleOnce(size, k - 1);
      LeadsOn(Init(size), before, Cycled(size, k - 1), once, Cycled(size, k), 2);
      acts := before + once;
    }
  }

  /** Two threads have the last two tickets, and the one with the last has loaded. */
  lemma LastLoaded(n: nat) returns (acts: seq<Action>, q: Pool)
    requires n >= 2
    ensures Leads(Cycled(n, n - 2), acts, q, 2)
    ensures q == Cycled(n, n - 2).(readCursor := n, inside := map[0 := Ticketed(n - 2)],
                                   held := map[n - 2 := Pooled(n - 1)], handles := n - 1)
  {
    var p := Cycled(n, n - 2);
    SmallCell(n - 1, n);
    hide Cell;
    var p1 := Apply(p, Check(0));
    var p2 := Apply(p1, Check(1));
    var p3 := Apply(p2, Ticket(0));
    var p4 := Apply(p3, Ticket(1));
    q := Apply(p4, Load(1));
    assert q.inside == map[0 := Ticketed(n - 2)] && q.held == map[n - 2 := Pooled(n - 1)];
    LeadsByOne(p, Check(0), 2);
    LeadsByOne(p1, Check(1), 2);
    LeadsByOne(p2, Ticket(0), 2);
    LeadsByOne(p3, Ticket(1), 2);
    LeadsByOne(p4, Load(1), 2);
    hide Leads;
    var a := [Check(0)] + [Check(1)];
    LeadsOn(p, [Check(0)], p1, [Check(1)], p2, 2);
    LeadsOn(p, a, p2, [Ticket(0)], p3, 2);
    LeadsOn(p, a + [Ticket(0)], p3, [Ticket(1)], p4, 2);
    LeadsOn(p, a + [Ticket(0)] + [Ticket(1)], p4, [Load(1)], q, 2);
    acts := a + [Ticket(0)] + [Ticket(1)] + [Load(1)];
  }

  /** It gives its object back into the cell the other one is about to load. */
  lemma LoadedAgain(n: nat, p: Pool) returns (acts: seq<Action>, q: Pool)
    requires n >= 2
    requires p == Cycled(n, n - 2).(readCursor := n, inside := map[0 := Ticketed(n - 2)],
                                    held := map[n - 2 := Pooled(n - 1)], handles := n - 1)
    ensures Leads(p, acts, q, 2) && n - 1 in q.held && q.held[n - 1] == Pooled(n - 1)
  {
    SmallCell(n - 2, n);
    hide Cell;
    var p1 := Apply(p, Leave(n - 2));
    var p2 := Apply(p1, Store(n - 2));
    q := Apply(p2, Load(0));
    LeadsByOne(p, Leave(n - 2), 2);
    LeadsByOne(p1, Store(n - 2), 2);
    LeadsByOne(p2, Load(0), 2);
    hide Leads;
    LeadsOn(p, [Leave(n - 2)], p1, [Store(n - 2)], p2, 2);
    LeadsOn(p, [Leave(n - 2)] + [Store(n - 2)], p2, [Load(0)], q, 2);
    acts := [Leave(n - 2)] + [Store(n - 2)] + [Load(0)];
  }

  /** The holder `g` of an earlier state has an object of the array that a later one, `h`, has now. */
  predicate HadBefore(p: Pool, q: Pool, g: nat, h: nat) {
    g in p.held && h in q.held && g < p.handles <= h && p.held[g] == q.held[h] && p.held[g].Pooled?
  }

  /**
   * With two threads inside `get_obj` an object can be used again: in a pool of any size
   * there is a run in which an object that one holder had, and gave back, is handed out to
   * another one, with everything its first user left in it.
   */
  lemma TwoGettersReuseAnObject(size: nat) returns (a: seq<Action>, b: seq<Action>)
    requires size >= 2
    ensures Run(Init(size), a, 2) && Run(Init(size), a + b, 2)
    ensures var p, q := Exec(Init(size), a, 2), Exec(Init(size), a + b, 2);
      exists g, h :: HadBefore(p, q, g, h)
  {
    var c := CycleMany(size, size - 2);
    var d, p := LastLoaded(size);
    var e, q := LoadedAgain(size, p);
    LeadsOn(Init(size), c, Cycled(size, size - 2), d, p, 2);
    LeadsOn(Init(size), c + d, p, e, q, 2);
    a, b := c + d, e;
    var g, h: nat := size - 2, size - 1;
    assert HadBefore(p, q, g, h);
    assert Exec(Init(size), a, 2) == p && Exec(Init(size), a + b, 2) == q;
  }

  // ---------------------------------------------------------------- two getters

  /** `objs` is what was handed out up to `p`, by handle. */
  ghost predicate Ledger(p: Pool, objs: seq<Obj>) {
    |objs| == p.handles && forall h :: h in p.held ==> h < p.handles && objs[h] == p.held[h]
  }

  lemma LedgerStep(p: Pool, a: Action, objs: seq<Obj>)
    requires Formed(p) && Enabled(p, a) && Ledger(p, objs)
    ensures Ledger(Apply(p, a), objs + Out(p, a))
  {
    hide Cell;
  }

  lemma {:induction false} LedgerKept(p: Pool, acts: seq<Action>, bound: nat, objs: seq<Obj>)
    requires Formed(p) && Run(p, acts, bound) && Ledger(p, objs)
    ensures Ledger(Exec(p, acts, bound), objs + Handed(p, acts, bound))
    decreases |acts|
  {
    hide Ledger;
    hide Apply;
    hide Out;
    if acts == [] {
      assert objs + [] == objs;
    } else {
      LedgerStep(p, acts[0], objs);
      LedgerKept(Apply(p, acts[0]), acts[1..], bound, objs + Out(p, acts[0]));
      assert objs + Handed(p, acts, bound) ==
        objs + Out(p, acts[0]) + Handed(Apply(p, acts[0]), acts[1..], bound);
    }
  }

  lemma {:induction false} HandedThen(p: Pool, a: seq<Action>, b: seq<Action>, bound: nat)
    requires Formed(p) && Run(p, a, bound) && Run(p, a + b, bound)
    ensures Handed(p, a, bound) <= Handed(p, a + b, bound)
    decreases |a|
  {
    hide Apply;
    hide Out;
    if a != [] {
      assert (a + b)[1..] == a[1..] + b;
      HandedThen(Apply(p, a[0]), a[1..], b, bound);
    }
  }

  /** What a smaller bound allows, a larger one does. */
  lemma {:induction false} BoundGrows(p: Pool, acts: seq<Action>, bound: nat, more: nat)
    requires Formed(p) && Run(p, acts, bound) && bound <= more
    ensures Run(p, acts, more) && Exec(p, acts, more) == Exec(p, acts, bound)
    decreases |acts|
  {
    hide Apply;
    if acts != [] {
      BoundGrows(Apply(p, acts[0]), acts[1..], bound, more);
    }
  }

  lemma SameObjectTwice(p: Pool, q: Pool, before: seq<Obj>, objs: seq<Obj>, g: nat, h: nat)
    requires Ledger(p, before) && Ledger(q, objs) && before <= objs && HadBefore(p, q, g, h)
    ensures !NoneTwice(objs)
  {
    assert objs[g] == before[g] == objs[h];
  }

  lemma TwoGettersRepeat(size: nat, bound: nat) returns (acts: seq<Action>)
    requires size >= 2 && bound >= 2
    ensures Run(Init(size), acts, bound) && !NoneTwice(Handed(Init(size), acts, bound))
  {
    var a, b := TwoGettersReuseAnObject(size);
    var start := Init(size);
    var p, q := Exec(start, a, 2), Exec(start, a + b, 2);
    var g: nat, h: nat :| HadBefore(p, q, g, h);
    BoundGrows(start, a, 2, bound);
    BoundGrows(start, a + b, 2, bound);
    acts := a + b;
    assert Ledger(start, []);
    LedgerKept(start, a, bound, []);
    LedgerKept(start, acts, bound, []);
    HandedThen(start, a, b, bound);
    hide *;
    assert [] + Handed(start, acts, bound) == Handed(start, acts, bound);
    assert [] + Handed(start, a, bound) == Handed(start, a, bound);
    SameObjectTwice(p, q, Handed(start, a, bound), Handed(start, acts, bound), g, h);
  }

  /**
   * The bound is exact: in every run no object is handed out twice if and only if calls of
   * `get_obj` do not overlap, or there is but one object.
   */
  lemma OneGetterIsTheLimit(size: nat, bound: nat)
    requires size > 0
    ensures (forall acts | Run(Init(size), acts, bound) :: NoneTwice(Handed(Init(size), acts, bound)))
      <==> (bound <= 1 || size == 1)
  {
    if bound <= 1 || size == 1 {
      forall acts | Run(Init(size), acts, bound)
        ensures NoneTwice(Handed(Init(size), acts, bound))
      {
        AloneInit(size);
        OneGetterHandsOutFreshObjects(Init(size), acts, bound);
      }
    } else {
      var acts := TwoGettersRepeat(size, bound);
    }
  }
}
