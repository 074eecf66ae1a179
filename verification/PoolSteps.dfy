/**
 * `object_pool<T>` as a state machine. `get_obj` is a check, a ticket and a load of the
 * index table; `release_obj` is a ticket and a store. Threads interleave between these.
 */
module PoolSteps {
  import opened Laps

  /** An object by its address: in the pre-allocated array, or from the heap. */
  datatype Obj = Pooled(index: nat) | Heap(id: nat)

  /** A thread inside `get_obj`. */
  datatype Getter = Checked | Ticketed(ticket: nat)

  /** A thread inside `release_obj`: it has its ticket and is about to store `index`. */
  datatype Leaver = Leaver(index: nat, target: nat)

  /**
   * `held` is who holds what: every object handed out has its own handle. `releasing` has
   * the objects on their way back.
   */
  datatype Pool = Pool(
    size: nat,
    index: seq<nat>,
    readCursor: nat,
    writeCursor: nat,
    inside: map<nat, Getter>,
    held: map<nat, Obj>,
    releasing: map<nat, Leaver>,
    handles: nat,
    heaps: nat)

  datatype Action =
    | Check(t: nat)
    | Ticket(t: nat)
    | Load(t: nat)
    | Leave(h: nat)
    | Store(h: nat)

  function Identity(n: nat): (s: seq<nat>)
    ensures |s| == n && forall j :: 0 <= j < n ==> s[j] == j
  {
    if n == 0 then [] else Identity(n - 1) + [n - 1]
  }

  function Init(size: nat): Pool {
    Pool(size, Identity(size), 0, 0, map[], map[], map[], 0, 0)
  }

  function HandOut(p: Pool, obj: Obj): Pool {
    p.(held := p.held[p.handles := obj], handles := p.handles + 1)
  }

  function HandOutHeap(p: Pool): Pool {
    HandOut(p, Heap(p.heaps)).(heaps := p.heaps + 1)
  }

  predicate Enabled(p: Pool, a: Action) {
    match a
    case Check(t) => t !in p.inside
    case Ticket(t) => t in p.inside && p.inside[t] == Checked
    case Load(t) => t in p.inside && p.inside[t].Ticketed?
    case Leave(h) => h in p.held
    case Store(h) => h in p.releasing
  }

  predicate Formed(p: Pool) {
    p.size > 0 && |p.index| == p.size
  }

  function Apply(p: Pool, a: Action): (r: Pool)
    requires Formed(p) && Enabled(p, a)
    ensures Formed(r) && r.size == p.size
  {
    var n := p.size;
    match a
    case Check(t) =>
      if p.readCursor < n - 1 then p.(inside := p.inside[t := Checked]) else HandOutHeap(p)
    case Ticket(t) =>
      p.(inside := p.inside[t := Ticketed(p.readCursor)], readCursor := p.readCursor + 1)
    case Load(t) =>
      var i := p.inside[t].ticket;
      var out := p.(inside := p.inside - {t});
      if i < n || Cell(i, n) < Cell(p.writeCursor, n) then HandOut(out, Pooled(p.index[Cell(i, n)]))
      else HandOutHeap(out.(readCursor := if p.readCursor > 0 then p.readCursor - 1 else 0))
    case Leave(h) =>
      var gone := p.(held := p.held - {h});
      if p.held[h].Heap? then gone
      else gone.(releasing := p.releasing[h := Leaver(p.held[h].index, p.writeCursor)],
                 writeCursor := p.writeCursor + 1)
    case Store(h) =>
      var l := p.releasing[h];
      p.(index := p.index[Cell(l.target, n) := l.index], releasing := p.releasing - {h})
  }

  /** At most `bound` threads are inside `get_obj` at once. */
  predicate Bounded(p: Pool, a: Action, bound: nat) {
    a.Check? ==> |p.inside| < bound
  }

  predicate Run(p: Pool, acts: seq<Action>, bound: nat)
    requires Formed(p)
    decreases |acts|
  {
    acts == [] || (Enabled(p, acts[0]) && Bounded(p, acts[0], bound) && Run(Apply(p, acts[0]), acts[1..], bound))
  }

  function Exec(p: Pool, acts: seq<Action>, bound: nat): (r: Pool)
    requires Formed(p) && Run(p, acts, bound)
    ensures Formed(r) && r.size == p.size
    decreases |acts|
  {
    if acts == [] then p else Exec(Apply(p, acts[0]), acts[1..], bound)
  }

  lemma {:induction false} ExecThen(p: Pool, a: seq<Action>, b: seq<Action>, bound: nat)
    requires Formed(p) && Run(p, a, bound) && Run(Exec(p, a, bound), b, bound)
    ensures Run(p, a + b, bound) && Exec(p, a + b, bound) == Exec(Exec(p, a, bound), b, bound)
    decreases |a|
  {
    hide Apply;
    hide Enabled;
    if a == [] {
      assert a + b == b;
    } else {
      assert (a + b)[1..] == a[1..] + b;
      ExecThen(Apply(p, a[0]), a[1..], b, bound);
    }
  }

  // ---------------------------------------------------------------- exclusivity

  /** No object is held by two holders at once. */
  ghost predicate Exclusive(p: Pool) {
    forall g, h :: g in p.held && h in p.held && g != h ==> p.held[g] != p.held[h]
  }

  /** Where an index of the array can be: in a cell not yet loaded, with a holder, on the way back. */
  datatype Place = CellAt(j: nat) | HeldBy(h: nat) | LeavingBy(h: nat)

  ghost predicate Awaited(p: Pool, j: nat) {
    j < p.size && (p.readCursor <= j || exists t :: t in p.inside && p.inside[t] == Ticketed(j))
  }

  ghost predicate Live(p: Pool, x: Place) {
    match x
    case CellAt(j) => Awaited(p, j)
    case HeldBy(h) => h in p.held && p.held[h].Pooled?
    case LeavingBy(h) => h in p.releasing
  }

  function Value(p: Pool, x: Place): nat {
    match x
    case CellAt(j) => if j < |p.index| then p.index[j] else 0
    case HeldBy(h) => if h in p.held && p.held[h].Pooled? then p.held[h].index else 0
    case LeavingBy(h) => if h in p.releasing then p.releasing[h].index else 0
  }

  /** Every index is in one place at most. */
  ghost predicate Distinct(p: Pool) {
    forall x, y :: Live(p, x) && Live(p, y) && x != y ==> Value(p, x) != Value(p, y)
  }

  /** Tickets given and to be given stay below the size. */
  ghost predicate TicketsBelow(p: Pool) {
    && p.readCursor <= p.size
    && (forall t :: t in p.inside && p.inside[t] == Checked ==> p.readCursor + 1 <= p.size)
    && (forall t, u :: t in p.inside && u in p.inside && t != u && p.inside[t] == Checked && p.inside[u] == Checked ==>
      p.readCursor + 2 <= p.size)
    && (forall t :: t in p.inside && p.inside[t].Ticketed? ==> p.inside[t].ticket < p.readCursor)
    && (forall t, u :: t in p.inside && u in p.inside && t != u && p.inside[t].Ticketed? && p.inside[u].Ticketed? ==>
      p.inside[t].ticket != p.inside[u].ticket)
  }

  ghost predicate HandlesFresh(p: Pool) {
    && (forall h :: h in p.held ==> h < p.handles)
    && (forall h :: h in p.releasing ==> h < p.handles)
    && (forall h :: h in p.held && h in p.releasing ==> false)
    && (forall h :: h in p.held && p.held[h].Heap? ==> p.held[h].id < p.heaps)
    && (forall g, h :: g in p.held && h in p.held && g != h && p.held[g].Heap? && p.held[h].Heap? ==>
      p.held[g] != p.held[h])
  }

  ghost predicate Inv(p: Pool, bound: nat)
    ensures Inv(p, bound) ==> Formed(p)
  {
    && Formed(p) && (bound <= 2 || p.size == 1)
    && (bound <= 2 ==> |p.inside| <= 2) && (p.size == 1 ==> p.inside == map[])
    && TicketsBelow(p) && HandlesFresh(p) && Distinct(p)
  }

  lemma InvInit(size: nat, bound: nat)
    requires size > 0 && (bound <= 2 || size == 1)
    ensures Inv(Init(size), bound)
  {
  }

  lemma InvExclusive(p: Pool, bound: nat)
    requires Inv(p, bound)
    ensures Exclusive(p)
  {
    hide TicketsBelow;
    hide Awaited;
    forall g, h | g in p.held && h in p.held && g != h
      ensures p.held[g] != p.held[h]
    {
      if p.held[g].Pooled? && p.held[h].Pooled? {
        assert Live(p, HeldBy(g)) && Live(p, HeldBy(h));
      }
    }
  }

  lemma ThreeInside<K, V>(m: map<K, V>, t: K, u: K, v: K)
    requires t in m && u in m && v in m && t != u && u != v && t != v
    ensures |m| >= 3
  {
    assert {t, u, v} <= m.Keys;
    var rest := m.Keys - {t, u, v};
    assert m.Keys == {t, u, v} + rest;
    assert |m.Keys| == |m|;
  }

  lemma SmallCell(i: nat, n: nat)
    requires i < n
    ensures Cell(i, n) == i
  {
    QuotientRemainder(i, 0, i, n);
  }

  lemma TicketsKept(p: Pool, a: Action, bound: nat)
    requires Inv(p, bound) && Enabled(p, a) && Bounded(p, a, bound)
    ensures TicketsBelow(Apply(p, a))
  {
    hide Cell;
    hide HandlesFresh;
    hide Distinct;
    var r := Apply(p, a);
    if a.Ticket? {
      forall u, v | u in r.inside && v in r.inside && u != v && r.inside[u] == Checked && r.inside[v] == Checked
        ensures false
      {
        ThreeInside(p.inside, a.t, u, v);
      }
    } else if a.Load? {
      assert p.inside[a.t].ticket < p.size;
    }
  }

  lemma HandlesKept(p: Pool, a: Action)
    requires Formed(p) && HandlesFresh(p) && Enabled(p, a)
    ensures HandlesFresh(Apply(p, a))
  {
    hide Cell;
  }

  /** Where the index at a place of the new state was before the step. */
  function Before(p: Pool, a: Action, x: Place): Place
    requires Formed(p) && Enabled(p, a)
  {
    match a
    case Load(t) => if x == HeldBy(p.handles) then CellAt(p.inside[t].ticket) else x
    case Leave(h) => if x == LeavingBy(h) then HeldBy(h) else x
    case Store(h) => if x == CellAt(Cell(p.releasing[h].target, p.size)) then LeavingBy(h) else x
    case _ => x
  }

  /**
   * Every index comes from one place. A store may hit the cell of a ticket not yet loaded:
   * what stood there is lost, and the index it brings is nowhere else.
   */
  lemma FromOnePlace(p: Pool, a: Action, x: Place, bound: nat)
    requires Inv(p, bound) && Enabled(p, a) && Live(Apply(p, a), x)
    ensures Live(p, Before(p, a, x)) && Value(p, Before(p, a, x)) == Value(Apply(p, a), x)
    ensures Before(p, a, x) != x ==> !Live(Apply(p, a), Before(p, a, x))
  {
    hide Distinct;
    hide Cell;
    hide TicketsBelow;
    hide HandlesFresh;
    hide Awaited;
    match a
    case Check(t) => AwaitedByCheck(p, t, x);
    case Ticket(t) => AwaitedByTicket(p, t, x);
    case Load(t) => FromCell(p, t, x, bound);
    case Leave(h) => FromHolder(p, h, x, bound);
    case Store(h) => FromLeaver(p, h, x, bound);
  }

  lemma FromCell(p: Pool, t: nat, x: Place, bound: nat)
    requires Inv(p, bound) && Enabled(p, Load(t)) && Live(Apply(p, Load(t)), x)
    ensures Live(p, Before(p, Load(t), x)) && Value(p, Before(p, Load(t), x)) == Value(Apply(p, Load(t)), x)
    ensures Before(p, Load(t), x) != x ==> !Live(Apply(p, Load(t)), Before(p, Load(t), x))
  {
    hide Distinct;
    hide Cell;
    hide Awaited;
    AwaitedByLoad(p, t, x);
    SmallCell(p.inside[t].ticket, p.size);
    hide TicketsBelow;
  }

  lemma FromHolder(p: Pool, h: nat, x: Place, bound: nat)
    requires Inv(p, bound) && Enabled(p, Leave(h)) && Live(Apply(p, Leave(h)), x)
    ensures Live(p, Before(p, Leave(h), x)) && Value(p, Before(p, Leave(h), x)) == Value(Apply(p, Leave(h)), x)
    ensures Before(p, Leave(h), x) != x ==> !Live(Apply(p, Leave(h)), Before(p, Leave(h), x))
  {
    hide Distinct;
    hide Cell;
    hide TicketsBelow;
  }

  lemma FromLeaver(p: Pool, h: nat, x: Place, bound: nat)
    requires Inv(p, bound) && Enabled(p, Store(h)) && Live(Apply(p, Store(h)), x)
    ensures Live(p, Before(p, Store(h), x)) && Value(p, Before(p, Store(h), x)) == Value(Apply(p, Store(h)), x)
    ensures Before(p, Store(h), x) != x ==> !Live(Apply(p, Store(h)), Before(p, Store(h), x))
  {
    hide Distinct;
    hide Cell;
    hide TicketsBelow;
  }

  lemma AwaitedByCheck(p: Pool, t: nat, x: Place)
    requires Formed(p) && Enabled(p, Check(t))
    ensures x.CellAt? && Awaited(Apply(p, Check(t)), x.j) ==> Awaited(p, x.j)
  {
    var r := Apply(p, Check(t));
    if x.CellAt? && Awaited(r, x.j) && !(p.readCursor <= x.j) {
      var u :| u in r.inside && r.inside[u] == Ticketed(x.j);
      assert u in p.inside && p.inside[u] == Ticketed(x.j);
    }
  }

  lemma AwaitedByTicket(p: Pool, t: nat, x: Place)
    requires Formed(p) && Enabled(p, Ticket(t))
    ensures x.CellAt? && Awaited(Apply(p, Ticket(t)), x.j) ==> Awaited(p, x.j)
  {
    var r := Apply(p, Ticket(t));
    if x.CellAt? && Awaited(r, x.j) && !(p.readCursor <= x.j) {
      var u :| u in r.inside && r.inside[u] == Ticketed(x.j);
      assert u in p.inside && p.inside[u] == Ticketed(x.j);
    }
  }

  lemma AwaitedByLoad(p: Pool, t: nat, x: Place)
    requires Formed(p) && TicketsBelow(p) && Enabled(p, Load(t))
    ensures p.inside[t].ticket < p.size && Awaited(p, p.inside[t].ticket)
    ensures !Awaited(Apply(p, Load(t)), p.inside[t].ticket)
    ensures x.CellAt? && Awaited(Apply(p, Load(t)), x.j) ==> Awaited(p, x.j)
  {
    hide Cell;
    var r := Apply(p, Load(t));
    if x.CellAt? && Awaited(r, x.j) && !(p.readCursor <= x.j) {
      var u :| u in r.inside && r.inside[u] == Ticketed(x.j);
      assert u in p.inside && p.inside[u] == Ticketed(x.j);
    }
  }

  lemma DistinctKept(p: Pool, a: Action, bound: nat)
    requires Inv(p, bound) && Enabled(p, a)
    ensures Distinct(Apply(p, a))
  {
    hide Apply;
    hide Live;
    hide Value;
    var r := Apply(p, a);
    forall x, y | Live(r, x) && Live(r, y) && x != y
      ensures Value(r, x) != Value(r, y)
    {
      FromOnePlace(p, a, x, bound);
      FromOnePlace(p, a, y, bound);
    }
  }

  lemma InvKept(p: Pool, a: Action, bound: nat)
    requires Inv(p, bound) && Enabled(p, a) && Bounded(p, a, bound)
    ensures Inv(Apply(p, a), bound)
  {
    TicketsKept(p, a, bound);
    HandlesKept(p, a);
    DistinctKept(p, a, bound);
    hide TicketsBelow;
    hide HandlesFresh;
    hide Distinct;
    hide Cell;
  }

  lemma {:induction false} InvAlways(p: Pool, acts: seq<Action>, bound: nat)
    requires Inv(p, bound) && Run(p, acts, bound)
    ensures Inv(Exec(p, acts, bound), bound)
    decreases |acts|
  {
    hide Inv;
    hide Apply;
    if acts != [] {
      InvKept(p, acts[0], bound);
      InvAlways(Apply(p, acts[0]), acts[1..], bound);
    }
  }

  /**
   * With at most two threads inside `get_obj`, and any number releasing, no object ever
   * has two holders and the read cursor never passes the size.
   */
  lemma TwoGettersExclusive(size: nat, acts: seq<Action>)
    requires size > 0 && Run(Init(size), acts, 2)
    ensures var p := Exec(Init(size), acts, 2);
      Exclusive(p) && p.readCursor <= size
  {
    InvInit(size, 2);
    InvAlways(Init(size), acts, 2);
    InvExclusive(Exec(Init(size), acts, 2), 2);
  }

  // ---------------------------------------------------------------- conservation

  /** The threads inside `get_obj` that have a ticket. */
  function Holders(inside: map<nat, Getter>): set<nat> {
    set t | t in inside && inside[t].Ticketed?
  }

  /**
   * The read cursor counts the objects handed out of the table and the tickets not yet
   * used: a ticket that came too late is given back.
   */
  ghost predicate Conserved(p: Pool) {
    p.readCursor == p.handles - p.heaps + |Holders(p.inside)|
  }

  lemma HoldersAfterTicket(inside: map<nat, Getter>, t: nat, g: Getter)
    requires t in inside ==> inside[t] == Checked
    ensures |Holders(inside[t := g])| == |Holders(inside)| + if g.Ticketed? then 1 else 0
  {
    assert Holders(inside[t := g]) == Holders(inside) + if g.Ticketed? then {t} else {};
  }

  lemma HoldersAfterLoad(inside: map<nat, Getter>, t: nat)
    requires t in inside && inside[t].Ticketed?
    ensures |Holders(inside)| == |Holders(inside - {t})| + 1
  {
    assert Holders(inside) == Holders(inside - {t}) + {t};
  }

  lemma ConservedKept(p: Pool, a: Action)
    requires Formed(p) && Conserved(p) && Enabled(p, a) && p.heaps <= p.handles
    ensures Conserved(Apply(p, a)) && Apply(p, a).heaps <= Apply(p, a).handles
  {
    hide Cell;
    hide Holders;
    match a
    case Check(t) => HoldersAfterTicket(p.inside, t, Checked);
    case Ticket(t) => HoldersAfterTicket(p.inside, t, Ticketed(p.readCursor));
    case Load(t) => HoldersAfterLoad(p.inside, t);
    case Leave(_) =>
    case Store(_) =>
  }

  /** In every run, with any number of threads anywhere. */
  lemma {:induction false} TicketsConserved(p: Pool, acts: seq<Action>, bound: nat)
    requires Formed(p) && Conserved(p) && p.heaps <= p.handles && Run(p, acts, bound)
    ensures Conserved(Exec(p, acts, bound))
    decreases |acts|
  {
    hide Conserved;
    hide Apply;
    if acts != [] {
      ConservedKept(p, acts[0]);
      TicketsConserved(Apply(p, acts[0]), acts[1..], bound);
    }
  }

  lemma ConservedInit(size: nat)
    ensures Conserved(Init(size))
  {
    assert Holders(map[]) == {};
  }
}
