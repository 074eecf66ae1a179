/**
 * `ring_buffer<T>` as a state machine: any number of producers reserve slots, fill them
 * and publish them whole or in parts; one consumer takes values in `serve`.
 */
module TicketQueue {
  import opened Laps

  /** A publish is a spin on `cursor_` and then a `fetch_add`; `Passed` is between the two. */
  datatype Phase = Holding | Passed(num: nat, whole: bool)

  /**
   * `lo` is where the slot began when it was reserved; `done` is set by a publish of the
   * whole slot, which the code leaves unrecorded.
   */
  datatype Slot = Slot(lo: nat, start: nat, size: nat, phase: Phase, done: bool) {
    function End(): nat { start + size }

    predicate Live() { !done && size > 0 }

    /** What the slot still has to publish. */
    function Outstanding(): nat { if done then 0 else size }
  }

  /**
   * `slots` in the order of reservation; `taken` is the consumer's own cursor, `seen` the
   * value of `cursor_` it has loaded. `filled` records what was last stored at each
   * position by the producer that owns it, `out` what the consumer got.
   */
  datatype Queue<T> = Queue(
    buffer: seq<T>,
    cursor: nat,
    reserved: nat,
    slots: seq<Slot>,
    taken: nat,
    seen: Seen,
    filled: map<nat, T>,
    out: seq<T>)

  datatype Seen = Unseen | Seen(sn: nat)

  datatype Action<T> =
    | Reserve(num: nat)
    | Fill(i: nat, k: nat, v: T)
    | Spin(i: nat, num: nat, whole: bool)
    | Add(i: nat)
    | Observe
    | Take

  function Init<T>(buffer: seq<T>): Queue<T> {
    Queue(buffer, 0, 0, [], 0, Unseen, map[], [])
  }

  predicate Enabled<T>(q: Queue<T>, a: Action<T>) {
    match a
    case Reserve(_) => true
    case Fill(i, _, _) => i < |q.slots| && !q.slots[i].done && q.slots[i].phase == Holding
    case Spin(i, num, whole) =>
      && i < |q.slots| && !q.slots[i].done && q.slots[i].phase == Holding
      && q.cursor == q.slots[i].start
      && (!whole ==> q.slots[i].size > 0)
    case Add(i) => i < |q.slots| && q.slots[i].phase.Passed?
    case Observe => q.seen == Unseen
    case Take => q.seen.Seen?
  }

  function Apply<T>(q: Queue<T>, a: Action<T>): (r: Queue<T>)
    requires q.buffer != [] && Enabled(q, a)
    ensures |r.buffer| == |q.buffer|
  {
    match a
    case Reserve(num) =>
      q.(slots := q.slots + [Slot(q.reserved, q.reserved, num, Holding, false)], reserved := q.reserved + num)
    case Fill(i, k, v) =>
      var p := q.slots[i].start + k;
      q.(buffer := q.buffer[Cell(p, |q.buffer|) := v], filled := q.filled[p := v])
    case Spin(i, num, whole) =>
      q.(slots := q.slots[i := q.slots[i].(phase := Passed(if whole then q.slots[i].size else num, whole))])
    case Add(i) =>
      var s := q.slots[i];
      var t :=
        if s.phase.whole then s.(phase := Holding, done := true)
        else
          s.(phase := Holding, start := s.start + s.phase.num,
             size := if s.phase.num <= s.size then s.size - s.phase.num else 0);
      q.(slots := q.slots[i := t], cursor := q.cursor + s.phase.num)
    case Observe => q.(seen := Seen(q.cursor))
    case Take =>
      if q.taken != q.seen.sn then
        q.(out := q.out + [q.buffer[Cell(q.taken, |q.buffer|)]], taken := q.taken + 1, seen := Unseen)
      else
        q.(seen := Unseen)
  }

  /**
   * What the code leaves to its users: a producer stays inside its slot, and together the
   * producers stay within one lap of the consumer.
   */
  predicate Contract<T>(q: Queue<T>, a: Action<T>) {
    match a
    case Reserve(num) => q.reserved + num <= q.taken + |q.buffer|
    case Fill(i, k, _) => i < |q.slots| ==> k < q.slots[i].size
    case Spin(i, num, whole) => i < |q.slots| && !whole ==> num <= q.slots[i].size
    case _ => true
  }

  predicate Run<T>(q: Queue<T>, acts: seq<Action<T>>)
    requires q.buffer != []
    decreases |acts|
  {
    acts == [] || (Enabled(q, acts[0]) && Contract(q, acts[0]) && Run(Apply(q, acts[0]), acts[1..]))
  }

  function Exec<T>(q: Queue<T>, acts: seq<Action<T>>): (r: Queue<T>)
    requires q.buffer != [] && Run(q, acts)
    ensures |r.buffer| == |q.buffer|
    decreases |acts|
  {
    if acts == [] then q else Exec(Apply(q, acts[0]), acts[1..])
  }

  // ---------------------------------------------------------------- invariant

  /**
   * A slot that still has something to publish starts at its beginning, or at `cursor` if
   * that has moved into it; any other is behind `cursor` or was empty from the start.
   */
  predicate SlotOk(s: Slot, cursor: nat, reserved: nat) {
    && s.lo <= s.start && s.End() <= reserved
    && (s.Live() ==> s.start == if cursor <= s.lo then s.lo else cursor)
    && (!s.Live() ==> s.End() <= cursor || s.End() == s.lo)
    && (s.phase.Passed? ==>
      && !s.done && s.phase.num <= s.size
      && (s.phase.whole ==> s.phase.num == s.size)
      && (s.phase.num > 0 ==> s.start == cursor))
  }

  /** Slots reserved one after the other do not overlap. */
  ghost predicate Ordered(slots: seq<Slot>) {
    forall i, j :: 0 <= i < j < |slots| ==> slots[i].End() <= slots[j].lo
  }

  /** The slots cover every position below `reserved`. */
  predicate Gapless(slots: seq<Slot>, reserved: nat)
    decreases |slots|
  {
    if slots == [] then reserved == 0
    else
      var last := slots[|slots| - 1];
      last.End() == reserved && last.lo <= last.End() && Gapless(slots[..|slots| - 1], last.lo)
  }

  ghost predicate Tiled(slots: seq<Slot>, cursor: nat, reserved: nat) {
    && (forall i :: 0 <= i < |slots| ==> SlotOk(slots[i], cursor, reserved))
    && Ordered(slots)
    && Gapless(slots, reserved)
  }

  ghost predicate Consistent<T>(q: Queue<T>) {
    && q.buffer != []
    && q.taken <= q.cursor <= q.reserved <= q.taken + |q.buffer|
    && (q.seen.Seen? ==> q.taken <= q.seen.sn <= q.cursor)
    && |q.out| == q.taken
    && (forall p :: p in q.filled ==> p < q.reserved)
    && (forall p :: 0 <= p < q.taken && p in q.filled ==> q.out[p] == q.filled[p])
    && (forall p :: q.taken <= p < q.reserved && p in q.filled ==>
      q.buffer[Cell(p, |q.buffer|)] == q.filled[p])
  }

  ghost predicate Inv<T>(q: Queue<T>)
    ensures Inv(q) ==> q.buffer != []
  {
    Consistent(q) && Tiled(q.slots, q.cursor, q.reserved)
  }

  /** A slot that keeps its ends keeps the covering. */
  lemma {:induction false} GaplessKept(slots: seq<Slot>, reserved: nat, i: nat, t: Slot)
    requires Gapless(slots, reserved) && i < |slots| && t.lo == slots[i].lo && t.End() == slots[i].End()
    ensures Gapless(slots[i := t], reserved)
    decreases |slots|
  {
    var n := |slots| - 1;
    if i < n {
      GaplessKept(slots[..n], slots[n].lo, i, t);
      assert slots[i := t][..n] == slots[..n][i := t];
    } else {
      assert slots[i := t][..n] == slots[..n];
    }
  }

  /** Publishing the front of one slot leaves every other slot where it was. */
  lemma OtherSlotOk(s: Slot, other: Slot, cursor: nat, reserved: nat)
    requires SlotOk(s, cursor, reserved) && SlotOk(other, cursor, reserved)
    requires s.phase.Passed? && (other.End() <= s.lo || s.End() <= other.lo)
    ensures SlotOk(other, cursor + s.phase.num, reserved)
  {
  }

  /** The slot after its `fetch_add`. */
  function Added(s: Slot): (t: Slot)
    requires s.phase.Passed? && s.phase.num <= s.size
    ensures t.lo == s.lo && t.End() == s.End()
  {
    if s.phase.whole then s.(phase := Holding, done := true)
    else s.(phase := Holding, start := s.start + s.phase.num, size := s.size - s.phase.num)
  }

  lemma AddedOk(s: Slot, cursor: nat, reserved: nat)
    requires SlotOk(s, cursor, reserved) && s.phase.Passed?
    ensures s.phase.num <= s.size && SlotOk(Added(s), cursor + s.phase.num, reserved)
    ensures cursor + s.phase.num <= reserved || s.phase.num == 0
  {
  }

  lemma OrderedKept(slots: seq<Slot>, i: nat, t: Slot)
    requires Ordered(slots) && i < |slots| && t.lo == slots[i].lo && t.End() == slots[i].End()
    ensures Ordered(slots[i := t])
  {
  }

  lemma Apart(slots: seq<Slot>, i: nat, j: nat)
    requires Ordered(slots) && i < |slots| && j < |slots| && i != j
    ensures slots[j].End() <= slots[i].lo || slots[i].End() <= slots[j].lo
  {
  }

  lemma TiledByAdd(slots: seq<Slot>, cursor: nat, reserved: nat, i: nat)
    requires Tiled(slots, cursor, reserved) && i < |slots| && slots[i].phase.Passed?
    ensures slots[i].phase.num <= slots[i].size
    ensures Tiled(slots[i := Added(slots[i])], cursor + slots[i].phase.num, reserved)
    ensures cursor + slots[i].phase.num <= reserved || slots[i].phase.num == 0
  {
    hide Gapless;
    hide Ordered;
    var s := slots[i];
    assert SlotOk(s, cursor, reserved);
    AddedOk(s, cursor, reserved);
    hide Added;
    GaplessKept(slots, reserved, i, Added(s));
    OrderedKept(slots, i, Added(s));
    forall j | 0 <= j < |slots| && j != i
      ensures SlotOk(slots[j], cursor + s.phase.num, reserved)
    {
      Apart(slots, i, j);
      OtherSlotOk(s, slots[j], cursor, reserved);
    }
    hide SlotOk;
  }

  lemma KeptByAdd<T>(q: Queue<T>, i: nat)
    requires Inv(q) && Enabled(q, Add(i))
    ensures Inv(Apply(q, Add(i)))
  {
    hide Cell;
    hide Tiled;
    TiledByAdd(q.slots, q.cursor, q.reserved, i);
  }

  lemma KeptByFill<T>(q: Queue<T>, i: nat, k: nat, v: T)
    requires Inv(q) && Enabled(q, Fill(i, k, v)) && Contract(q, Fill(i, k, v))
    ensures Inv(Apply(q, Fill(i, k, v)))
    ensures q.cursor <= q.slots[i].start + k < q.reserved
  {
    hide Cell;
    var n, p := |q.buffer|, q.slots[i].start + k;
    assert SlotOk(q.slots[i], q.cursor, q.reserved);
    forall p' | q.taken <= p' < q.reserved && p' != p
      ensures Cell(p', n) != Cell(p, n)
    {
      if p' < p {
        SameCell(p', p, n);
      } else {
        SameCell(p, p', n);
      }
    }
  }

  lemma TiledByReserve(slots: seq<Slot>, cursor: nat, reserved: nat, num: nat)
    requires Tiled(slots, cursor, reserved) && cursor <= reserved
    ensures Tiled(slots + [Slot(reserved, reserved, num, Holding, false)], cursor, reserved + num)
  {
    var after := slots + [Slot(reserved, reserved, num, Holding, false)];
    assert after[..|slots|] == slots;
    forall i | 0 <= i < |slots|
      ensures SlotOk(slots[i], cursor, reserved + num) && slots[i].End() <= reserved
    {
      assert SlotOk(slots[i], cursor, reserved);
    }
  }

  lemma TiledBySpin(slots: seq<Slot>, cursor: nat, reserved: nat, i: nat, num: nat, whole: bool)
    requires Tiled(slots, cursor, reserved) && i < |slots| && !slots[i].done && cursor == slots[i].start
    requires num <= slots[i].size && (whole ==> num == slots[i].size)
    ensures Tiled(slots[i := slots[i].(phase := Passed(num, whole))], cursor, reserved)
  {
    hide Gapless;
    GaplessKept(slots, reserved, i, slots[i].(phase := Passed(num, whole)));
  }

  /** The consumer takes the value at its cursor: published, and not yet given out. */
  lemma KeptByTake<T>(q: Queue<T>)
    requires Inv(q) && q.seen.Seen?
    ensures Inv(Apply(q, Take))
    ensures Apply(q, Take).taken <= q.cursor
  {
    hide Cell;
    hide Tiled;
  }

  /** Every step of every producer and of the consumer keeps the invariant. */
  lemma InvKept<T>(q: Queue<T>, a: Action<T>)
    requires Inv(q) && Enabled(q, a) && Contract(q, a)
    ensures Inv(Apply(q, a))
  {
    hide Cell;
    hide Tiled;
    match a
    case Reserve(num) => TiledByReserve(q.slots, q.cursor, q.reserved, num);
    case Fill(i, k, v) => KeptByFill(q, i, k, v);
    case Spin(i, num, whole) =>
      TiledBySpin(q.slots, q.cursor, q.reserved, i, if whole then q.slots[i].size else num, whole);
    case Add(i) => KeptByAdd(q, i);
    case Observe =>
    case Take => KeptByTake(q);
  }

  lemma {:induction false} InvAlways<T>(q: Queue<T>, acts: seq<Action<T>>)
    requires Inv(q) && Run(q, acts)
    ensures Inv(Exec(q, acts))
    decreases |acts|
  {
    hide Inv;
    hide Apply;
    if acts != [] {
      InvKept(q, acts[0]);
      InvAlways(Apply(q, acts[0]), acts[1..]);
    }
  }
}
