/** What the consumer of the ticket queue gets, and that producers get their turn. */
module TicketQueueOrder {
  import opened Laps
  import opened TicketQueue

  // ---------------------------------------------------------------- refinement

  lemma InitOk<T>(buffer: seq<T>)
    requires buffer != []
    ensures Inv(Init(buffer))
  {
  }

  /** Positions below `cursor` are frozen: what was filled there stays, in every step. */
  lemma PublishedIsFrozen<T>(q: Queue<T>, a: Action<T>, p: nat)
    requires Inv(q) && Enabled(q, a) && Contract(q, a) && p < q.cursor
    ensures var r := Apply(q, a);
      && (p in r.filled <==> p in q.filled) && (p in q.filled ==> r.filled[p] == q.filled[p])
      && q.cursor <= r.cursor && q.out <= r.out
  {
    hide Tiled;
    hide Cell;
    if a.Fill? {
      KeptByFill(q, a.i, a.k, a.v);
    }
  }

  /** A careful producer publishes only positions it has filled. */
  predicate Careful<T>(q: Queue<T>, a: Action<T>) {
    a.Spin? && a.i < |q.slots| ==>
      var s := q.slots[a.i];
      forall p :: s.start <= p < s.start + (if a.whole then s.size else a.num) ==> p in q.filled
  }

  predicate CarefulRun<T>(q: Queue<T>, acts: seq<Action<T>>)
    requires q.buffer != []
    decreases |acts|
  {
    acts == [] ||
    (Enabled(q, acts[0]) && Contract(q, acts[0]) && Careful(q, acts[0]) && CarefulRun(Apply(q, acts[0]), acts[1..]))
  }

  ghost predicate AllFilled<T>(q: Queue<T>) {
    && (forall p :: 0 <= p < q.cursor ==> p in q.filled)
    && (forall i, p ::
      0 <= i < |q.slots| && q.slots[i].phase.Passed? && q.slots[i].start <= p < q.slots[i].start + q.slots[i].phase.num
      ==> p in q.filled)
  }

  lemma AllFilledKept<T>(q: Queue<T>, a: Action<T>)
    requires Inv(q) && AllFilled(q) && Enabled(q, a) && Contract(q, a) && Careful(q, a)
    ensures AllFilled(Apply(q, a))
  {
    hide Cell;
    hide Gapless;
    hide Ordered;
    var r := Apply(q, a);
    if a.Add? {
      assert SlotOk(q.slots[a.i], q.cursor, q.reserved);
    }
  }

  /** What was filled, read position by position. */
  function ByPosition<T>(filled: map<nat, T>, n: nat): (r: seq<T>)
    requires forall p :: 0 <= p < n ==> p in filled
    ensures |r| == n && forall p :: 0 <= p < n ==> r[p] == filled[p]
  {
    if n == 0 then [] else ByPosition(filled, n - 1) + [filled[n - 1]]
  }

  lemma {:induction false} CarefulExec<T>(q: Queue<T>, acts: seq<Action<T>>)
    requires Inv(q) && AllFilled(q) && CarefulRun(q, acts)
    ensures Run(q, acts) && Inv(Exec(q, acts)) && AllFilled(Exec(q, acts))
    decreases |acts|
  {
    hide Inv;
    hide AllFilled;
    hide Apply;
    hide Careful;
    if acts != [] {
      InvKept(q, acts[0]);
      AllFilledKept(q, acts[0]);
      CarefulExec(Apply(q, acts[0]), acts[1..]);
    }
  }

  /**
   * Refinement to a plain sequence. Slots take consecutive positions in the order of
   * reservation; the consumer gets the values filled at positions 0, 1, 2, ... in this
   * order, each once, and only published ones.
   */
  lemma ConsumerGetsReservationOrder<T>(buffer: seq<T>, acts: seq<Action<T>>)
    requires buffer != [] && CarefulRun(Init(buffer), acts)
    ensures Run(Init(buffer), acts)
    ensures var q := Exec(Init(buffer), acts);
      && q.taken <= q.cursor && (forall p :: 0 <= p < q.cursor ==> p in q.filled)
      && q.out == ByPosition(q.filled, q.taken)
      && q.out <= ByPosition(q.filled, q.cursor)
  {
    InitOk(buffer);
    CarefulExec(Init(buffer), acts);
  }

  // ---------------------------------------------------------------- conservation

  function Sum(slots: seq<Slot>): nat
    decreases |slots|
  {
    if slots == [] then 0 else Sum(slots[..|slots| - 1]) + slots[|slots| - 1].Outstanding()
  }

  lemma {:induction false} SumOfTiles(slots: seq<Slot>, cursor: nat, hi: nat)
    requires Gapless(slots, hi) && Ordered(slots)
    requires forall i :: 0 <= i < |slots| ==> SlotOk(slots[i], cursor, hi)
    ensures Sum(slots) == if cursor <= hi then hi - cursor else 0
    decreases |slots|
  {
    if slots != [] {
      var n := |slots| - 1;
      var last := slots[n];
      assert SlotOk(last, cursor, hi);
      forall i | 0 <= i < n
        ensures SlotOk(slots[..n][i], cursor, last.lo)
      {
        assert SlotOk(slots[i], cursor, hi);
      }
      SumOfTiles(slots[..n], cursor, last.lo);
    }
  }

  /** Conservation: what all slots together still hold is what is reserved and not published. */
  lemma OutstandingIsConserved<T>(q: Queue<T>)
    requires Inv(q)
    ensures Sum(q.slots) == q.reserved - q.cursor
  {
    SumOfTiles(q.slots, q.cursor, q.reserved);
  }

  // ---------------------------------------------------------------- progress

  lemma {:induction false} SlotAtCursor(slots: seq<Slot>, cursor: nat, hi: nat) returns (i: nat)
    requires Gapless(slots, hi) && Ordered(slots) && cursor < hi
    requires forall i :: 0 <= i < |slots| ==> SlotOk(slots[i], cursor, hi)
    ensures i < |slots| && slots[i].Live() && slots[i].start == cursor
    decreases |slots|
  {
    var n := |slots| - 1;
    assert SlotOk(slots[n], cursor, hi);
    if cursor < slots[n].lo {
      forall k | 0 <= k < n
        ensures SlotOk(slots[..n][k], cursor, slots[n].lo)
      {
        assert SlotOk(slots[k], cursor, hi);
      }
      i := SlotAtCursor(slots[..n], cursor, slots[n].lo);
    } else {
      i := n;
    }
  }

  lemma OneSlotAtCursor(slots: seq<Slot>, cursor: nat, reserved: nat, i: nat, j: nat)
    requires Tiled(slots, cursor, reserved) && i < |slots| && j < |slots|
    requires slots[i].Live() && slots[i].start == cursor && slots[j].Live() && slots[j].start == cursor
    ensures i == j
  {
    assert SlotOk(slots[i], cursor, reserved) && SlotOk(slots[j], cursor, reserved);
  }

  /**
   * Whenever something reserved is unpublished, exactly one slot with something to publish
   * starts at `cursor`, and its owner can take its next publishing step.
   */
  lemma SomeoneCanPublish<T>(q: Queue<T>) returns (i: nat)
    requires Inv(q) && q.cursor < q.reserved
    ensures i < |q.slots| && q.slots[i].Live() && q.slots[i].start == q.cursor
    ensures forall j :: 0 <= j < |q.slots| && q.slots[j].Live() && q.slots[j].start == q.cursor ==> j == i
    ensures Enabled(q, Add(i)) || forall num, whole :: Enabled(q, Spin(i, num, whole))
  {
    i := SlotAtCursor(q.slots, q.cursor, q.reserved);
    forall j | 0 <= j < |q.slots| && q.slots[j].Live() && q.slots[j].start == q.cursor
      ensures j == i
    {
      OneSlotAtCursor(q.slots, q.cursor, q.reserved, i, j);
    }
  }

  /** One turn of a producer at the spin of `publish()`: through if it can, else nothing. */
  function Attempt<T>(q: Queue<T>, i: nat): (r: Queue<T>)
    requires q.buffer != []
    ensures |r.buffer| == |q.buffer|
  {
    if Enabled(q, Spin(i, 0, true)) then Apply(Apply(q, Spin(i, 0, true)), Add(i)) else q
  }

  function Attempts<T>(q: Queue<T>, turns: seq<nat>): (r: Queue<T>)
    requires q.buffer != []
    ensures |r.buffer| == |q.buffer|
    decreases |turns|
  {
    if turns == [] then q else Attempts(Attempt(q, turns[0]), turns[1..])
  }

  /** Published, or waiting to publish as a whole what is left. */
  predicate Settled(s: Slot) {
    s.done || s.phase == Holding
  }

  /** No slot that is still to be published, and is empty, has a slot behind it that never was. */
  predicate NoneOvertakable(slots: seq<Slot>) {
    forall i, j :: 0 <= i < j < |slots| && !slots[i].done && slots[i].size == 0 ==> slots[j].lo == slots[j].End()
  }

  /** The first `f` slots are published, all others settled, and none of them can be overtaken. */
  ghost predicate FrontAt<T>(q: Queue<T>, f: nat) {
    && Inv(q) && f <= |q.slots|
    && (forall i :: 0 <= i < f ==> q.slots[i].done)
    && (forall i :: f <= i < |q.slots| ==> Settled(q.slots[i]))
    && NoneOvertakable(q.slots)
  }

  lemma FrontAttempt<T>(q: Queue<T>, f: nat, i: nat)
    requires FrontAt(q, f)
    ensures FrontAt(Attempt(q, i), if i == f && f < |q.slots| then f + 1 else f)
    ensures |Attempt(q, i).slots| == |q.slots|
  {
    hide Gapless;
    hide Consistent;
    hide Cell;
    if Enabled(q, Spin(i, 0, true)) {
      InvKept(q, Spin(i, 0, true));
      InvKept(Apply(q, Spin(i, 0, true)), Add(i));
    }
    if i == f < |q.slots| && !q.slots[f].done {
      FrontIsAtCursor(q, f);
    }
  }

  /** Behind a slot with only empty ones after it nothing is reserved. */
  lemma {:induction false} EmptyTail(slots: seq<Slot>, reserved: nat, f: nat)
    requires Gapless(slots, reserved) && f < |slots|
    requires forall j :: f < j < |slots| ==> slots[j].lo == slots[j].End()
    ensures slots[f].End() == reserved
    decreases |slots|
  {
    var n := |slots| - 1;
    if f < n {
      EmptyTail(slots[..n], slots[n].lo, f);
    }
  }

  lemma FrontIsAtCursor<T>(q: Queue<T>, f: nat)
    requires FrontAt(q, f) && f < |q.slots| && !q.slots[f].done
    ensures q.slots[f].start == q.cursor
  {
    assert SlotOk(q.slots[f], q.cursor, q.reserved);
    if q.cursor < q.reserved {
      var k := SlotAtCursor(q.slots, q.cursor, q.reserved);
      assert SlotOk(q.slots[k], q.cursor, q.reserved);
    }
    if q.slots[f].size == 0 {
      EmptyTail(q.slots, q.reserved, f);
    }
  }

  lemma {:induction false} FrontAttempts<T>(q: Queue<T>, f: nat, turns: seq<nat>) returns (f': nat)
    requires FrontAt(q, f)
    ensures FrontAt(Attempts(q, turns), f') && |Attempts(q, turns).slots| == |q.slots|
    ensures f <= f' && (f in turns && f < |q.slots| ==> f < f')
    decreases |turns|
  {
    hide Inv;
    hide Attempt;
    hide NoneOvertakable;
    if turns == [] {
      f' := f;
    } else {
      FrontAttempt(q, f, turns[0]);
      f' := FrontAttempts(Attempt(q, turns[0]), if turns[0] == f && f < |q.slots| then f + 1 else f, turns[1..]);
    }
  }

  function Rounds<T>(q: Queue<T>, rounds: seq<seq<nat>>): (r: Queue<T>)
    requires q.buffer != []
    ensures |r.buffer| == |q.buffer|
    decreases |rounds|
  {
    if rounds == [] then q else Rounds(Attempts(q, rounds[0]), rounds[1..])
  }

  /** In every round every producer gets a turn, in any order and any number of times. */
  predicate Fair(rounds: seq<seq<nat>>, n: nat) {
    |rounds| >= n && forall r, i :: 0 <= r < |rounds| && 0 <= i < n ==> i in rounds[r]
  }

  predicate AllPublished<T>(q: Queue<T>) {
    forall i :: 0 <= i < |q.slots| ==> q.slots[i].done
  }

  lemma {:induction false} FrontRounds<T>(q: Queue<T>, f: nat, rounds: seq<seq<nat>>) returns (f': nat)
    requires FrontAt(q, f) && forall r, i :: 0 <= r < |rounds| && 0 <= i < |q.slots| ==> i in rounds[r]
    ensures FrontAt(Rounds(q, rounds), f') && |Rounds(q, rounds).slots| == |q.slots|
    ensures f' >= (if f + |rounds| <= |q.slots| then f + |rounds| else |q.slots|)
    decreases |rounds|
  {
    hide Inv;
    hide Attempts;
    hide NoneOvertakable;
    if rounds == [] {
      f' := f;
    } else {
      assert f < |q.slots| ==> f in rounds[0];
      var g := FrontAttempts(q, f, rounds[0]);
      assert forall r, i :: 0 <= r < |rounds[1..]| && 0 <= i < |q.slots| ==> i in rounds[1..][r];
      f' := FrontRounds(Attempts(q, rounds[0]), g, rounds[1..]);
    }
  }

  // ---------------------------------------------------------------- overtaking

  /** All producers below `k` but one, in order. */
  function Others(k: nat, i: nat): (turns: seq<nat>)
    ensures forall m: nat :: m in turns <==> m < k && m != i
  {
    if k == 0 then []
    else if k - 1 == i then Others(k - 1, i)
    else Others(k - 1, i) + [k - 1]
  }

  lemma {:induction false} AttemptsThen<T>(q: Queue<T>, a: seq<nat>, b: seq<nat>)
    requires q.buffer != []
    ensures Attempts(q, a + b) == Attempts(Attempts(q, a), b)
    decreases |a|
  {
    hide Attempt;
    if a == [] {
      assert a + b == b;
    } else {
      assert (a + b)[1..] == a[1..] + b;
      AttemptsThen(Attempt(q, a[0]), a[1..], b);
    }
  }

  /** The slot of producer `i` is empty and untouched, and the slots are otherwise as they were laid out. */
  ghost predicate Idle<T>(q: Queue<T>, from: Queue<T>, i: nat) {
    && Inv(q) && i < |q.slots| == |from.slots| && q.reserved == from.reserved && from.cursor <= q.cursor
    && q.slots[i] == from.slots[i] && !q.slots[i].done && q.slots[i].phase == Holding && q.slots[i].size == 0
    && (forall k :: 0 <= k < |q.slots| ==>
      Settled(q.slots[k]) && q.slots[k].lo == from.slots[k].lo && q.slots[k].End() == from.slots[k].End())
  }

  lemma IdleAttempt<T>(q: Queue<T>, from: Queue<T>, i: nat, m: nat)
    requires Idle(q, from, i) && m != i
    ensures Idle(Attempt(q, m), from, i) && q.cursor <= Attempt(q, m).cursor
    ensures m < |q.slots| && q.slots[m].lo <= q.cursor ==> q.slots[m].End() <= Attempt(q, m).cursor
  {
    hide Gapless;
    hide Consistent;
    hide Cell;
    if m < |q.slots| {
      assert SlotOk(q.slots[m], q.cursor, q.reserved);
    }
    if Enabled(q, Spin(m, 0, true)) {
      InvKept(q, Spin(m, 0, true));
      InvKept(Apply(q, Spin(m, 0, true)), Add(m));
    }
  }

  /** Where a slot begins. */
  lemma {:induction false} Begins(slots: seq<Slot>, reserved: nat, m: nat)
    requires Gapless(slots, reserved) && m < |slots|
    ensures slots[m].lo == if m == 0 then 0 else slots[m - 1].End()
    decreases |slots|
  {
    var n := |slots| - 1;
    if m < n {
      Begins(slots[..n], slots[n].lo, m);
    }
  }

  lemma {:induction false} LastEnds(slots: seq<Slot>, reserved: nat)
    requires Gapless(slots, reserved)
    ensures reserved == if slots == [] then 0 else slots[|slots| - 1].End()
  {
  }

  /** When all others below `k` have had their turn in order, the cursor is past every slot below `k`. */
  lemma {:induction false} OthersPublish<T>(q: Queue<T>, i: nat, k: nat)
    requires Idle(q, q, i) && k <= |q.slots|
    ensures var r := Attempts(q, Others(k, i));
      Idle(r, q, i) && (k > 0 ==> q.slots[k - 1].End() <= r.cursor)
    decreases k
  {
    hide Attempt;
    hide Inv;
    if k > 0 {
      OthersPublish(q, i, k - 1);
      var r, m := Attempts(q, Others(k - 1, i)), k - 1;
      SlotBegins(q, m);
      if m == i {
        EmptyEnds(q, i);
      } else {
        IdleAttempt(r, q, i, m);
        AttemptsThen(q, Others(k - 1, i), [m]);
        assert Attempts(Attempt(r, m), [m][1..]) == Attempt(r, m);
      }
    }
  }

  lemma SlotBegins<T>(q: Queue<T>, m: nat)
    requires Inv(q) && m < |q.slots|
    ensures q.slots[m].lo == if m == 0 then 0 else q.slots[m - 1].End()
    ensures q.slots[|q.slots| - 1].End() == q.reserved
  {
    Begins(q.slots, q.reserved, m);
    LastEnds(q.slots, q.reserved);
  }

  /** An empty slot ends where it begins, or behind the cursor. */
  lemma EmptyEnds<T>(q: Queue<T>, i: nat)
    requires Inv(q) && i < |q.slots| && q.slots[i].size == 0
    ensures q.slots[i].End() == q.slots[i].lo || q.slots[i].End() <= q.cursor
  {
    assert SlotOk(q.slots[i], q.cursor, q.reserved);
  }

  /** The round that overtakes: all others first, then the one with the empty slot. */
  function Overtaking(n: nat, i: nat): (turns: seq<nat>)
    requires i < n
    ensures forall m :: 0 <= m < n ==> m in turns
  {
    Others(n, i) + [i]
  }

  /** With something reserved behind the empty slot, it is not published by such rounds. */
  lemma {:induction false} OvertakingRounds<T>(q: Queue<T>, i: nat, count: nat)
    requires Idle(q, q, i) && q.slots[i].End() < q.reserved
    ensures var r := Rounds(q, seq(count, _ => Overtaking(|q.slots|, i)));
      i < |r.slots| && !r.slots[i].done
    decreases count
  {
    hide Inv;
    hide Attempts;
    if count > 0 {
      var n, turns := |q.slots|, Overtaking(|q.slots|, i);
      var r := Attempts(q, Others(n, i));
      OthersPublish(q, i, n);
      SlotBegins(q, i);
      var t := Attempt(r, i);
      assert t == r;
      AttemptsThen(q, Others(n, i), [i]);
      AttemptOnly(r, i);
      assert Idle(r, r, i);
      var rounds := seq(count, _ => turns);
      assert rounds[0] == turns && rounds[1..] == seq(count - 1, _ => turns);
      OvertakingRounds(r, i, count - 1);
    }
  }

  lemma AttemptOnly<T>(q: Queue<T>, i: nat)
    requires q.buffer != []
    ensures Attempts(q, [i]) == Attempt(q, i)
  {
    hide Attempt;
    assert [i][1..] == [];
    assert Attempts(Attempt(q, i), []) == Attempt(q, i);
  }

  /**
   * Progress, exactly. When every slot is published or waits to be, as a whole, then all
   * fair schedules publish them all if and only if no unpublished empty slot has a
   * non-empty one reserved behind it.
   */
  lemma FairProducersAllPublish<T>(q: Queue<T>)
    requires Inv(q) && forall i :: 0 <= i < |q.slots| ==> Settled(q.slots[i])
    ensures (forall rounds | Fair(rounds, |q.slots|) :: AllPublished(Rounds(q, rounds))) <==> NoneOvertakable(q.slots)
  {
    if NoneOvertakable(q.slots) {
      forall rounds | Fair(rounds, |q.slots|)
        ensures AllPublished(Rounds(q, rounds))
      {
        var f := FrontRounds(q, 0, rounds);
      }
    } else {
      var i, j :|
        0 <= i < j < |q.slots| && !q.slots[i].done && q.slots[i].size == 0 && q.slots[j].lo != q.slots[j].End();
      BehindIsReserved(q, i, j);
      var n := |q.slots|;
      OvertakingRounds(q, i, n);
      var rounds := seq(n, _ => Overtaking(n, i));
      assert Fair(rounds, n);
      assert !AllPublished(Rounds(q, rounds));
    }
  }

  lemma BehindIsReserved<T>(q: Queue<T>, i: nat, j: nat)
    requires Inv(q) && i < j < |q.slots| && q.slots[j].lo != q.slots[j].End()
    ensures q.slots[i].End() < q.reserved
  {
    assert SlotOk(q.slots[j], q.cursor, q.reserved);
  }

  /** All published means that nothing reserved is left. */
  lemma PublishedToTheEnd<T>(q: Queue<T>)
    requires Inv(q) && AllPublished(q)
    ensures q.cursor == q.reserved
  {
    if q.cursor < q.reserved {
      var i := SlotAtCursor(q.slots, q.cursor, q.reserved);
      assert false;
    }
  }

  // ---------------------------------------------------------------- overtaken

  /**
   * A slot somebody still means to publish as a whole is behind `cursor` only if there is
   * nothing left in it; then its spin is never passed, whatever anybody does.
   */
  lemma {:induction false} OvertakenSlotSpinsForever<T>(q: Queue<T>, i: nat, acts: seq<Action<T>>)
    requires Inv(q) && Run(q, acts)
    requires i < |q.slots| && !q.slots[i].done && q.slots[i].phase == Holding && q.slots[i].start < q.cursor
    ensures q.slots[i].size == 0
    ensures var r := Exec(q, acts);
      i < |r.slots| && r.slots[i] == q.slots[i] && !Enabled(r, Spin(i, 0, true))
    decreases |acts|
  {
    hide Cell;
    hide Gapless;
    assert SlotOk(q.slots[i], q.cursor, q.reserved);
    if acts != [] {
      InvKept(q, acts[0]);
      OvertakenSlotSpinsForever(Apply(q, acts[0]), i, acts[1..]);
    }
  }

  /** It happens: an empty slot is reserved, then a full one is reserved and published. */
  lemma EmptySlotGetsOvertaken<T>(buffer: seq<T>) returns (acts: seq<Action<T>>)
    requires buffer != []
    ensures Run(Init(buffer), acts)
    ensures var q := Exec(Init(buffer), acts);
      |q.slots| == 2 && !q.slots[0].done && q.slots[0].phase == Holding && q.slots[0].start < q.cursor
  {
    var q := Init(buffer);
    var q1 := Apply(q, Reserve(0));
    var q2 := Apply(q1, Reserve(1));
    var q3 := Apply(q2, Spin(1, 0, true));
    var q4 := Apply(q3, Add(1));
    acts := [Reserve(0), Reserve(1), Spin(1, 0, true), Add(1)];
    assert acts[1..] == [Reserve(1), Spin(1, 0, true), Add(1)];
    assert acts[1..][1..] == [Spin(1, 0, true), Add(1)];
    assert acts[1..][1..][1..] == [Add(1)];
    assert acts[1..][1..][1..][1..] == [];
    assert Run(q4, []) && Exec(q4, []) == q4;
    assert Run(q3, [Add(1)]) && Exec(q3, [Add(1)]) == q4;
    assert Run(q2, acts[1..][1..]) && Exec(q2, acts[1..][1..]) == q4;
    assert Run(q1, acts[1..]) && Exec(q1, acts[1..]) == q4;
  }
}
