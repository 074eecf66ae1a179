/**
 * `ring_buffer<T>` and its slots, over an array. Each method is a step of the ticket queue
 * (a publish is two), with the other threads between calls; a publish is called when its
 * spin is over.
 */
module RingBuffers {
  import opened Laps
  import opened TicketQueue

  class RingBuffer<T(0)> {
    const buffer: array<T>
    const size: nat
    const mask: nat
    var cursor: nat
    var reserved: nat

    ghost var queue: Queue<T>

    ghost predicate Valid()
      reads this, buffer
    {
      && SizeAsserted(size) && buffer.Length == size && mask == size - 1
      && queue.buffer == buffer[..] && queue.cursor == cursor && queue.reserved == reserved
      && Inv(queue)
    }

    constructor (size: nat)
      requires SizeAsserted(size)
      ensures Valid() && fresh(buffer) && queue == Init(buffer[..]) && this.size == size
    {
      buffer := new T[size];
      this.size := size;
      mask := size - 1;
      cursor, reserved := 0, 0;
      new;
      queue := Init(buffer[..]);
    }

    /** `operator[]`: the cell of a position. */
    method At(index: nat) returns (v: T)
      requires Valid()
      ensures v == queue.buffer[Cell(index, size)]
    {
      hide Cell;
      hide And;
      MaskIndex(index, size);
      v := buffer[And(index, mask)];
    }

    /** The next `num` positions go to the caller, none of them to anybody else. */
    method Reserve(num: nat := 1) returns (slot: SlotHandle<T>)
      requires Valid() && reserved + num <= queue.taken + size
      modifies this`reserved, this`queue
      ensures Valid() && queue == Apply(old(queue), TicketQueue.Reserve(num))
      ensures fresh(slot) && slot.buf == this && slot.Valid() && slot.start == old(reserved) && slot.size == num
      ensures slot.id == |old(queue).slots|
    {
      hide Cell;
      hide And;
      ghost var a := TicketQueue.Reserve(num);
      InvKept(queue, a);
      slot := new SlotHandle(this, reserved, num, |queue.slots|);
      reserved := reserved + num;
      queue := Apply(queue, a);
    }

    /** The spin of a publish is over, and `fetch_add` follows. */
    method Publish(index: nat, num: nat, ghost i: nat, ghost whole: bool)
      requires Valid() && cursor == index
      requires Enabled(queue, Spin(i, num, whole)) && Contract(queue, Spin(i, num, whole))
      requires whole ==> num == queue.slots[i].size
      modifies this`cursor, this`queue
      ensures Valid() && queue == Apply(Apply(old(queue), Spin(i, num, whole)), Add(i))
      ensures cursor == old(cursor) + num
    {
      hide Cell;
      hide And;
      InvKept(queue, Spin(i, num, whole));
      InvKept(Apply(queue, Spin(i, num, whole)), Add(i));
      cursor := cursor + num;
      queue := Apply(Apply(queue, Spin(i, num, whole)), Add(i));
    }
  }

  class SlotHandle<T(0)> {
    const buf: RingBuffer<T>
    var start: nat
    var size: nat

    ghost const id: nat

    constructor (buf: RingBuffer<T>, start: nat, size: nat, ghost id: nat)
      ensures this.buf == buf && this.start == start && this.size == size && this.id == id
    {
      this.buf := buf;
      this.start := start;
      this.size := size;
      this.id := id;
    }

    /** The handle still speaks for its slot. */
    ghost predicate Valid()
      reads this, buf, buf.buffer
    {
      && buf.Valid() && id < |buf.queue.slots|
      && var s := buf.queue.slots[id];
        !s.done && s.phase == Holding && s.start == start && s.size == size
    }

    /** `slot[k] = v`. */
    method Set(k: nat, v: T)
      requires Valid() && k < size
      modifies buf`queue, buf.buffer
      ensures Valid() && buf.queue == Apply(old(buf.queue), Fill(id, k, v))
    {
      hide Cell;
      hide And;
      ghost var a := Fill(id, k, v);
      InvKept(buf.queue, a);
      MaskIndex(start + k, buf.size);
      buf.buffer[And(start + k, buf.mask)] := v;
      buf.queue := Apply(buf.queue, a);
    }

    /** `publish(num)`: an exhausted slot publishes nothing; otherwise its first `num` positions. */
    method PublishSome(num: nat)
      requires Valid() && (size > 0 ==> num <= size && buf.cursor == start)
      modifies this, buf`cursor, buf`queue
      ensures Valid() && start + size == old(start + size)
      ensures old(size) == 0 ==> buf.queue == old(buf.queue) && size == 0
      ensures old(size) > 0 ==> size == old(size) - num
      ensures old(size) > 0 ==> buf.queue == Apply(Apply(old(buf.queue), Spin(id, num, false)), Add(id))
    {
      hide Cell;
      hide Inv;
      if size <= 0 {
        return;
      }
      buf.Publish(start, num, id, false);
      start := start + num;
      size := size - num;
    }

    /** `publish()`: the whole slot, after which the handle is spent. */
    method PublishAll()
      requires Valid() && buf.cursor == start
      modifies buf`cursor, buf`queue
      ensures buf.Valid() && buf.queue == Apply(Apply(old(buf.queue), Spin(id, size, true)), Add(id))
      ensures buf.cursor == start + size
    {
      hide Cell;
      hide Inv;
      buf.Publish(start, size, id, true);
    }
  }

  /** The consumer's side in `serve`: compare `cursor_` with its own and take one value. */
  class Consumer<T(0)> {
    const buf: RingBuffer<T>
    var cursor: nat

    constructor (buf: RingBuffer<T>)
      requires buf.Valid() && buf.queue.taken == 0
      ensures this.buf == buf && cursor == 0
    {
      this.buf := buf;
      cursor := 0;
    }

    method Next() returns (found: bool, v: T)
      requires buf.Valid() && cursor == buf.queue.taken && buf.queue.seen == Unseen
      modifies this, buf`queue
      ensures buf.Valid() && cursor == buf.queue.taken && buf.queue.seen == Unseen
      ensures buf.queue == Apply(Apply(old(buf.queue), Observe), Take)
      ensures found <==> old(cursor) < buf.cursor
      ensures found ==> cursor == old(cursor) + 1 && buf.queue.out == old(buf.queue.out) + [v]
      ensures found && old(cursor) in buf.queue.filled ==> v == buf.queue.filled[old(cursor)]
    {
      hide Cell;
      hide And;
      hide Tiled;
      InvKept(buf.queue, Observe);
      InvKept(Apply(buf.queue, Observe), Take);
      v := buf.At(cursor);
      var sn := buf.cursor;
      found := cursor != sn;
      if found {
        cursor := cursor + 1;
      }
      buf.queue := Apply(Apply(buf.queue, Observe), Take);
    }
  }
}
