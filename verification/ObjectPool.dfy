/** `object_pool<T>` over its index table, called by one thread at a time. */
module ObjectPools {
  import opened Laps
  import opened PoolSteps
  import opened PoolUse

  class ObjectPool {
    const size: nat
    const mask: nat
    const index: array<nat>
    var readCursor: nat
    var writeCursor: nat
    var heaps: nat

    ghost var pool: Pool

    ghost predicate Valid()
      reads this, index
    {
      && SizeAsserted(size) && index.Length == size == pool.size && mask == size - 1
      && pool.index == index[..] && pool.readCursor == readCursor && pool.writeCursor == writeCursor
      && pool.heaps == heaps && Fresh(pool)
    }

    constructor (size: nat)
      requires SizeAsserted(size)
      ensures Valid() && fresh(index) && pool == Init(size)
    {
      this.size := size;
      mask := size - 1;
      index := new nat[size](i => i);
      readCursor, writeCursor, heaps := 0, 0, 0;
      pool := Init(size);
      new;
      FreshInit(size);
      assert index[..] == Identity(size);
    }

    /**
     * `get_obj`: an object nobody has been given before, from the array as long as two
     * are left in it, from the heap after that.
     */
    method Get() returns (obj: Obj, ghost h: nat)
      requires Valid()
      modifies this
      ensures Valid() && pool == GetOnce(old(pool))
      ensures obj == Next(old(pool)) && h == old(pool.handles) && pool.held == old(pool.held)[h := obj]
      ensures obj == if old(readCursor) < size - 1 then Pooled(old(readCursor)) else Heap(old(heaps))
    {
      hide And;
      hide Fresh;
      hide GetOnce;
      hide SizeAsserted;
      FreshSizes(pool);
      FreshGet(pool);
      GetOnceIs(pool);
      hide Quiet;
      h := pool.handles;
      pool := GetOnce(pool);
      if readCursor < mask {
        var i := readCursor;
        readCursor := readCursor + 1;
        MaskIndex(i, size);
        SmallCell(i, size);
        // The ticket of a lone caller is below the size, so the test of the ticket always
        // succeeds here; its other half and the step back are steps of `PoolSteps`.
        return Pooled(index[And(i, mask)]), h;
      }
      obj := Heap(heaps);
      heaps := heaps + 1;
    }

    /** `release_obj`: an index goes back into the table, an object of the heap is deleted. */
    method Release(obj: Obj, ghost h: nat)
      requires Valid() && h in pool.held && pool.held[h] == obj
      modifies this, index
      ensures Valid() && pool == ReleaseOnce(old(pool), h) && pool.held == old(pool.held) - {h}
      ensures readCursor == old(readCursor)
      ensures writeCursor == old(writeCursor) + if obj.Pooled? then 1 else 0
    {
      hide And;
      hide Cell;
      hide Fresh;
      hide ReleaseOnce;
      hide SizeAsserted;
      FreshSizes(pool);
      FreshRelease(pool, h);
      ReleaseOnceIs(pool, h);
      hide Quiet;
      ghost var r := ReleaseOnce(pool, h);
      pool := r;
      if obj.Pooled? {
        var target := writeCursor;
        writeCursor := writeCursor + 1;
        MaskIndex(target, size);
        SmallCell(target, size);
        index[And(target, mask)] := obj.index;
        assert index[..] == r.index;
      }
    }
  }
}
