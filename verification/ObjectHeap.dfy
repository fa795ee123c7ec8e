/**
The object heap (object_heap.c): slabs of 16 slots whose ids are their position plus the heap's offset, with the
free list threaded through the slots. It is a finite map from ids to the objects in them.
*/
module ObjectHeap {
  import opened FreeList

  const ID_COUNT := 0x1000000
  const INCREMENT := 16

  /** id & OBJECT_HEAP_ID_MASK, on a non-negative int. */
  function Masked(id: nat): nat
  {
    id % ID_COUNT
  }

  /** id_offset & OBJECT_HEAP_OFFSET_MASK: bits 24 to 30. */
  function OffsetBits(x: int): nat
  {
    (x / ID_COUNT) % 128 * ID_COUNT
  }

  /** The mask keeps bits 24 to 30, whatever is above and below them. */
  lemma MaskKeepsBits(x: int)
    ensures OffsetBits(x) % 0x0100_0000 == 0 && 0 <= OffsetBits(x) < 0x8000_0000
    ensures (x - OffsetBits(x)) % 0x8000_0000 < 0x0100_0000
  {
    var q, r := x / ID_COUNT, x % ID_COUNT;
    assert x == ID_COUNT * q + r && q == 128 * (q / 128) + q % 128;
    assert x - OffsetBits(x) == 0x8000_0000 * (q / 128) + r;
  }

  /** The offsets of the driver's heaps: configs, contexts, surfaces, buffers and images. */
  const OFFSETS: seq<int> := [0x0100_0000, 0x0200_0000, 0x0400_0000, 0x0800_0000, 0x1000_0000]

  /** The mask leaves them as they are, so no id is ever of two kinds. */
  lemma KindsApart(p: nat, i: nat, q: nat, j: nat)
    requires p < |OFFSETS| && q < |OFFSETS| && i < 0x0100_0000 && j < 0x0100_0000
    ensures OffsetBits(OFFSETS[p]) == OFFSETS[p]
    ensures OffsetBits(OFFSETS[p]) + i == OffsetBits(OFFSETS[q]) + j ==> p == q && i == j
  {
  }

  /** The mask gives a slot's position back from its id exactly while the heap has at most 2^24 slots. */
  lemma MaskExact(x: int, i: nat)
    ensures Masked(OffsetBits(x) + i) == i <==> i < ID_COUNT
    ensures i < ID_COUNT ==> OffsetBits(x) + i <= 0x7FFFFFFF
  {
  }

  /** What object_heap_init leaves of an offset. */
  ghost predicate IsOffset(o: nat)
  {
    exists x :: o == OffsetBits(x)
  }

  lemma MaskedPosition(o: nat, i: nat)
    requires IsOffset(o) && i < ID_COUNT
    ensures Masked(o + i) == i
  {
  }

  /** Two heaps whose offsets differ never give out the same id. */
  lemma HeapsApart(x: int, i: nat, y: int, j: nat)
    requires i < ID_COUNT && j < ID_COUNT && OffsetBits(x) + i == OffsetBits(y) + j
    ensures OffsetBits(x) == OffsetBits(y) && i == j
  {
  }

  class ObjectBase {
    var id: int
    var nextFree: int

    constructor ()
    {
    }
  }

  /** malloc of a slab. */
  method Malloc(n: nat) returns (slab: seq<ObjectBase>)
    ensures |slab| == n && fresh(slab)
    ensures forall i, j | 0 <= i < j < n :: slab[i] != slab[j]
  {
    slab := [];
    while |slab| < n
      invariant |slab| <= n && fresh(slab)
      invariant forall i, j | 0 <= i < j < |slab| :: slab[i] != slab[j]
    {
      var obj := new ObjectBase();
      slab := slab + [obj];
    }
  }

  /** The loop of object_heap_expand: number the slots of a new slab, each linked to the next, the last to `first`. */
  method FillSlab(slab: seq<ObjectBase>, base: int, first: int, idOffset: int) returns (next: int)
    requires forall i, j | 0 <= i < j < |slab| :: slab[i] != slab[j]
    modifies slab
    ensures next == if slab == [] then first else base
    ensures forall k | 0 <= k < |slab| :: slab[k].id == idOffset + base + k
    ensures forall k | 0 <= k < |slab| :: slab[k].nextFree == if k + 1 < |slab| then base + k + 1 else first
  {
    next := first;
    var i := base + |slab|;
    while i > base
      invariant base <= i <= base + |slab|
      invariant next == if i == base + |slab| then first else i
      invariant forall k | i - base <= k < |slab| :: slab[k].id == idOffset + base + k
      invariant forall k | i - base <= k < |slab| ::
        slab[k].nextFree == if k + 1 < |slab| then base + k + 1 else first
    {
      i := i - 1;
      var obj := slab[i - base];
      obj.id := i + idOffset;
      obj.nextFree := next;
      next := i;
    }
  }

  /** Bucket b holds slots 16 b up to 16 b + 15, and no slot is there twice. */
  ghost predicate LaidOut(bucket: seq<seq<ObjectBase>>, slots: seq<ObjectBase>)
  {
    && |slots| == INCREMENT * |bucket|
    && (forall b | 0 <= b < |bucket| :: |bucket[b]| == INCREMENT)
    && (forall b, k | 0 <= b < |bucket| && 0 <= k < INCREMENT :: bucket[b][k] == slots[INCREMENT * b + k])
    && (forall i, j | 0 <= i < j < |slots| :: slots[i] != slots[j])
  }

  lemma AttachLaidOut(bucket: seq<seq<ObjectBase>>, slots: seq<ObjectBase>, slab: seq<ObjectBase>)
    requires LaidOut(bucket, slots) && |slab| == INCREMENT
    requires forall i, j | 0 <= i < j < |slab| :: slab[i] != slab[j]
    requires forall o | o in slab :: o !in slots
    ensures LaidOut(bucket + [slab], slots + slab)
  {
    var all := slots + slab;
    forall i, j | 0 <= i < j < |all|
      ensures all[i] != all[j]
    {
      if i < |slots| <= j {
        assert all[j] in slab && all[i] in slots;
      }
    }
  }

  ghost function Links(slots: seq<ObjectBase>): (r: seq<int>)
    reads slots
    ensures |r| == |slots| && forall i | 0 <= i < |slots| :: r[i] == slots[i].nextFree
  {
    seq(|slots|, i requires 0 <= i < |slots| reads slots => slots[i].nextFree)
  }

  ghost function AllocatedBy(slots: seq<ObjectBase>, links: seq<int>): map<int, ObjectBase>
    requires |slots| == |links|
  {
    map i | 0 <= i < |slots| && links[i] == ALLOCATED :: slots[i]
  }

  lemma NewAreFree(slots: seq<ObjectBase>, links: seq<int>, slab: seq<ObjectBase>, block: seq<int>)
    requires |slots| == |links| && |slab| == |block| && forall k | 0 <= k < |block| :: block[k] != ALLOCATED
    ensures AllocatedBy(slots + slab, links + block) == AllocatedBy(slots, links)
  {
  }

  lemma OneChanges(slots: seq<ObjectBase>, links: seq<int>, i: int, link: int)
    requires |slots| == |links| && 0 <= i < |links|
    ensures var live := AllocatedBy(slots, links);
      AllocatedBy(slots, links[i := link]) == if link == ALLOCATED then live[i := slots[i]] else live - {i}
  {
  }

  lemma DistinctSlots(bucket: seq<seq<ObjectBase>>, slots: seq<ObjectBase>, i: int)
    requires LaidOut(bucket, slots) && 0 <= i < |slots|
    ensures forall j | 0 <= j < |slots| && j != i :: slots[j] != slots[i]
  {
  }

  method SetNextFree(obj: ObjectBase, link: int, ghost slots: seq<ObjectBase>, ghost i: int)
    requires 0 <= i < |slots| && slots[i] == obj
    requires forall j | 0 <= j < |slots| && j != i :: slots[j] != obj
    modifies obj`nextFree
    ensures Links(slots) == old(Links(slots))[i := link]
  {
    obj.nextFree := link;
  }

  /** What is left of a heap once every position below k is freed. */
  ghost function Rest(was: map<int, ObjectBase>, k: int): map<int, ObjectBase>
  {
    map i | i in was && k <= i :: was[i]
  }

  ghost predicate Visited(visited: seq<int>, was: map<int, ObjectBase>, k: int, idOffset: int)
  {
    && (forall a, b | 0 <= a < b < |visited| :: visited[a] < visited[b])
    && (forall id :: id in visited <==> id - idOffset in was && id - idOffset < k)
  }

  lemma VisitStart(was: map<int, ObjectBase>, k: int, n: int, idOffset: int)
    requires forall i | i in was :: 0 <= i < n
    requires forall i | -1 < i < k :: i !in was
    ensures Rest(was, k) == was && Visited([], was, k, idOffset)
  {
  }

  lemma VisitStep(visited: seq<int>, was: map<int, ObjectBase>, k: int, k': int, idOffset: int)
    requires Visited(visited, was, k, idOffset) && k in Rest(was, k) && k < k'
    requires forall i | k < i < k' :: i !in Rest(was, k) - {k}
    ensures Rest(was, k) - {k} == Rest(was, k') && Visited(visited + [idOffset + k], was, k', idOffset)
  {
    var longer := visited + [idOffset + k];
    forall i | k < i < k'
      ensures i !in was
    {
      assert i !in Rest(was, k) - {k};
    }
    forall a | 0 <= a < |visited|
      ensures visited[a] < idOffset + k
    {
      assert visited[a] in visited;
    }
    forall id
      ensures id in longer <==> id - idOffset in was && id - idOffset < k'
    {
      assert id in longer <==> id in visited || id == idOffset + k;
    }
  }

  lemma VisitEnd(visited: seq<int>, was: map<int, ObjectBase>, n: int, idOffset: int)
    requires Visited(visited, was, n, idOffset) && forall i | i in was :: i < n
    ensures Rest(was, n) == map[]
    ensures forall id :: id in visited <==> id - idOffset in was
    ensures forall a, b | 0 <= a < b < |visited| :: visited[a] < visited[b]
  {
  }

  class Heap {
    const idOffset: nat
    var nextFree: int
    var heapSize: nat
    var numBuckets: nat
    var bucket: seq<seq<ObjectBase>>
    // all slots in order, and the free list
    ghost var slots: seq<ObjectBase>
    ghost var chain: seq<int>

    ghost predicate Laid()
      reads this
    {
      && heapSize == |slots| == INCREMENT * |bucket| && |bucket| <= numBuckets && heapSize <= ID_COUNT
      && LaidOut(bucket, slots)
      && IsOffset(idOffset)
    }

    ghost predicate Valid()
      reads this, slots
    {
      && Laid()
      && (forall i | 0 <= i < |slots| :: slots[i].id == idOffset + i)
      && Threads(Links(slots), nextFree, chain)
    }

    /** What the heap stands for: the allocated slots' positions, each with its object; an id is idOffset more. */
    ghost function Live(): (r: map<int, ObjectBase>)
      reads this`slots, slots
      ensures forall i | i in r :: 0 <= i < |slots| && r[i] == slots[i]
    {
      AllocatedBy(slots, Links(slots))
    }

    function Slot(i: int): ObjectBase
      requires Laid() && 0 <= i < heapSize
      reads this
      ensures Slot(i) == slots[i]
    {
      assert INCREMENT * (i / INCREMENT) + i % INCREMENT == i;
      bucket[i / INCREMENT][i % INCREMENT]
    }

    constructor (x: int)
      ensures Valid() && Live() == map[] && slots == [] && idOffset == OffsetBits(x)
      ensures heapSize == numBuckets == 0 && bucket == [] && chain == []
    {
      idOffset := OffsetBits(x);
      heapSize := 0;
      nextFree := LAST;
      numBuckets := 0;
      bucket := [];
      slots, chain := [], [];
    }

    /** object_heap_expand; the two arguments are whether realloc and malloc succeed. */
    method Expand(realloced: bool, malloced: bool) returns (rc: int)
      requires Valid() && heapSize + INCREMENT <= ID_COUNT
      modifies this
      ensures Valid() && Live() == old(Live())
      ensures rc == if malloced && (realloced || |old(bucket)| < old(numBuckets)) then 0 else -1
      ensures rc == 0 ==> old(slots) <= slots && |slots| == |old(slots)| + INCREMENT && fresh(slots[|old(slots)|..])
      ensures chain == if rc == 0 then Range(old(heapSize), old(heapSize) + INCREMENT) + old(chain) else old(chain)
      ensures rc != 0 ==> slots == old(slots)
      ensures numBuckets == old(numBuckets) + if |old(bucket)| >= old(numBuckets) && realloced then 8 else 0
    {
      hide Threads, Range, LaidOut, Distinct;
      var newHeapSize := heapSize + INCREMENT;
      var bucketIndex := newHeapSize / INCREMENT - 1;
      if bucketIndex >= numBuckets {
        if !realloced {
          return -1;
        }
        numBuckets := numBuckets + 8;
      }
      if !malloced {
        return -1;
      }
      var slab := Malloc(INCREMENT);
      var next := FillSlab(slab, heapSize, nextFree, idOffset);
      Attach(slab, newHeapSize, next);
      rc := 0;
    }

    /** The end of object_heap_expand: the slab becomes the last bucket and its first slot the head of the list. */
    method Attach(slab: seq<ObjectBase>, newHeapSize: nat, next: int)
      requires Valid() && |slab| == INCREMENT && |bucket| < numBuckets
      requires newHeapSize == heapSize + INCREMENT <= ID_COUNT && next == heapSize
      requires forall i, j | 0 <= i < j < |slab| :: slab[i] != slab[j]
      requires forall o | o in slab :: o !in slots
      requires forall k | 0 <= k < |slab| :: slab[k].id == idOffset + heapSize + k
      requires forall k | 0 <= k < |slab| :: slab[k].nextFree == if k + 1 < |slab| then heapSize + k + 1 else nextFree
      modifies this
      ensures Valid() && Live() == old(Live()) && numBuckets == old(numBuckets)
      ensures slots == old(slots) + slab && chain == Range(old(heapSize), newHeapSize) + old(chain)
    {
      hide Threads, Range, LaidOut, Distinct;
      ghost var links := Links(slots);
      ghost var block := Links(slab);
      HeadFits(links, nextFree, chain);
      GrowThreads(links, nextFree, chain, block);
      AttachLaidOut(bucket, slots, slab);
      chain := Range(heapSize, newHeapSize) + chain;
      nextFree := next;
      slots := slots + slab;
      bucket := bucket + [slab];
      heapSize := newHeapSize;
      assert Links(slots) == links + block;
      NewAreFree(old(slots), links, slab, block);
    }

    /** object_heap_init: an empty heap with its first 16 slots, handed out from the offset's own id on. */
    static method Init(x: int, realloced: bool, malloced: bool) returns (heap: Heap, rc: int)
      ensures fresh(heap) && heap.Valid() && heap.Live() == map[] && heap.idOffset == OffsetBits(x)
      ensures rc == if realloced && malloced then 0 else -1
      ensures |heap.slots| == if rc == 0 then 16 else 0
      ensures rc == 0 ==> heap.chain == Range(0, 16)
    {
      hide Threads, Range, LaidOut, Distinct, Links, AllocatedBy;
      heap := new Heap(x);
      rc := heap.Expand(realloced, malloced);
    }

    /** object_heap_allocate: the slot freed last, or the first slot of a new slab. -1 when the heap cannot grow. */
    method Allocate(realloced: bool, malloced: bool) returns (id: int)
      requires Valid() && (chain == [] ==> heapSize + INCREMENT <= ID_COUNT)
      modifies this, slots
      ensures Valid() && old(slots) <= slots && fresh(slots[|old(slots)|..])
      ensures var fails := old(chain) == [] && !(malloced && (realloced || |old(bucket)| < old(numBuckets)));
        if fails then id == -1 && Live() == old(Live()) && chain == old(chain)
        else
          var i := id - idOffset;
          && i == (if old(chain) == [] then old(heapSize) else old(chain)[0])
          && i !in old(Live()) && 0 <= i < |slots| && slots[i].id == id
          && Live() == old(Live())[i := slots[i]]
    {
      hide Threads, Range, LaidOut, Distinct, Links, AllocatedBy;
      HeadFits(Links(slots), nextFree, chain);
      if nextFree == LAST {
        var rc := Expand(realloced, malloced);
        if rc == -1 {
          return -1;
        }
        assert chain[0] == old(heapSize);
      }
      HeadFits(Links(slots), nextFree, chain);
      if nextFree < 0 {
        return -1;
      }
      id := Pop();
    }

    /** The end of object_heap_allocate. */
    method Pop() returns (id: int)
      requires Valid() && chain != []
      modifies this`nextFree, this`chain, slots
      ensures Valid()
      ensures var i := id - idOffset;
        && i == old(chain)[0] && i !in old(Live()) && 0 <= i < |slots|
        && slots[i].id == id && Live() == old(Live())[i := slots[i]]
    {
      hide LaidOut, Distinct, Threads, Slot, IsOffset, Links;
      HeadFits(Links(slots), nextFree, chain);
      ghost var links, i := Links(slots), nextFree;
      PopThreads(links, nextFree, chain);
      var obj := Slot(nextFree);
      DistinctSlots(bucket, slots, i);
      nextFree := obj.nextFree;
      SetNextFree(obj, ALLOCATED, slots, i);
      chain := chain[1..];
      OneChanges(slots, links, i, ALLOCATED);
      id := obj.id;
    }

    /** object_heap_lookup. */
    method Lookup(id: int) returns (r: ObjectBase?)
      requires Valid()
      ensures r != null <==> id - idOffset in Live()
      ensures r != null ==> r == Live()[id - idOffset] && r.id == id
    {
      hide LaidOut, Distinct, Threads, Slot, Masked, IsOffset;
      if id < idOffset || id >= heapSize + idOffset {
        return null;
      }
      MaskedPosition(idOffset, id - idOffset);
      var i := Masked(id);
      var obj := Slot(i);
      if obj.nextFree != ALLOCATED {
        return null;
      }
      r := obj;
    }

    /** object_heap_next, and object_heap_first when the last is -1: the next allocated slot, if there is one. */
    method Next(last: int) returns (r: ObjectBase?, it: int)
      requires Valid() && last >= -1
      ensures last < it && (r != null ==> it < heapSize && it in Live() && r == Live()[it] && r.id == idOffset + it)
      ensures r != null ==> forall i | last < i < it :: i !in Live()
      ensures r == null ==> forall i | last < i :: i !in Live()
    {
      hide LaidOut, Distinct, Threads, Slot, IsOffset;
      it := last + 1;
      while it < heapSize
        invariant last < it
        invariant forall i | last < i < it :: i !in Live()
      {
        var obj := Slot(it);
        if obj.nextFree == ALLOCATED {
          return obj, it;
        }
        it := it + 1;
      }
      r := null;
    }

    /** object_heap_free, on an object the heap gave out and has not got back. */
    method Free(obj: ObjectBase?)
      requires Valid() && (obj != null ==> exists i :: i in Live() && Live()[i] == obj)
      modifies this`nextFree, this`chain, obj
      ensures Valid()
      ensures if obj == null then Live() == old(Live()) && chain == old(chain)
        else var i := old(obj.id) - idOffset;
          && i in old(Live()) && old(Live())[i] == obj && obj.id == old(obj.id)
          && Live() == old(Live()) - {i} && chain == [i] + old(chain)
    {
      hide LaidOut, Distinct, Threads, Masked, IsOffset, Links;
      if obj == null {
        return;
      }
      ghost var i :| i in Live() && Live()[i] == obj;
      ghost var links := Links(slots);
      PushThreads(links, nextFree, chain, i);
      DistinctSlots(bucket, slots, i);
      MaskedPosition(idOffset, i);
      OneChanges(slots, links, i, nextFree);
      HeadFits(links, nextFree, chain);
      SetNextFree(obj, nextFree, slots, i);
      nextFree := Masked(obj.id);
      chain := [i] + chain;
    }

    lemma LiveBelow()
      requires Valid()
      ensures forall i | i in Live() :: 0 <= i < heapSize
    {
    }

    /** The driver's shutdown loop: free each object the last returns, while iterating. */
    method DestroyAll() returns (visited: seq<int>)
      requires Valid()
      modifies this`nextFree, this`chain, slots
      ensures Valid() && Live() == map[]
      ensures forall j, k | 0 <= j < k < |visited| :: visited[j] < visited[k]
      ensures forall id :: id in visited <==> id - idOffset in old(Live())
    {
      hide Valid, Live, Rest, Visited;
      LiveBelow();
      ghost var was, off, k := Live(), idOffset, 0;
      visited := [];
      var obj, it := Next(-1);
      k := if obj == null then heapSize else it;
      forall i | -1 < i < k
        ensures i !in was
      {
        assert i !in Live();
      }
      VisitStart(was, k, heapSize, off);
      while obj != null
        invariant Valid() && 0 <= k <= heapSize && Live() == Rest(was, k) && Visited(visited, was, k, off)
        invariant obj == null ==> k == heapSize
        invariant obj != null ==> k == it < heapSize && it in Live() && Live()[it] == obj && obj.id == off + it
        decreases heapSize - k, obj != null
      {
        ghost var before, k0 := visited, k;
        visited := visited + [obj.id];
        Free(obj);
        obj, it := Next(it);
        k := if obj == null then heapSize else it;
        assert Live() == Rest(was, k0) - {k0};
        VisitStep(before, was, k0, k, off);
      }
      VisitEnd(visited, was, heapSize, off);
    }

    /** With nothing allocated, every slot is on the free list. */
    lemma AllSlotsFree()
      requires Valid() && Live() == map[]
      ensures forall i | 0 <= i < heapSize :: i in chain
    {
    }
  }
}
