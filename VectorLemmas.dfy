/**
 * Properties that relate several operations of vector.h: what set/get and
 * push/pop undo, which operations keep the record's intended invariant and exactly
 * when they break it, and what a run of pushes from an empty vector builds.
 */
module VectorLemmas {
  import opened VectorTypes
  import opened VectorSpec

  /** get after a successful set reads the stored value back, and nothing else moves. */
  lemma GetAfterSet(v: Vec, index: int, value: Slot, j: int)
    requires WellFormed(v) && |value| == v.elementSize && InBuffer(v, index) && InBuffer(v, j)
    requires Set(v, index, value).Ok?
    ensures Get(Set(v, index, value).value, j) == if j == index then Ok(value) else Get(v, j)
  {
  }

  /** set keeps the invariant. */
  lemma SetKeepsSound(v: Vec, index: int, value: Slot)
    requires WellFormed(v) && Sound(v) && |value| == v.elementSize
    ensures InBuffer(v, index)
    ensures Set(v, index, value).Ok? ==> Sound(Set(v, index, value).value)
  {
  }

  /** reserve keeps the invariant exactly when it does not shrink the buffer below `size`. */
  lemma ReserveKeepsSoundIff(v: Vec, newCapacity: nat, alloc: Allocation)
    requires WellFormed(v) && Sound(v) && alloc.Granted?
    ensures Sound(Reserve(v, newCapacity, alloc).value) <==> newCapacity >= v.size
  {
  }

  /**
   * resize keeps the invariant exactly when the new size stays above the last
   * written index: a shrinking resize leaves `lastIndex >= size`.
   */
  lemma ResizeKeepsSoundIff(v: Vec, newSize: nat, alloc: Allocation)
    requires WellFormed(v) && Sound(v) && alloc.Granted?
    ensures Sound(Resize(v, newSize, alloc).value) <==> newSize > v.lastIndex
  {
  }

  /** In a sound vector the sparse regime never writes outside the buffer. */
  lemma SparsePushIsSafe(v: Vec, maxSize: nat)
    requires Sound(v) && !Dense(v)
    ensures PushSafe(v, maxSize)
  {
  }

  /**
   * In a sound, dense vector push_back stays inside the buffer exactly when the
   * vector is not full at (or beyond) the cap: a full vector at the cap grows
   * to the cap itself, and the write lands one past the buffer.
   */
  lemma DensePushSafeIff(v: Vec, maxSize: nat)
    requires Sound(v) && Dense(v) && maxSize >= 2
    ensures PushSafe(v, maxSize) <==> !(v.size == v.capacity && v.capacity >= maxSize)
  {
  }

  /** A push that stays inside the buffer keeps the invariant and leaves the vector dense. */
  lemma PushKeepsSound(v: Vec, value: Slot, maxSize: nat, alloc: Allocation)
    requires WellFormed(v) && Sound(v) && |value| == v.elementSize && PushSafe(v, maxSize)
    requires PushBack(v, value, maxSize, alloc).Ok?
    ensures Sound(PushBack(v, value, maxSize, alloc).value)
    ensures Dense(PushBack(v, value, maxSize, alloc).value)
  {
  }

  /** A pop that stays inside the buffer keeps the invariant. */
  lemma PopKeepsSound(v: Vec)
    requires WellFormed(v) && Sound(v) && PopSafe(v) && PopBack(v).Ok?
    ensures Sound(PopBack(v).value)
  {
  }

  /**
   * pop_back after a dense push_back restores `size` and `lastIndex`, keeps the
   * grown capacity, zeroes the first byte of the pushed slot and leaves every
   * other slot as it was before the push.
   */
  lemma PopUndoesDensePush(v: Vec, value: Slot, maxSize: nat, alloc: Allocation)
    requires WellFormed(v) && Dense(v) && |value| == v.elementSize && v.elementSize > 0
    requires PushSafe(v, maxSize) && PushBack(v, value, maxSize, alloc).Ok?
    ensures var pushed := PushBack(v, value, maxSize, alloc).value;
            && PopSafe(pushed)
            && PopBack(pushed).Ok?
            && PopBack(pushed).value.size == v.size
            && PopBack(pushed).value.lastIndex == v.lastIndex
            && PopBack(pushed).value.capacity == pushed.capacity
            && PopBack(pushed).value.slots[v.size] == ZeroFirst(value)
            && forall i :: 0 <= i < |v.slots| && i != v.size ==> PopBack(pushed).value.slots[i] == v.slots[i]
  {
  }

  /**
   * An enlarging resize of a vector nothing was written to leaves `lastIndex`
   * at -1 with `size > 0`, and the next pop_back writes before the buffer.
   */
  lemma PopAfterEnlargingResizeIsUnsafe(v: Vec, newSize: nat, alloc: Allocation)
    requires WellFormed(v) && v.lastIndex == -1 && newSize > 0 && alloc.Granted?
    ensures !PopSafe(Resize(v, newSize, alloc).value)
  {
  }

  /**
   * After a resize below the last written index, the next push_back is sparse,
   * sets `size` to `lastIndex + 2`, and stays inside the buffer exactly when
   * the last written slot was not the buffer's last.
   */
  lemma ShrinkingResizeThenPush(v: Vec, newSize: nat, maxSize: nat, alloc: Allocation)
    requires WellFormed(v) && Sound(v) && newSize <= v.lastIndex && alloc.Granted?
    ensures var w := Resize(v, newSize, alloc).value;
            && !Sound(w)
            && !Dense(w)
            && (PushSafe(w, maxSize) <==> v.lastIndex + 1 < v.capacity)
  {
  }

  /**
   * A reachable overrun: `new`, `resize(1)`, `set(0, x)`, `resize(0)`; the next
   * push_back would set `size` to 2 and write slot 1 of a one-slot buffer.
   */
  lemma ShrinkingResizeScenario(elementSize: nat, x: Slot, junk: byte, maxSize: nat)
    requires |x| == elementSize
    ensures var v1 := Resize(New(elementSize), 1, Granted(junk)).value;
            && InBuffer(v1, 0)
            && Set(v1, 0, x).Ok?
            && var v2 := Resize(Set(v1, 0, x).value, 0, Granted(junk)).value;
               && v2.size == 0 && v2.lastIndex == 0 && v2.capacity == 1
               && !PushSafe(v2, maxSize)
  {
  }

  /**
   * The sparse-append scenario: `new`, `resize(5)`, `push_back(x)` leaves
   * `size == 1` with x at slot 0, and indices 1 to 4 out of range again.
   */
  lemma SparseAppendScenario(elementSize: nat, x: Slot, junk: byte, maxSize: nat)
    requires |x| == elementSize
    ensures var v1 := Resize(New(elementSize), 5, Granted(junk)).value;
            && PushSafe(v1, maxSize)
            && PushBack(v1, x, maxSize, Granted(junk)).Ok?
            && var v2 := PushBack(v1, x, maxSize, Granted(junk)).value;
               && v2.size == 1 && v2.lastIndex == 0 && v2.capacity == 5
               && Get(v2, 0) == Ok(x)
               && forall i :: 1 <= i <= 4 ==> Get(v2, i) == Err(OutOfRange)
  {
  }

  /** A dense vector below the cap whose buffer is within the cap can take one more push. */
  lemma PushBelowCapIsSafe(v: Vec, maxSize: nat)
    requires Sound(v) && Dense(v) && v.capacity <= maxSize && v.size < maxSize
    ensures PushSafe(v, maxSize)
    ensures GrownCapacity(v, maxSize) <= maxSize
  {
  }

  /**
   * `xs` pushed one after another onto a sound dense vector, every allocation
   * succeeding; the cap bounds the number of pushes so that none overruns.
   */
  function PushAll(v: Vec, xs: seq<Slot>, maxSize: nat, junk: byte): (r: Vec)
    requires WellFormed(v) && Sound(v) && Dense(v)
    requires v.capacity <= maxSize && v.size + |xs| <= maxSize
    requires forall x <- xs :: |x| == v.elementSize
    ensures WellFormed(r) && Sound(r) && Dense(r)
    ensures r.capacity <= maxSize && r.elementSize == v.elementSize
    ensures r.size == v.size + |xs|
    decreases |xs|
  {
    if xs == [] then
      v
    else
      PushBelowCapIsSafe(v, maxSize);
      var w := PushBack(v, xs[0], maxSize, Granted(junk)).value;
      PushKeepsSound(v, xs[0], maxSize, Granted(junk));
      PushAll(w, xs[1..], maxSize, junk)
  }

  /** The pushed values follow the old elements in order, and the old elements stay. */
  lemma {:induction false} PushAllContents(v: Vec, xs: seq<Slot>, maxSize: nat, junk: byte)
    requires WellFormed(v) && Sound(v) && Dense(v)
    requires v.capacity <= maxSize && v.size + |xs| <= maxSize
    requires forall x <- xs :: |x| == v.elementSize
    ensures forall i :: 0 <= i < v.size ==> PushAll(v, xs, maxSize, junk).slots[i] == v.slots[i]
    ensures forall i :: 0 <= i < |xs| ==> PushAll(v, xs, maxSize, junk).slots[v.size + i] == xs[i]
    decreases |xs|
  {
    if xs != [] {
      PushBelowCapIsSafe(v, maxSize);
      var w := PushBack(v, xs[0], maxSize, Granted(junk)).value;
      PushKeepsSound(v, xs[0], maxSize, Granted(junk));
      PushAllContents(w, xs[1..], maxSize, junk);
      assert PushAll(v, xs, maxSize, junk) == PushAll(w, xs[1..], maxSize, junk);
      forall i | 0 <= i < |xs|
        ensures PushAll(v, xs, maxSize, junk).slots[v.size + i] == xs[i]
      {
        if i > 0 {
          assert v.size + i == w.size + (i - 1);
        }
      }
    }
  }

  /**
   * N pushes onto a new vector: `size == N`, `lastIndex == N - 1`,
   * `capacity >= N`, get(i) returns the i-th value pushed, and every other
   * index, -1 and N included, is out of range.
   */
  lemma PushedFromEmpty(elementSize: nat, xs: seq<Slot>, maxSize: nat, junk: byte)
    requires |xs| <= maxSize
    requires forall x <- xs :: |x| == elementSize
    ensures var r := PushAll(New(elementSize), xs, maxSize, junk);
            && r.size == |xs| && r.lastIndex == |xs| - 1 && r.capacity >= |xs|
            && (forall i :: InBuffer(r, i))
            && (forall i :: 0 <= i < |xs| ==> Get(r, i) == Ok(xs[i]))
            && (forall i :: (i < 0 || i >= |xs|) ==> Get(r, i) == Err(OutOfRange))
  {
    PushAllContents(New(elementSize), xs, maxSize, junk);
  }

  /**
   * The number of slots realloc copies while `xs` is pushed as in PushAll:
   * the whole old buffer at every push that finds the vector full.
   */
  function PushAllCopies(v: Vec, xs: seq<Slot>, maxSize: nat, junk: byte): nat
    requires WellFormed(v) && Sound(v) && Dense(v)
    requires v.capacity <= maxSize && v.size + |xs| <= maxSize
    requires forall x <- xs :: |x| == v.elementSize
    decreases |xs|
  {
    if xs == [] then
      0
    else
      PushBelowCapIsSafe(v, maxSize);
      var w := PushBack(v, xs[0], maxSize, Granted(junk)).value;
      PushKeepsSound(v, xs[0], maxSize, Granted(junk));
      (if v.size == v.capacity then v.capacity else 0) + PushAllCopies(w, xs[1..], maxSize, junk)
  }

  /**
   * Geometric growth pays for itself: with `spent` slots already copied and at
   * most three per slot of capacity, the pushes keep that ratio, and capacity
   * stays within 1.5 times the size. Assumes the pushes never reach the cap.
   */
  lemma {:induction false} CopiesWithinThreeCapacities(v: Vec, xs: seq<Slot>, maxSize: nat, junk: byte, spent: nat)
    requires WellFormed(v) && Sound(v) && Dense(v)
    requires v.capacity <= maxSize && 3 * (v.size + |xs|) <= 2 * maxSize
    requires forall x <- xs :: |x| == v.elementSize
    requires spent <= 3 * v.capacity && 2 * v.capacity <= 3 * v.size
    ensures var r := PushAll(v, xs, maxSize, junk);
            && spent + PushAllCopies(v, xs, maxSize, junk) <= 3 * r.capacity
            && 2 * r.capacity <= 3 * r.size
    decreases |xs|
  {
    if xs != [] {
      PushBelowCapIsSafe(v, maxSize);
      var w := PushBack(v, xs[0], maxSize, Granted(junk)).value;
      PushKeepsSound(v, xs[0], maxSize, Granted(junk));
      var copied := if v.size == v.capacity then v.capacity else 0;
      assert 3 * w.capacity >= 4 * copied + 3 * v.capacity - 3 * copied && 2 * w.capacity <= 3 * w.size by {
        if v.size == v.capacity {
          var c := v.capacity;
          assert c + c / 2 <= maxSize;
          assert w.capacity == if c + c / 2 < c + 1 then c + 1 else c + c / 2;
        }
      }
      CopiesWithinThreeCapacities(w, xs[1..], maxSize, junk, spent + copied);
      assert PushAll(v, xs, maxSize, junk) == PushAll(w, xs[1..], maxSize, junk);
    }
  }

  /** N pushes onto a new vector copy at most 4.5 N slots in all: amortized O(1) per push. */
  lemma PushedFromEmptyCopiesLinear(elementSize: nat, xs: seq<Slot>, maxSize: nat, junk: byte)
    requires 3 * |xs| <= 2 * maxSize
    requires forall x <- xs :: |x| == elementSize
    ensures 2 * PushAllCopies(New(elementSize), xs, maxSize, junk) <= 9 * |xs|
  {
    CopiesWithinThreeCapacities(New(elementSize), xs, maxSize, junk, 0);
  }
}
