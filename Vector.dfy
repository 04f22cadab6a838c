/**
 * The type-erased growable array of vector.h as a class whose methods update
 * its fields in place. Each method is proved to leave the vector in the state
 * the matching VectorSpec function gives, or to report the panic it raises.
 */
module DynamicArray {
  import opened VectorTypes
  import Growth
  import Spec = VectorSpec

  class Vector {
    var size: nat
    var capacity: nat
    const elementSize: nat
    var lastIndex: int
    /** The buffer, one slot of `elementSize` bytes per element of capacity. */
    var data: array<Slot>
    /** `VECTOR_MAX_SIZE`: the process-wide cap on capacity, fixed before any vector is used. */
    const maxSize: nat

    /** The record as a value. */
    ghost function Model(): Spec.Vec
      reads this, data
    {
      Spec.Vec(size, capacity, elementSize, lastIndex, data[..])
    }

    ghost predicate Valid()
      reads this, data
    {
      Spec.WellFormed(Model())
    }

    /** vector_new */
    constructor (elementSize: nat, maxSize: nat)
      requires maxSize > 0
      ensures Valid() && fresh(data)
      ensures Model() == Spec.New(elementSize)
      ensures this.elementSize == elementSize && this.maxSize == maxSize
    {
      this.elementSize := elementSize;
      this.maxSize := maxSize;
      size, capacity := 0, 0;
      lastIndex := -1;
      data := new Slot[0];
    }

    /** vector_size */
    method Size() returns (n: nat)
      ensures n == size
    {
      n := size;
    }

    /** vector_capacity */
    method Capacity() returns (n: nat)
      ensures n == capacity
    {
      n := capacity;
    }

    /** vector_get: the bytes of the element at `index`, bounds-checked against `size`. */
    method Get(index: int) returns (r: Result<Slot>)
      requires Valid() && Spec.InBuffer(Model(), index)
      ensures r.Ok? <==> 0 <= index < size
      ensures r.Err? ==> r.error == OutOfRange
      ensures r.Ok? ==> r.value == data[index]
    {
      if index < 0 || index >= size {
        return Err(OutOfRange);
      }
      r := Ok(data[index]);
    }

    /** vector_set: copies `value` into the slot at `index`, bounds-checked against `size`. */
    method Set(index: int, value: Slot) returns (st: Outcome)
      requires Valid() && |value| == elementSize && Spec.InBuffer(Model(), index)
      modifies this`lastIndex, data
      ensures Valid()
      ensures Spec.Reports(Spec.Set(old(Model()), index, value), st, Model())
      ensures st.Fail? ==> Model() == old(Model())
    {
      if index < 0 || index >= size {
        return Fail(OutOfRange);
      }
      if lastIndex < index {
        lastIndex := index;
      }
      data[index] := value;
      st := Pass;
    }

    /**
     * vector_reserve: a new buffer of exactly `newCapacity` slots into which
     * realloc copies the old slots that fit. Needs only that the slots fit,
     * since resize calls it after changing `capacity`.
     */
    method Reserve(newCapacity: nat, alloc: Allocation) returns (st: Outcome)
      requires Spec.SlotsFit(Model())
      modifies this`capacity, this`data
      ensures Spec.Reports(Spec.Reserve(old(Model()), newCapacity, alloc), st, Model())
      ensures st.Pass? ==> Valid() && fresh(data)
      ensures st.Fail? ==> Model() == old(Model()) && data == old(data)
    {
      if alloc.Refused? {
        return Fail(AllocationFailed);
      }
      var filler := Fill(elementSize, alloc.junk);
      var buffer := new Slot[newCapacity](_ => filler);
      var kept := if data.Length < newCapacity then data.Length else newCapacity;
      for i := 0 to kept
        modifies buffer
        invariant forall j :: 0 <= j < i ==> buffer[j] == data[j]
        invariant forall j :: i <= j < newCapacity ==> buffer[j] == filler
      {
        buffer[i] := data[i];
      }
      assert buffer[..] == Spec.Realloc(data[..], newCapacity, filler) by {
        forall j | 0 <= j < newCapacity
          ensures buffer[j] == Spec.Realloc(data[..], newCapacity, filler)[j]
        {
          if j >= data.Length {
            assert j >= kept;
          }
        }
      }
      data, capacity := buffer, newCapacity;
      st := Pass;
    }

    /**
     * vector_resize: sets `size`, raises `capacity` to it if needed and reserves
     * the buffer again. On an allocation failure the process aborts with `size`
     * and `capacity` already set and the old buffer in place.
     */
    method Resize(newSize: nat, alloc: Allocation) returns (st: Outcome)
      requires Valid()
      modifies this`size, this`capacity, this`data
      ensures st.Pass? ==> Valid() && fresh(data)
      ensures Spec.Reports(Spec.Resize(old(Model()), newSize, alloc), st, Model())
      ensures st.Fail? ==>
                && size == newSize
                && capacity == (if newSize > old(capacity) then newSize else old(capacity))
                && lastIndex == old(lastIndex)
                && data == old(data) && data[..] == old(data[..])
    {
      size := newSize;
      if newSize > capacity {
        capacity := newSize;
      }
      st := Reserve(capacity, alloc);
    }

    /**
     * vector_push_back: in the dense regime grows a full buffer and appends;
     * in the sparse regime collapses `size` to `lastIndex + 2`; then sets the
     * value at the pre-incremented `lastIndex`.
     */
    method PushBack(value: Slot, alloc: Allocation) returns (st: Outcome)
      requires Valid() && |value| == elementSize && Spec.PushSafe(Model(), maxSize)
      modifies this, data
      ensures Valid()
      ensures Spec.Reports(Spec.PushBack(old(Model()), value, maxSize, alloc), st, Model())
      ensures st.Fail? ==> Model() == old(Model())
      ensures data == old(data) || fresh(data)
    {
      if lastIndex == size - 1 {
        if size == capacity {
          var newCapacity := Growth.CalculateGrowth(capacity, size + 1, maxSize);
          st := Reserve(newCapacity, alloc);
          if st.Fail? {
            return;
          }
        }
        size := size + 1;
        lastIndex := lastIndex + 1;
        st := Set(lastIndex, value);
      } else {
        size := lastIndex + 2;
        lastIndex := lastIndex + 1;
        st := Set(lastIndex, value);
      }
    }

    /**
     * vector_pop_back: panics on an empty vector; otherwise zeroes the first
     * byte of the slot at `lastIndex` and lowers `lastIndex` and `size`.
     */
    method PopBack() returns (st: Outcome)
      requires Valid() && Spec.PopSafe(Model())
      modifies this`size, this`lastIndex, data
      ensures Valid()
      ensures Spec.Reports(Spec.PopBack(old(Model())), st, Model())
      ensures st.Fail? ==> Model() == old(Model())
    {
      if size == 0 {
        return Fail(EmptyVector);
      }
      data[lastIndex] := Spec.ZeroFirst(data[lastIndex]);
      lastIndex := lastIndex - 1;
      size := size - 1;
      st := Pass;
    }

    /**
     * vector_clear: sets the last element to NULL and drops it, until `size`
     * is 0; then forgets the last written index. Capacity is kept.
     */
    method Clear()
      requires Valid() && Spec.ClearSafe(Model())
      modifies this`size, this`lastIndex, data
      ensures Valid()
      ensures Model() == Spec.Clear(old(Model()))
    {
      while size > 0
        invariant Valid()
        invariant size <= old(size)
        invariant forall i :: 0 <= i < data.Length ==>
                    data[i] == if size <= i < old(size) then Zeros(elementSize) else old(data[i])
        decreases size
      {
        var _ := Set(size - 1, Zeros(elementSize));
        size := size - 1;
      }
      lastIndex := -1;
      assert data[..] == Spec.ZeroRange(old(data[..]), 0, old(size), elementSize);
    }
  }
}
