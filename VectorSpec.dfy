/**
 * The `_vector` record of vector.h as a value, and each operation on it as a
 * function from the record before the call to the record after it (or to the
 * panic the call raises). The class in DynamicArray is proved against these.
 */
module VectorSpec {
  import opened VectorTypes
  import Growth

  /**
   * `_size`, `_capacity`, `_element_size`, `_last_index` and the buffer, one
   * slot per element of capacity (a NULL buffer is the empty sequence).
   */
  datatype Vec = Vec(size: nat, capacity: nat, elementSize: nat, lastIndex: int, slots: seq<Slot>)

  /** Every slot of the buffer holds `elementSize` bytes, and no index below -1 was ever recorded. */
  predicate SlotsFit(v: Vec) {
    && v.lastIndex >= -1
    && forall i :: 0 <= i < |v.slots| ==> |v.slots[i]| == v.elementSize
  }

  /** What every operation keeps: the buffer holds exactly `capacity` slots. */
  predicate WellFormed(v: Vec) {
    SlotsFit(v) && |v.slots| == v.capacity
  }

  /**
   * The record's intended invariant, which the code does not enforce:
   * `size <= capacity` and `-1 <= lastIndex < size`.
   */
  predicate Sound(v: Vec) {
    v.size <= v.capacity && -1 <= v.lastIndex < v.size
  }

  /** No holes: the last written index is the last index (the dense push regime). */
  predicate Dense(v: Vec) {
    v.lastIndex == v.size - 1
  }

  /** An index that passes the bounds check of set/get also lies inside the buffer. */
  predicate InBuffer(v: Vec, index: int) {
    0 <= index < v.size ==> index < v.capacity
  }

  /** The capacity a dense push leaves: grown only when the vector is full. */
  function GrownCapacity(v: Vec, maxSize: nat): nat {
    if v.size == v.capacity then Growth.CalculateGrowth(v.capacity, v.size + 1, maxSize) else v.capacity
  }

  /** The slot push_back writes lies inside the buffer it will have. */
  predicate PushSafe(v: Vec, maxSize: nat) {
    if Dense(v) then v.size < GrownCapacity(v, maxSize) else v.lastIndex + 1 < v.capacity
  }

  /** The byte pop_back zeroes lies inside the buffer. */
  predicate PopSafe(v: Vec) {
    v.size > 0 ==> 0 <= v.lastIndex < v.capacity && v.elementSize > 0
  }

  /** Every slot clear overwrites lies inside the buffer. */
  predicate ClearSafe(v: Vec) {
    v.size <= v.capacity
  }

  /** vector_new: an empty vector with no buffer. */
  function New(elementSize: nat): (v: Vec)
    ensures WellFormed(v) && Sound(v) && Dense(v)
    ensures v.size == 0 && v.capacity == 0 && v.lastIndex == -1 && v.slots == []
    ensures v.elementSize == elementSize
  {
    Vec(0, 0, elementSize, -1, [])
  }

  /** The buffer realloc returns: the old slots up to the new length, then fresh ones. */
  function Realloc(slots: seq<Slot>, n: nat, filler: Slot): seq<Slot> {
    seq(n, i requires 0 <= i < n => if i < |slots| then slots[i] else filler)
  }

  /** vector_reserve: a buffer of exactly `newCapacity` slots, keeping the old contents that fit. */
  function Reserve(v: Vec, newCapacity: nat, alloc: Allocation): (r: Result<Vec>)
    requires SlotsFit(v)
    ensures r.Ok? <==> alloc.Granted?
    ensures r.Err? ==> r.error == AllocationFailed
    ensures r.Ok? ==>
              && WellFormed(r.value)
              && r.value.capacity == newCapacity
              && r.value.size == v.size
              && r.value.lastIndex == v.lastIndex
              && r.value.elementSize == v.elementSize
              && forall i :: 0 <= i < Min(|v.slots|, newCapacity) ==> r.value.slots[i] == v.slots[i]
  {
    match alloc
    case Refused => Err(AllocationFailed)
    case Granted(junk) =>
      Ok(v.(capacity := newCapacity, slots := Realloc(v.slots, newCapacity, Fill(v.elementSize, junk))))
  }

  /**
   * vector_resize: `size` becomes `newSize`, capacity rises to fit it exactly,
   * the buffer is reserved again; `lastIndex` is left alone.
   */
  function Resize(v: Vec, newSize: nat, alloc: Allocation): (r: Result<Vec>)
    requires WellFormed(v)
    ensures r.Ok? <==> alloc.Granted?
    ensures r.Err? ==> r.error == AllocationFailed
    ensures r.Ok? ==>
              && WellFormed(r.value)
              && r.value.size == newSize
              && r.value.capacity == (if newSize > v.capacity then newSize else v.capacity)
              && r.value.lastIndex == v.lastIndex
              && r.value.elementSize == v.elementSize
              && r.value.slots[..v.capacity] == v.slots
  {
    var w := v.(size := newSize, capacity := if newSize > v.capacity then newSize else v.capacity);
    Reserve(w, w.capacity, alloc)
  }

  /** vector_get: the slot at `index`, or a panic when `index` is outside `[0, size)`. */
  function Get(v: Vec, index: int): (r: Result<Slot>)
    requires WellFormed(v) && InBuffer(v, index)
    ensures r.Ok? <==> 0 <= index < v.size
    ensures r.Err? ==> r.error == OutOfRange
    ensures r.Ok? ==> r.value == v.slots[index]
  {
    if index < 0 || index >= v.size then Err(OutOfRange) else Ok(v.slots[index])
  }

  /**
   * vector_set: stores `value` at `index` and raises `lastIndex` to `index`,
   * or panics when `index` is outside `[0, size)`.
   */
  function Set(v: Vec, index: int, value: Slot): (r: Result<Vec>)
    requires WellFormed(v) && |value| == v.elementSize && InBuffer(v, index)
    ensures r.Ok? <==> 0 <= index < v.size
    ensures r.Err? ==> r.error == OutOfRange
    ensures r.Ok? ==>
              && WellFormed(r.value)
              && r.value.size == v.size
              && r.value.capacity == v.capacity
              && r.value.elementSize == v.elementSize
              && r.value.lastIndex == (if v.lastIndex < index then index else v.lastIndex)
              && r.value.slots[index] == value
              && (forall j :: 0 <= j < |v.slots| && j != index ==> r.value.slots[j] == v.slots[j])
  {
    if index < 0 || index >= v.size then
      Err(OutOfRange)
    else
      Ok(v.(lastIndex := if v.lastIndex < index then index else v.lastIndex,
            slots := v.slots[index := value]))
  }

  /**
   * vector_push_back. Dense regime (`lastIndex == size - 1`): grow a full
   * buffer, then `size` rises by one. Sparse regime: `size` becomes
   * `lastIndex + 2`. Either way the value is set at `lastIndex + 1`.
   */
  function PushBack(v: Vec, value: Slot, maxSize: nat, alloc: Allocation): (r: Result<Vec>)
    requires WellFormed(v) && |value| == v.elementSize && PushSafe(v, maxSize)
    ensures r.Err? <==> Dense(v) && v.size == v.capacity && alloc.Refused?
    ensures r.Err? ==> r.error == AllocationFailed
    ensures r.Ok? ==>
              && WellFormed(r.value)
              && r.value.size == v.lastIndex + 2
              && r.value.lastIndex == v.lastIndex + 1
              && r.value.capacity == (if Dense(v) then GrownCapacity(v, maxSize) else v.capacity)
              && r.value.elementSize == v.elementSize
              && r.value.slots[v.lastIndex + 1] == value
              && |v.slots| <= |r.value.slots|
              && forall i :: 0 <= i < |v.slots| && i != v.lastIndex + 1 ==> r.value.slots[i] == v.slots[i]
  {
    if v.lastIndex == v.size - 1 then
      var grown :=
        if v.size == v.capacity then
          Reserve(v, Growth.CalculateGrowth(v.capacity, v.size + 1, maxSize), alloc)
        else
          Ok(v);
      match grown
      case Err(e) => Err(e)
      case Ok(w) =>
        var w' := w.(size := w.size + 1, lastIndex := w.lastIndex + 1);
        Set(w', w'.lastIndex, value)
    else
      var w := v.(size := v.lastIndex + 2, lastIndex := v.lastIndex + 1);
      Set(w, w.lastIndex, value)
  }

  /** The slot with its first byte zeroed: all that pop_back clears. */
  function ZeroFirst(s: Slot): (r: Slot)
    requires |s| > 0
    ensures |r| == |s| && r[0] == 0 && r[1..] == s[1..]
  {
    [0] + s[1..]
  }

  /**
   * vector_pop_back: panics on an empty vector; otherwise zeroes the first
   * byte of the slot at `lastIndex` (not at `size - 1`) and lowers both
   * `size` and `lastIndex` by one.
   */
  function PopBack(v: Vec): (r: Result<Vec>)
    requires WellFormed(v) && PopSafe(v)
    ensures r.Err? <==> v.size == 0
    ensures r.Err? ==> r.error == EmptyVector
    ensures r.Ok? ==>
              && WellFormed(r.value)
              && r.value.size == v.size - 1
              && r.value.lastIndex == v.lastIndex - 1
              && r.value.capacity == v.capacity
              && r.value.elementSize == v.elementSize
              && r.value.slots[v.lastIndex] == ZeroFirst(v.slots[v.lastIndex])
              && forall i :: 0 <= i < |v.slots| && i != v.lastIndex ==> r.value.slots[i] == v.slots[i]
  {
    if v.size == 0 then
      Err(EmptyVector)
    else
      Ok(v.(size := v.size - 1,
            lastIndex := v.lastIndex - 1,
            slots := v.slots[v.lastIndex := ZeroFirst(v.slots[v.lastIndex])]))
  }

  /** The slots with those at indices `lo..hi-1` replaced by zero bytes. */
  function ZeroRange(slots: seq<Slot>, lo: int, hi: int, width: nat): (r: seq<Slot>)
    ensures |r| == |slots|
    ensures forall i :: 0 <= i < |slots| ==> r[i] == if lo <= i < hi then Zeros(width) else slots[i]
  {
    seq(|slots|, i requires 0 <= i < |slots| => if lo <= i < hi then Zeros(width) else slots[i])
  }

  /**
   * vector_clear: every slot below the old `size` is overwritten with the
   * zero bytes of NULL, `size` drops to 0 and `lastIndex` to -1; capacity stays.
   */
  function Clear(v: Vec): (r: Vec)
    requires WellFormed(v) && ClearSafe(v)
    ensures WellFormed(r) && Sound(r) && Dense(r)
    ensures r.size == 0 && r.lastIndex == -1
    ensures r.capacity == v.capacity && r.elementSize == v.elementSize
    ensures |r.slots| == |v.slots|
    ensures forall i :: 0 <= i < v.size ==> r.slots[i] == Zeros(v.elementSize)
    ensures forall i :: v.size <= i < |v.slots| ==> r.slots[i] == v.slots[i]
  {
    v.(size := 0, lastIndex := -1, slots := ZeroRange(v.slots, 0, v.size, v.elementSize))
  }

  /** The state after a call that may panic agrees with the specification's result. */
  predicate Reports(r: Result<Vec>, st: Outcome, after: Vec) {
    match r
    case Ok(w) => st == Pass && after == w
    case Err(e) => st == Fail(e)
  }
}
