# A verified model of a type-erased growable array (vector.h)

`vector.h` is a single-header C container: a record of four integers
(`_size`, `_capacity`, `_element_size`, `_last_index`) and a byte buffer,
with bounds-checked `vector_set`/`vector_get`, `vector_reserve`,
`vector_resize`, a 1.5x geometric growth rule, `vector_push_back` with a
dense and a sparse regime, `vector_pop_back` and `vector_clear`. Every
misuse the code detects ends in `abort()`.

This project models that core in Dafny in two layers:

- `VectorSpec` (VectorSpec.dfy) gives the record as a datatype `Vec` and each
  operation as a function from the record before the call to the record
  after it, or to the panic it raises (`Result`). `Growth` (Growth.dfy)
  holds `vector_calculate_growth` as a pure function of the old capacity,
  the requested size and the cap `maxSize` (an abstract constant).
- `DynamicArray.Vector` (Vector.dfy) is a class with the same fields and an
  `array` of slots for the buffer. Its methods update those fields in
  place: `Reserve` copies the surviving slots into a new array in a loop,
  `PushBack` pre-increments `lastIndex` and calls `Set`, and `Clear` runs the
  source's `while` loop over `Set`. Each method is proved to leave the state
  that the matching `VectorSpec` function gives, or to report the same panic.
- `VectorLemmas` (VectorLemmas.dfy) relates operations to each other: get
  after set, pop after push, N pushes from empty, and the amortized copy
  cost. It also states exactly which operations keep the record's intended invariant
  `size <= capacity && -1 <= lastIndex < size` (`Sound`) and when they
  break it.

Panics become error outcomes: `OutOfRange`, `EmptyVector` and
`AllocationFailed`, one per diagnostic message. The allocator's answer is a
parameter (`Allocation`): `Refused` models a NULL return, and `Granted(junk)`
gives the indeterminate bytes of a fresh block. Writes that C would make
outside the buffer are undefined behaviour, not panics, so they are
preconditions: `InBuffer` for set/get, `PushSafe`, `PopSafe` and `ClearSafe`.
Lemmas show which legal call sequences reach a state where those
preconditions fail:

- a shrinking `resize` leaves `lastIndex >= size`, and the next sparse push can
  write past the buffer;
- an enlarging `resize` of an unwritten vector makes the next `pop_back`
  write at index -1;
- `reserve` below `size` breaks `size <= capacity`;
- a dense push onto a vector that is full at the cap grows to the cap itself
  and writes one slot past it.

The quirks of the source are kept as written:

- the sparse push collapses `size` to `lastIndex + 2`;
- `pop_back` zeroes only the first byte of the slot at `lastIndex`, not at
  `size - 1`;
- `resize` never touches `lastIndex`.

## Model

| member | source | states |
|---|---|---|
| `Growth.CalculateGrowth` | vector.h:163-176 | The result is at least the request and at most the cap whenever the request fits the cap. It never falls below the old capacity when that is within the cap. Away from the cap it is at least 1.5 times the old capacity, rounded down, and no more than the larger of the request and 1.5 times the old capacity (no over-allocation). Once the old capacity is within half of the cap, the cap is returned. |
| `Growth.GrowthExamples` | vector.h:163-176 | Two sample values of the rule: from capacity 0 a request for 1 gives 1. From 4 a request for 5 gives 6 (cap at least 6). |
| `Growth.GrowthMakesRoom` | vector.h:163-176 | Growing a full buffer for one more element yields more than the old capacity exactly when the old capacity is below the cap (cap at least 2). |
| `VectorSpec.New` | vector.h:123-136 | A new vector has size 0, capacity 0, last index -1, no buffer, and the given element size. It is well-formed, sound and dense. |
| `VectorSpec.Reserve` | vector.h:95-106 | The call fails with AllocationFailed exactly when the allocator refuses. Otherwise capacity becomes exactly the request, the slots that fit are kept, and size, last index and element size are unchanged. |
| `VectorSpec.Resize` | vector.h:108-116 | Size becomes the new size. Capacity becomes the larger of the old capacity and the new size. The last index is untouched and every old slot survives. It fails only when the allocator refuses. |
| `VectorSpec.Get` | vector.h:85-91 | The call succeeds exactly when 0 <= index < size and then returns the slot at index. Otherwise it fails with OutOfRange. |
| `VectorSpec.Set` | vector.h:74-83 | The call succeeds exactly when 0 <= index < size. It then stores the value at index, raises the last index to max(last index, index), and leaves size, capacity and every other slot unchanged. Otherwise it fails with OutOfRange. |
| `VectorSpec.PushBack` | vector.h:188-206 | In both regimes size becomes old last index + 2, last index rises by 1, and the value is stored at old last index + 1. No other old slot changes. Capacity becomes the growth result in the dense regime (grown only when full) and stays the same in the sparse regime. The call fails with AllocationFailed exactly when the vector is dense and full and the allocator refuses. |
| `VectorSpec.PopBack` | vector.h:208-218 | The call fails with EmptyVector exactly when size is 0. Otherwise size and last index each fall by 1, capacity is unchanged, only the first byte of the slot at the old last index becomes 0, and every other slot is unchanged. |
| `VectorSpec.Clear` | vector.h:147-156 | Size becomes 0, last index -1, and capacity is unchanged. Slots below the old size hold zero bytes, and slots from the old size on are unchanged. |
| `DynamicArray.Vector.constructor` | vector.h:123-136 | The fields are those of `VectorSpec.New`: size 0, capacity 0, last index -1, an empty buffer, and the element size stored unchanged. |
| `DynamicArray.Vector.Size` | vector.h:178-181 | Returns the size field and changes nothing. |
| `DynamicArray.Vector.Capacity` | vector.h:183-186 | Returns the capacity field and changes nothing. |
| `DynamicArray.Vector.Get` | vector.h:85-91 | Succeeds exactly when 0 <= index < size, returning the bytes stored at index. Otherwise it fails with OutOfRange. Changes nothing. |
| `DynamicArray.Vector.Set` | vector.h:74-83 | The new state is `VectorSpec.Set` of the old one. On OutOfRange nothing changes. |
| `DynamicArray.Vector.Reserve` | vector.h:95-106 | The realloc copy loop leaves the state `VectorSpec.Reserve` gives, in a fresh buffer. A refused allocation changes nothing. |
| `DynamicArray.Vector.Resize` | vector.h:108-116 | The new state is `VectorSpec.Resize` of the old one. On an allocation failure, size and capacity are already set and the old buffer is still in place, as at the abort. |
| `DynamicArray.Vector.PushBack` | vector.h:188-206 | The new state is `VectorSpec.PushBack` of the old one. A refused allocation changes nothing. |
| `DynamicArray.Vector.PopBack` | vector.h:208-218 | The new state is `VectorSpec.PopBack` of the old one. On an empty vector nothing changes. |
| `DynamicArray.Vector.Clear` | vector.h:147-156 | The loop of `Set` calls, each dropping one element, ends in the state `VectorSpec.Clear` gives. |
| `VectorLemmas.GetAfterSet` | vector.h:74-91 | A get after a successful set returns the stored value at that index. At every other index it returns what it returned before. |
| `VectorLemmas.SetKeepsSound` | vector.h:74-83 | In a sound vector every index passes the buffer check, and set keeps the invariant. |
| `VectorLemmas.ReserveKeepsSoundIff` | vector.h:95-106 | Reserve keeps the invariant if and only if the new capacity is at least the size. |
| `VectorLemmas.ResizeKeepsSoundIff` | vector.h:108-116 | Resize keeps the invariant if and only if the new size exceeds the last written index. |
| `VectorLemmas.SparsePushIsSafe` | vector.h:201-205 | In a sound vector the sparse regime always writes inside the buffer. |
| `VectorLemmas.DensePushSafeIff` | vector.h:163-176 | In a sound dense vector (cap at least 2), push_back stays inside the buffer if and only if the vector is not full at or above the cap. |
| `VectorLemmas.PushKeepsSound` | vector.h:188-206 | A push that stays inside the buffer keeps the invariant and leaves the vector dense. |
| `VectorLemmas.PopKeepsSound` | vector.h:208-218 | A pop that stays inside the buffer keeps the invariant. |
| `VectorLemmas.PopUndoesDensePush` | vector.h:188-218 | A pop after a dense push restores size and last index and keeps the grown capacity. The pushed slot ends with its first byte zeroed, and all other old slots are as before the push. |
| `VectorLemmas.PopAfterEnlargingResizeIsUnsafe` | vector.h:108-116 | After an enlarging resize of a vector with last index -1, the next pop would write before the buffer. |
| `VectorLemmas.ShrinkingResizeThenPush` | vector.h:108-116 | After a resize below the last written index, the vector is unsound and not dense. The next push is then sparse, and it stays inside the buffer if and only if the last written slot was not the last slot of the buffer. |
| `VectorLemmas.ShrinkingResizeScenario` | vector.h:201-205 | A reachable overrun: new, resize(1), set(0, x), resize(0). This leaves size 0, last index 0 and capacity 1, and the next push would write past the buffer. |
| `VectorLemmas.SparseAppendScenario` | vector.h:201-205 | new, resize(5), push_back(x) gives size 1 and capacity 5 with x at slot 0. Indices 1 to 4 are out of range. |
| `VectorLemmas.PushBelowCapIsSafe` | vector.h:188-200 | A sound dense vector whose size is below the cap and whose capacity is within the cap can take a push, and the capacity after it stays within the cap. |
| `VectorLemmas.PushAll` | vector.h:188-200 | Pushing a sequence of values keeps the vector well-formed, sound and dense, keeps capacity within the cap, and raises size by the number of values. |
| `VectorLemmas.PushAllContents` | vector.h:188-200 | After the pushes the old elements are unchanged and the pushed values follow them in order. |
| `VectorLemmas.PushedFromEmpty` | vector.h:188-200 | N pushes onto a new vector give size N, last index N-1 and capacity at least N. get(i) returns the i-th pushed value, and every other index, -1 and N included, is out of range. |
| `VectorLemmas.CopiesWithinThreeCapacities` | vector.h:188-200 | While pushes stay away from the cap, realloc copies at most three slots per slot of capacity in total, and capacity stays within 1.5 times size. |
| `VectorLemmas.PushedFromEmptyCopiesLinear` | vector.h:188-200 | N pushes onto a new vector copy at most 4.5 N slots in all. |

## Left out

- `vector_max_size` and the lazy caching of `VECTOR_MAX_SIZE` (vector.h:49, 132-133, 158-161) are left out. The value comes from floating-point `pow` and a cast that overflows `int`. The cap is an abstract `maxSize`, given to the constructor and fixed for the vector's life.
- `vector_alloc` and `vector_free`, and the raw `malloc`/`realloc`/`free` calls, are left out; there is no manual memory management to model. A NULL buffer is an empty array, and the unchecked allocation of the record in `vector_new` is not modelled.
- Integer widths: `size`, `capacity` and `lastIndex` are unbounded integers, so the 32-bit overflow of `int` arithmetic is not modelled. That covers `old_capacity + old_capacity / 2`, `index * element_size` and `new_capacity * element_size`.
- `DynamicArray.Vector.Reserve`: the bytes realloc adds beyond the old buffer are indeterminate in C. Here they all equal the allocator's `junk` byte. No stated property depends on them.
- `DynamicArray.Vector.Resize`: `newSize` is a `nat`, so a negative size passed to `vector_resize` or `vector_reserve` is not modelled. Likewise the element size given to `vector_new` (`DynamicArray.Vector.constructor`, `VectorSpec.New`) is a `nat`, so a negative `element_size` is not modelled.
- `VectorSpec.Set`: the source copies `element_size` bytes starting at the address of the pointer argument itself, and over-reads when the element is wider than a pointer. The model stores the element's bytes as given. `clear`'s NULL argument becomes `element_size` zero bytes.
- The `VECTOR_GET` reinterpret-cast macro (vector.h:93) is left out: it is unchecked type punning with nothing to verify. `get` returns the slot's bytes, not a pointer into the buffer, so aliasing and invalidation of references are not modelled.
- `VECTOR_PANIC` prints to stderr and aborts. Here it is an error outcome, and the diagnostic text is not modelled.
- `VectorSpec.Resize`: the source sets `size` and `capacity` before calling reserve. The function reserves the already-updated record, so the final state is the same.
- `VectorLemmas.PushAll`: every allocation in the run succeeds and supplies the same junk byte. A run with a refused allocation would abort the process.
- Undefined behaviour is excluded by preconditions, not modelled: a write outside the buffer (`InBuffer`, `PushSafe`, `PopSafe`, `ClearSafe`), and a pop on a vector whose element size is 0.
- example.c is a demonstration program using `rand`, `time` and `printf`. Its scenario of N pushes read back in order is `VectorLemmas.PushedFromEmpty`.
