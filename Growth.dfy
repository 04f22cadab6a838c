/** The capacity growth rule of vector.h (`vector_calculate_growth`). */
module Growth {

  /**
   * The capacity to reserve when a vector of capacity `oldCapacity` must hold
   * `newSize` elements: 1.5 times the old capacity, at least `newSize`, and
   * `maxSize` once the old capacity is within half of `maxSize`.
   */
  function CalculateGrowth(oldCapacity: nat, newSize: nat, maxSize: nat): (r: nat)
    // Within the cap, the result fits the request and stays within the cap.
    ensures newSize <= maxSize ==> newSize <= r <= maxSize
    // Capacity never falls, unless it already exceeded the cap.
    ensures oldCapacity <= maxSize ==> oldCapacity <= r
    // Away from the cap the growth is geometric: at least 1.5 times, rounded down.
    ensures oldCapacity + oldCapacity / 2 <= maxSize ==>
              r >= newSize && 2 * r >= 3 * oldCapacity - 1
    // ... and no more than that: the request itself, or 1.5 times the old capacity.
    ensures oldCapacity + oldCapacity / 2 <= maxSize ==>
              r == newSize || 2 * r <= 3 * oldCapacity
    // Near the cap the cap itself is returned.
    ensures oldCapacity + oldCapacity / 2 > maxSize ==> r == maxSize
  {
    if oldCapacity > maxSize - oldCapacity / 2 then
      maxSize
    else
      var geometric := oldCapacity + oldCapacity / 2;
      if geometric < newSize then newSize else geometric
  }

  /** Two sample values of the rule: from 0 a request for 1 gives 1, from 4 a request for 5 gives 6. */
  lemma GrowthExamples(maxSize: nat)
    requires maxSize >= 6
    ensures CalculateGrowth(0, 1, maxSize) == 1
    ensures CalculateGrowth(4, 5, maxSize) == 6
  {
  }

  /**
   * A push onto a full vector gets room for one more element exactly when the
   * full capacity is below the cap (or the cap is the degenerate 1).
   */
  lemma GrowthMakesRoom(capacity: nat, maxSize: nat)
    requires maxSize >= 2
    ensures CalculateGrowth(capacity, capacity + 1, maxSize) > capacity <==> capacity < maxSize
  {
  }
}
