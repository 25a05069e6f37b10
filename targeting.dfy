/**
 * The shared targeting of projectile items (AbstractTargetingItem): a
 * ray-trace up to the item's current range field, which every call then
 * resets to the default of 50 blocks, and the centre of the block found.
 */
module Targeting {
  import opened Common

  const DEFAULT_RANGE: int := 50

  /**
   * The location handed back for a targeted block: the block's corner
   * location moved by half a block on every axis, so that it lies inside
   * that block; no block gives no location.
   */
  function CenterOf(block: Option<Pos>): (r: Option<Location>)
    ensures r.None? <==> block.None?
    ensures r.Some? ==> r.value.x.Floor == block.value.x && r.value.y.Floor == block.value.y
                        && r.value.z.Floor == block.value.z
    ensures r.Some? ==> r.value.x - block.value.x as real == 1.0 / 2.0
                        && r.value.y - block.value.y as real == 1.0 / 2.0
                        && r.value.z - block.value.z as real == 1.0 / 2.0
  {
    match block
    case None => None
    case Some(b) => Some(Location(b.x as real + 0.5, b.y as real + 0.5, b.z as real + 0.5))
  }

  class TargetingItem {
    var defaultRange: int

    /** The no-argument constructor: the default range of 50 blocks. */
    constructor ()
      ensures defaultRange == DEFAULT_RANGE
    {
      defaultRange := DEFAULT_RANGE;
    }

    /** The constructor with an explicit range. */
    constructor WithRange(range: int)
      ensures defaultRange == range
    {
      defaultRange := range;
    }

    /**
     * getActivationLocation. `targetBlock` is the engine's ray-trace for the
     * player: the block found within a given maximum distance, if any. It is
     * queried with the range field as it was on entry; the field is then set
     * back to 50 whatever it held.
     */
    method GetActivationLocation(targetBlock: int -> Option<Pos>) returns (loc: Option<Location>)
      modifies this
      ensures defaultRange == DEFAULT_RANGE
      ensures loc == CenterOf(targetBlock(old(defaultRange)))
    {
      var block := targetBlock(defaultRange);
      defaultRange := DEFAULT_RANGE;
      loc := CenterOf(block);
    }
  }

  /**
   * A custom range reaches only the first targeting call: the second call
   * on the same item queries the ray-trace with 50.
   */
  method CustomRangeAppliesOnce(range: int, targetBlock: int -> Option<Pos>)
    returns (first: Option<Location>, second: Option<Location>)
    ensures first == CenterOf(targetBlock(range))
    ensures second == CenterOf(targetBlock(DEFAULT_RANGE))
  {
    var item := new TargetingItem.WithRange(range);
    first := item.GetActivationLocation(targetBlock);
    second := item.GetActivationLocation(targetBlock);
  }
}
