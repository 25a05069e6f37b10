/**
 * A player's inventory, seen only as the number of units held of each kind
 * of stack (stacks that are "similar": same material and meta). Slots,
 * maximum stack sizes and a full inventory are not represented.
 */
module Inventory {
  import opened Common

  class PlayerInventory {
    var counts: map<StackKind, nat>

    function Count(k: StackKind): nat
      reads this
    {
      if k in counts then counts[k] else 0
    }

    constructor ()
      ensures forall k :: Count(k) == 0
    {
      counts := map[];
    }

    /** addItem: the units of the stack join those of its kind; a stack of no units adds nothing. */
    method AddItem(s: Stack)
      modifies this
      ensures Count(KindOf(s)) == old(Count(KindOf(s))) + (if s.amount > 0 then s.amount else 0)
      ensures forall k :: k != KindOf(s) ==> Count(k) == old(Count(k))
    {
      if s.amount > 0 {
        counts := counts[KindOf(s) := Count(KindOf(s)) + s.amount];
      }
    }

    /** removeItem of a one-unit copy: one unit of that kind goes, if there is one. */
    method RemoveOne(k: StackKind)
      modifies this
      ensures Count(k) == if old(Count(k)) > 0 then old(Count(k)) - 1 else 0
      ensures forall k' :: k' != k ==> Count(k') == old(Count(k'))
    {
      if Count(k) > 0 {
        counts := counts[k := Count(k) - 1];
      }
    }
  }
}
