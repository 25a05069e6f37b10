/**
 * The activation gateway (ItemListener.onPlayerInteract): the guard chain
 * that decides whether a click is a custom item's, the claim of the event,
 * and the two activation protocols (throw after target validation and
 * consumption of one unit, or direct activation).
 */
module Listener {
  import opened Common
  import opened Registry
  import opened Inventory

  datatype Action = LeftClickAir | LeftClickBlock | RightClickAir | RightClickBlock | Physical

  /** What the listener sets in motion, past the event's cancellation. */
  datatype Effect =
    | NoEffect                                  // the click is not a custom item's
    | NoTargetMessage                           // "no valid target" sent to the player
    | Thrown(item: ItemDef, target: Location)   // onThrow(player, target)
    | Activated(item: ItemDef)                  // onActivate(player)

  /** The listener's decisions: claim the event, the effect, and whether one unit is consumed. */
  datatype Decision = Decision(claimed: bool, effect: Effect, consumeOne: bool)

  const PASS_THROUGH := Decision(false, NoEffect, false)

  predicate IsRightClick(a: Action)
  {
    a == RightClickAir || a == RightClickBlock
  }

  /**
   * The item a click resolves to: right-click, a held non-air stack, a tag,
   * and a registered id; None when any of these fails.
   */
  function Resolve(action: Action, held: Option<Stack>, items: map<string, ItemDef>): (r: Option<ItemDef>)
    ensures r.Some? <==> IsRightClick(action) && held.Some? && held.value.material != Air
                         && GetCustomItemId(held).Some? && GetCustomItemId(held).value in items
    ensures r.Some? ==> r.value == items[GetCustomItemId(held).value]
  {
    if !IsRightClick(action) then None
    else if held.None? || held.value.material == Air then None
    else
      match GetCustomItemId(held)
      case None => None
      case Some(id) => Lookup(items, id)
  }

  /**
   * onPlayerInteract's decisions. `target` is what the item's
   * getActivationLocation gives for the player; only projectile items ask.
   */
  function Decide(action: Action, held: Option<Stack>, items: map<string, ItemDef>, target: Option<Location>): (d: Decision)
    ensures d.claimed <==> Resolve(action, held, items).Some?
    ensures !d.claimed ==> d == PASS_THROUGH
    ensures d.consumeOne <==> d.effect.Thrown?
    ensures d.effect.Thrown? ==> d.effect.item.kind == Projectile && target == Some(d.effect.target)
                                 && Resolve(action, held, items) == Some(d.effect.item)
    ensures d.effect.NoTargetMessage? <==> d.claimed && Resolve(action, held, items).value.kind == Projectile && target.None?
    ensures d.effect.Activated? ==> d.effect.item.kind == Utility && Resolve(action, held, items) == Some(d.effect.item)
    ensures d.claimed ==> (d.effect.Activated? <==> Resolve(action, held, items).value.kind == Utility)
    ensures d.claimed && Resolve(action, held, items).value.kind == Projectile && target.Some? ==>
              d == Decision(true, Thrown(Resolve(action, held, items).value, target.value), true)
    ensures d.claimed && Resolve(action, held, items).value.kind == Utility ==>
              d == Decision(true, Activated(Resolve(action, held, items).value), false)
  {
    match Resolve(action, held, items)
    case None => PASS_THROUGH
    case Some(item) =>
      match item.kind
      case Projectile =>
        (match target
         case None => Decision(true, NoTargetMessage, false)
         case Some(loc) => Decision(true, Thrown(item, loc), true))
      case Utility => Decision(true, Activated(item), false)
  }

  /** A projectile item never reaches its (empty) onActivate through the listener. */
  lemma ProjectileNeverActivated(action: Action, held: Option<Stack>, items: map<string, ItemDef>, target: Option<Location>)
    requires Resolve(action, held, items).Some? && Resolve(action, held, items).value.kind == Projectile
    ensures !Decide(action, held, items, target).effect.Activated?
    ensures Decide(action, held, items, target).claimed
  {
  }

  /** With the startup registry every custom item is a projectile: no click leads to onActivate. */
  lemma StartupItemsAreThrown(action: Action, held: Option<Stack>, target: Option<Location>)
    ensures !Decide(action, held, RegisterAll(map[], [MOLOTOV, GRENADE, TEARGAS]), target).effect.Activated?
  {
    StartupRegistry();
  }

  /** The click event; only its cancellation flag changes. */
  class InteractEvent {
    const action: Action
    const item: Option<Stack>
    var cancelled: bool

    constructor (action: Action, item: Option<Stack>)
      ensures this.action == action && this.item == item && !cancelled
    {
      this.action := action;
      this.item := item;
      cancelled := false;
    }
  }

  class ItemListener {
    const itemManager: ItemManager

    constructor (itemManager: ItemManager)
      ensures this.itemManager == itemManager
    {
      this.itemManager := itemManager;
    }

    /**
     * onPlayerInteract: cancels the event when the click resolves to a
     * registered item, consumes one unit of the held stack's kind exactly
     * when the item is thrown, and returns what it set in motion.
     */
    method OnPlayerInteract(event: InteractEvent, inventory: PlayerInventory, target: Option<Location>)
      returns (effect: Effect)
      modifies event, inventory
      ensures var d := Decide(event.action, event.item, itemManager.registeredItems, target);
              && effect == d.effect
              && event.cancelled == (old(event.cancelled) || d.claimed)
              && (d.consumeOne ==> inventory.Count(KindOf(event.item.value)) ==
                                     if old(inventory.Count(KindOf(event.item.value))) > 0
                                     then old(inventory.Count(KindOf(event.item.value))) - 1 else 0)
              && (forall k :: (!d.consumeOne || k != KindOf(event.item.value)) ==> inventory.Count(k) == old(inventory.Count(k)))
    {
      if !IsRightClick(event.action) {
        return NoEffect;
      }
      var heldItem := event.item;
      if heldItem.None? || heldItem.value.material == Air {
        return NoEffect;
      }
      var customItemId := GetCustomItemId(heldItem);
      if customItemId.None? {
        return NoEffect;
      }
      var customItem := Lookup(itemManager.registeredItems, customItemId.value);
      if customItem.None? {
        return NoEffect;
      }
      event.cancelled := true;
      if customItem.value.kind == Projectile {
        if target.None? {
          return NoTargetMessage;
        }
        inventory.RemoveOne(KindOf(heldItem.value));
        effect := Thrown(customItem.value, target.value);
      } else {
        effect := Activated(customItem.value);
      }
    }
  }
}
