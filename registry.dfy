/**
 * The item registry (ItemManager): a mutable map from item id to item
 * definition, the tag written into created stacks and read back from held
 * stacks, and the registrations done when the plugin is enabled.
 */
module Registry {
  import opened Common

  const MOLOTOV := ItemDef("molotov", Projectile, RedstoneTorch)
  const GRENADE := ItemDef("grenade", Projectile, Cobblestone)
  const TEARGAS := ItemDef("teargas", Projectile, GlassBottle)

  /** Looks an id up in a registry map; None stands for Java's null. */
  function Lookup(items: map<string, ItemDef>, id: string): (r: Option<ItemDef>)
    ensures r.Some? <==> id in items
    ensures r.Some? ==> r.value == items[id]
  {
    if id in items then Some(items[id]) else None
  }

  /**
   * getCustomItemId: the tag stored in the stack's meta, or None for a
   * missing stack, a stack without meta, or a meta without the tag.
   */
  function GetCustomItemId(stack: Option<Stack>): (r: Option<string>)
    ensures stack.None? ==> r.None?
    ensures stack.Some? && stack.value.meta.None? ==> r.None?
    ensures r.Some? ==> stack.Some? && stack.value.meta == Some(Meta(r))
    ensures stack.Some? && stack.value.meta.Some? ==> r == stack.value.meta.value.tag
  {
    match stack
    case None => None
    case Some(s) =>
      match s.meta
      case None => None
      case Some(m) => m.tag
  }

  /**
   * Writes the id into the stack's meta under the plugin's key (the meta is
   * created when the stack had none); nothing else about the stack changes.
   */
  function SetTag(s: Stack, id: string): (r: Stack)
    ensures r.material == s.material && r.amount == s.amount
    ensures GetCustomItemId(Some(r)) == Some(id)
  {
    s.(meta := Some(Meta(Some(id))))
  }

  /** The registry after registering the given items in order, starting from `items`. */
  function RegisterAll(items: map<string, ItemDef>, defs: seq<ItemDef>): map<string, ItemDef>
    decreases |defs|
  {
    if defs == [] then items else RegisterAll(items[defs[0].id := defs[0]], defs[1..])
  }

  /** The last item of `defs` whose id is `id`, if there is one. */
  function LastWithId(defs: seq<ItemDef>, id: string): (r: Option<ItemDef>)
    ensures r.Some? ==> r.value in defs && r.value.id == id
    ensures r.None? ==> forall d :: d in defs ==> d.id != id
    decreases |defs|
  {
    if defs == [] then None
    else if defs[|defs| - 1].id == id then Some(defs[|defs| - 1])
    else LastWithId(defs[..|defs| - 1], id)
  }

  lemma {:induction false} LastWithIdAppend(defs: seq<ItemDef>, d: ItemDef, id: string)
    ensures LastWithId([d] + defs, id) == if LastWithId(defs, id).Some? then LastWithId(defs, id)
                                         else if d.id == id then Some(d) else None
    decreases |defs|
  {
    if defs != [] {
      assert ([d] + defs)[..|defs|] == [d] + defs[..|defs| - 1];
      LastWithIdAppend(defs[..|defs| - 1], d, id);
    } else {
      assert ([d] + defs)[..0] == [];
    }
  }

  /**
   * A lookup after a series of registrations yields the last item registered
   * under that id; ids never registered keep what the registry held before.
   */
  lemma {:induction false} LookupFindsLastRegistration(items: map<string, ItemDef>, defs: seq<ItemDef>, id: string)
    ensures Lookup(RegisterAll(items, defs), id) ==
            if LastWithId(defs, id).Some? then LastWithId(defs, id) else Lookup(items, id)
    decreases |defs|
  {
    if defs != [] {
      LookupFindsLastRegistration(items[defs[0].id := defs[0]], defs[1..], id);
      assert [defs[0]] + defs[1..] == defs;
      LastWithIdAppend(defs[1..], defs[0], id);
    }
  }

  /** The registry the plugin's startup builds: the three items, each under its own id. */
  lemma StartupRegistry()
    ensures RegisterAll(map[], [MOLOTOV, GRENADE, TEARGAS])
            == map["molotov" := MOLOTOV, "grenade" := GRENADE, "teargas" := TEARGAS]
    ensures forall id :: id in RegisterAll(map[], [MOLOTOV, GRENADE, TEARGAS]) ==>
              RegisterAll(map[], [MOLOTOV, GRENADE, TEARGAS])[id].kind == Projectile
  {
    var m1 := map["molotov" := MOLOTOV];
    var m2 := m1["grenade" := GRENADE];
    var m3 := m2["teargas" := TEARGAS];
    assert [MOLOTOV, GRENADE, TEARGAS][1..] == [GRENADE, TEARGAS];
    assert [GRENADE, TEARGAS][1..] == [TEARGAS];
    assert RegisterAll(m3, []) == m3;
    assert RegisterAll(m2, [TEARGAS]) == m3;
    assert RegisterAll(m1, [GRENADE, TEARGAS]) == m3;
    assert RegisterAll(map[], [MOLOTOV, GRENADE, TEARGAS]) == m3;
  }

  class ItemManager {
    var registeredItems: map<string, ItemDef>

    /** Every entry is stored under its own item's id. */
    ghost predicate Valid()
      reads this
    {
      forall id :: id in registeredItems ==> registeredItems[id].id == id
    }

    constructor ()
      ensures Valid() && registeredItems == map[]
    {
      registeredItems := map[];
    }

    /** registerItem: stores the item under its id, overwriting an earlier registration. */
    method RegisterItem(item: ItemDef)
      requires Valid()
      modifies this
      ensures Valid()
      ensures registeredItems == old(registeredItems)[item.id := item]
      ensures registeredItems == RegisterAll(old(registeredItems), [item])
    {
      registeredItems := registeredItems[item.id := item];
    }

    /** getItemById: the item registered under the id, or None (null). */
    function GetItemById(id: string): (r: Option<ItemDef>)
      reads this
      requires Valid()
      ensures r.Some? <==> id in GetRegisteredIds()
      ensures r.Some? ==> r.value.id == id
      ensures r.Some? ==> r.value == registeredItems[id]
    {
      Lookup(registeredItems, id)
    }

    /** getRegisteredIds: the key set of the registry. */
    function GetRegisteredIds(): (ids: set<string>)
      reads this
      ensures forall id :: id in ids <==> id in registeredItems
    {
      registeredItems.Keys
    }

    /**
     * createItemStack: None for an unregistered id; otherwise the item's own
     * stack of the requested amount, tagged with the id so that reading the
     * tag back yields the id.
     */
    function CreateItemStack(id: string, amount: int): (r: Option<Stack>)
      reads this
      requires Valid()
      ensures r.None? <==> id !in GetRegisteredIds()
      ensures r.Some? ==> r.value.amount == amount
      ensures r.Some? ==> r.value.material == registeredItems[id].material
      ensures r.Some? ==> GetCustomItemId(r) == Some(id)
      ensures r.Some? ==> Lookup(registeredItems, GetCustomItemId(r).value) == Some(registeredItems[id])
    {
      match GetItemById(id)
      case None => None
      case Some(item) => Some(SetTag(GetItem(item, amount), id))
    }
  }

  /**
   * The plugin's startup registrations: molotov, grenade and tear gas, all
   * projectile items, are then exactly the registered ids.
   */
  method RegisterCustomItems() returns (manager: ItemManager)
    ensures fresh(manager) && manager.Valid()
    ensures manager.GetRegisteredIds() == {"molotov", "grenade", "teargas"}
    ensures forall id :: id in manager.registeredItems ==> manager.registeredItems[id].kind == Projectile
    ensures manager.registeredItems == RegisterAll(map[], [MOLOTOV, GRENADE, TEARGAS])
  {
    manager := new ItemManager();
    manager.RegisterItem(MOLOTOV);
    manager.RegisterItem(GRENADE);
    manager.RegisterItem(TEARGAS);
    assert manager.registeredItems.Keys == {"molotov", "grenade", "teargas"};
  }
}
