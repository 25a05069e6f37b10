/**
 * Value types shared by the ItemsBGS model: optional values, materials,
 * item stacks with their persistent tag, item definitions, world positions
 * and locations, and the few string operations the plugin relies on.
 */
module Common {

  datatype Option<+T> = None | Some(value: T)

  /**
   * The materials the plugin looks at, both as item types and as block
   * types; every other material is one of the two Other kinds.
   */
  datatype Material = Air | CaveAir | Fire | Water | Cobblestone | RedstoneTorch | GlassBottle
                    | SplashPotion | OtherSolid | OtherNonSolid

  /** Material.isSolid(). */
  predicate IsSolid(m: Material)
  {
    m == Cobblestone || m == OtherSolid
  }

  /**
   * The part of an item's meta data the plugin reads and writes: the string
   * stored in the persistent data container under the plugin's
   * "custom_item_id" key, if any. Display name and lore are cosmetic.
   */
  datatype Meta = Meta(tag: Option<string>)

  /** An inventory stack; `meta` is None when the stack carries no item meta. */
  datatype Stack = Stack(material: Material, amount: int, meta: Option<Meta>)

  /** Two stacks are "similar" (in the engine's sense) when they agree on everything but the amount. */
  datatype StackKind = StackKind(material: Material, meta: Option<Meta>)

  function KindOf(s: Stack): StackKind
  {
    StackKind(s.material, s.meta)
  }

  /** How the item listener activates an item: directly, or by target calculation and throw. */
  datatype ActivationKind = Utility | Projectile

  /**
   * A registered custom item: its id (getId), its activation kind (whether
   * the class implements the projectile interface) and the material of the
   * stacks its getItem builds.
   */
  datatype ItemDef = ItemDef(id: string, kind: ActivationKind, material: Material)

  /**
   * The item's getItem(amount): a stack of the item's material and the given
   * amount, carrying cosmetic meta but no tag yet.
   */
  function GetItem(d: ItemDef, amount: int): (s: Stack)
    ensures s.amount == amount && s.material == d.material
    ensures s.meta == Some(Meta(None))
  {
    Stack(d.material, amount, Some(Meta(None)))
  }

  /** A block position in the world. */
  datatype Pos = Pos(x: int, y: int, z: int)

  /** An exact location in the world. */
  datatype Location = Location(x: real, y: real, z: real)

  predicate StartsWith(s: string, prefix: string)
  {
    |prefix| <= |s| && s[..|prefix|] == prefix
  }

  /** Lower-casing of one character, restricted to ASCII letters. */
  function LowerChar(c: char): char
  {
    if 'A' <= c <= 'Z' then (c as int - 'A' as int + 'a' as int) as char else c
  }

  predicate IsLowerCase(s: string)
  {
    forall i :: 0 <= i < |s| ==> !('A' <= s[i] <= 'Z')
  }

  /** String.toLowerCase, restricted to ASCII letters. */
  function ToLower(s: string): (r: string)
    ensures |r| == |s|
    ensures forall i :: 0 <= i < |s| ==> r[i] == LowerChar(s[i])
    ensures IsLowerCase(r)
    ensures IsLowerCase(s) ==> r == s
  {
    if s == [] then [] else [LowerChar(s[0])] + ToLower(s[1..])
  }
}
