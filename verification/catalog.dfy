/** `GameData.items` of novaCoin.js: the static, never persisted catalog of
    one-time shop items. Each item's `effect` closure becomes a descriptor;
    nothing in the game ever invokes the closures, so the model does not
    evaluate the descriptors either. */
module Catalog {

  datatype ItemId =
    | GoldenClicks
    | GoldenMiner
    | DiamondClicks
    | DiamondMiner
    | ComboClicks
    | LightningMiner

  /** What an item's `effect` closure does to the save. */
  datatype Effect =
    | ScaleClicks(clickFactor: nat)                      // clicksMultiplier *= f
    | ScaleMiner(minerFactor: nat)                       // autoMinerMultiplier *= f
    | ScaleBoth(clickFactor: nat, minerFactor: nat)      // both of the above
    | HalveMinerSpeed                                    // entities.autoMiner.speed *= 0.5

  datatype ItemDef = ItemDef(
    displayName: string,
    price: nat,
    requirement: nat,
    description: string,
    effect: Effect)

  /** The catalog in definition order, which is the order the shop lists it in. */
  const Order: seq<ItemId> :=
    [GoldenClicks, GoldenMiner, DiamondClicks, DiamondMiner, ComboClicks, LightningMiner]

  /** Position of an item in `Order`. */
  function Index(id: ItemId): (i: nat)
    ensures i < |Order| && Order[i] == id
  {
    match id
    case GoldenClicks => 0
    case GoldenMiner => 1
    case DiamondClicks => 2
    case DiamondMiner => 3
    case ComboClicks => 4
    case LightningMiner => 5
  }

  /** The item's key in `GameData.items` and in the save's `items`. */
  function Key(id: ItemId): string {
    match id
    case GoldenClicks => "goldenClicks"
    case GoldenMiner => "goldenMiner"
    case DiamondClicks => "diamondClicks"
    case DiamondMiner => "diamondMiner"
    case ComboClicks => "comboClicks"
    case LightningMiner => "lightningMiner"
  }

  /** The coins an item costs. */
  function Price(id: ItemId): nat {
    match id
    case GoldenClicks => 7800
    case GoldenMiner => 11450
    case DiamondClicks => 52300
    case DiamondMiner => 63500
    case ComboClicks => 354300
    case LightningMiner => 512700
  }

  /** The `totalMined` an item waits for before the shop offers it. */
  function Requirement(id: ItemId): nat {
    match id
    case GoldenClicks => 1000
    case GoldenMiner => 1000
    case DiamondClicks => 50000
    case DiamondMiner => 50000
    case ComboClicks => 200000
    case LightningMiner => 300000
  }

  /** The full catalog entry `GameData.items[Key(id)]`. */
  function Def(id: ItemId): ItemDef {
    match id
    case GoldenClicks =>
      ItemDef("Golden Clicks", Price(id), Requirement(id), "Doubles click income", ScaleClicks(2))
    case GoldenMiner =>
      ItemDef("Golden Miner", Price(id), Requirement(id), "Doubles miner income", ScaleMiner(2))
    case DiamondClicks =>
      ItemDef("Diamond Clicks", Price(id), Requirement(id), "Massively boosts click income", ScaleClicks(5))
    case DiamondMiner =>
      ItemDef("Diamond Miner", Price(id), Requirement(id), "Massively boosts miner income", ScaleMiner(5))
    case ComboClicks =>
      ItemDef("Combo Clicks", Price(id), Requirement(id), "Clicking boosts miners too", ScaleBoth(3, 2))
    case LightningMiner =>
      ItemDef("Lightning Miner", Price(id), Requirement(id), "Super fast mining", HalveMinerSpeed)
  }

  /** The save key of an item names it uniquely, and `Order` lists every item once. */
  lemma CatalogWellFormed()
    ensures forall a: ItemId, b: ItemId :: Key(a) == Key(b) ==> a == b
    ensures forall i, j :: 0 <= i < j < |Order| ==> Order[i] != Order[j]
    ensures forall id: ItemId :: id in Order
  {
    forall a: ItemId, b: ItemId | Key(a) == Key(b)
      ensures a == b
    {
      assert Key(a)[..3] == Key(b)[..3];
      assert Key(a)[|Key(a)| - 1] == Key(b)[|Key(b)| - 1];
    }
    forall id: ItemId ensures id in Order {
      assert Order[Index(id)] == id;
    }
  }
}
