/** The game state of novaCoin.js (the shape of `defaultSave`) and the step
    functions that mutate it: a coin click, the two upgrades, one tick of the
    auto-miner interval and the shop's availability pass. Rendering, sound and
    the debounced save they also trigger belong to the `Session` module. */
module Economy {
  import opened Catalog

  datatype GameStats = GameStats(
    novaCoinsBalance: int,
    coinsPerClick: int,
    totalMined: int,
    totalClicks: int,
    clicksMultiplier: int,
    autoMinerMultiplier: int)

  datatype Upgrade = Upgrade(cost: int, level: int)

  datatype Upgrades = Upgrades(clickBoost: Upgrade, autoMiner: Upgrade)

  datatype Miner = Miner(amount: int, speed: int)

  datatype Entities = Entities(autoMiner: Miner)

  /** `available` is absent from the defaults; absent reads as false. */
  datatype ItemState = ItemState(bought: bool, available: bool)

  datatype Items = Items(
    goldenClicks: ItemState,
    goldenMiner: ItemState,
    diamondClicks: ItemState,
    diamondMiner: ItemState,
    comboClicks: ItemState,
    lightningMiner: ItemState)
  {
    /** `items[Key(id)]` */
    function Get(id: ItemId): ItemState {
      match id
      case GoldenClicks => goldenClicks
      case GoldenMiner => goldenMiner
      case DiamondClicks => diamondClicks
      case DiamondMiner => diamondMiner
      case ComboClicks => comboClicks
      case LightningMiner => lightningMiner
    }
  }

  datatype Game = Game(
    version: int,
    gameStats: GameStats,
    upgrades: Upgrades,
    entities: Entities,
    items: Items)

  const NotBought := ItemState(false, false)

  /** `defaultSave` */
  const Defaults: Game := Game(
    1,
    GameStats(0, 1, 0, 0, 1, 1),
    Upgrades(Upgrade(50, 0), Upgrade(100, 0)),
    Entities(Miner(0, 1000)),
    Items(NotBought, NotBought, NotBought, NotBought, NotBought, NotBought))

  /** `Math.floor(cost * 1.32)`, computed exactly: the result is the floor of
      cost * 132 / 100 for every integer cost. */
  function NextCost(cost: int): (r: int)
    ensures r * 100 <= cost * 132 < (r + 1) * 100
  {
    (cost * 132) / 100
  }

  /** From 4 on the curve strictly grows; below it, it stalls. */
  lemma NextCostGrows(cost: int)
    ensures cost >= 4 ==> NextCost(cost) > cost
    ensures 0 <= cost <= 3 ==> NextCost(cost) == cost
  {
    if cost >= 4 {
      assert cost * 132 >= cost * 100 + 128;
    }
  }

  /** `mineCoins`: one click earns `coinsPerClick`. */
  function MineCoins(g: Game): (r: Game)
    ensures r.gameStats.novaCoinsBalance == g.gameStats.novaCoinsBalance + g.gameStats.coinsPerClick
    ensures r.gameStats.totalMined == g.gameStats.totalMined + g.gameStats.coinsPerClick
    ensures r.gameStats.totalClicks == g.gameStats.totalClicks + 1
    ensures r.gameStats.coinsPerClick == g.gameStats.coinsPerClick
    ensures r.gameStats.clicksMultiplier == g.gameStats.clicksMultiplier
    ensures r.gameStats.autoMinerMultiplier == g.gameStats.autoMinerMultiplier
    ensures r.version == g.version && r.upgrades == g.upgrades && r.entities == g.entities && r.items == g.items
  {
    var s := g.gameStats;
    g.(gameStats := s.(novaCoinsBalance := s.novaCoinsBalance + s.coinsPerClick,
                       totalMined := s.totalMined + s.coinsPerClick,
                       totalClicks := s.totalClicks + 1))
  }

  /** `clickUpgrade`: buys one level of the click boost if the balance covers
      its cost, and is a no-op otherwise. */
  function ClickUpgrade(g: Game): (r: Game)
    ensures g.gameStats.novaCoinsBalance < g.upgrades.clickBoost.cost ==> r == g
    ensures g.gameStats.novaCoinsBalance >= g.upgrades.clickBoost.cost ==>
      var cost := g.upgrades.clickBoost.cost;
      && r.gameStats == g.gameStats.(novaCoinsBalance := g.gameStats.novaCoinsBalance - cost,
                                     coinsPerClick := g.gameStats.coinsPerClick + g.gameStats.clicksMultiplier)
      && r.upgrades.clickBoost == Upgrade(NextCost(cost), g.upgrades.clickBoost.level + 1)
      && r.upgrades.autoMiner == g.upgrades.autoMiner
      && r.version == g.version && r.entities == g.entities && r.items == g.items
  {
    var s := g.gameStats;
    var u := g.upgrades.clickBoost;
    if s.novaCoinsBalance >= u.cost then
      g.(gameStats := s.(novaCoinsBalance := s.novaCoinsBalance - u.cost,
                         coinsPerClick := s.coinsPerClick + s.clicksMultiplier),
         upgrades := g.upgrades.(clickBoost := Upgrade(NextCost(u.cost), u.level + 1)))
    else
      g
  }

  /** The game-state half of `autoMinerUpgrade`: buys one auto-miner if the
      balance covers its cost, and is a no-op otherwise. The scheduler re-arm
      that follows a purchase is `Session`'s. */
  function AutoMinerUpgrade(g: Game): (r: Game)
    ensures g.gameStats.novaCoinsBalance < g.upgrades.autoMiner.cost ==> r == g
    ensures g.gameStats.novaCoinsBalance >= g.upgrades.autoMiner.cost ==>
      var cost := g.upgrades.autoMiner.cost;
      && r.gameStats == g.gameStats.(novaCoinsBalance := g.gameStats.novaCoinsBalance - cost)
      && r.upgrades.autoMiner == Upgrade(NextCost(cost), g.upgrades.autoMiner.level + 1)
      && r.entities.autoMiner == g.entities.autoMiner.(amount := g.entities.autoMiner.amount + 1)
      && r.upgrades.clickBoost == g.upgrades.clickBoost
      && r.version == g.version && r.items == g.items
  {
    var s := g.gameStats;
    var u := g.upgrades.autoMiner;
    var m := g.entities.autoMiner;
    if s.novaCoinsBalance >= u.cost then
      g.(gameStats := s.(novaCoinsBalance := s.novaCoinsBalance - u.cost),
         entities := Entities(m.(amount := m.amount + 1)),
         upgrades := g.upgrades.(autoMiner := Upgrade(NextCost(u.cost), u.level + 1)))
    else
      g
  }

  /** The body of the auto-miner interval: it reads `amount` when it fires
      and ignores `autoMinerMultiplier`. */
  function MinerTick(g: Game): (r: Game)
    ensures r.gameStats == g.gameStats.(novaCoinsBalance := g.gameStats.novaCoinsBalance + g.entities.autoMiner.amount,
                                        totalMined := g.gameStats.totalMined + g.entities.autoMiner.amount)
    ensures r.version == g.version && r.upgrades == g.upgrades && r.entities == g.entities && r.items == g.items
  {
    var s := g.gameStats;
    var coinsPerTick := g.entities.autoMiner.amount;
    g.(gameStats := s.(novaCoinsBalance := s.novaCoinsBalance + coinsPerTick,
                       totalMined := s.totalMined + coinsPerTick))
  }

  /** One item's share of `checkItemsAvailability`. */
  function MarkAvailable(s: ItemState, id: ItemId, totalMined: int): (r: ItemState)
    ensures r.bought == s.bought
    ensures r.available <==> s.available || totalMined >= Requirement(id)
  {
    if !s.available && totalMined >= Requirement(id) then s.(available := true) else s
  }

  /** `MarkAvailable` applied to every item of the save. */
  function MarkAll(i: Items, totalMined: int): Items {
    Items(
      MarkAvailable(i.goldenClicks, GoldenClicks, totalMined),
      MarkAvailable(i.goldenMiner, GoldenMiner, totalMined),
      MarkAvailable(i.diamondClicks, DiamondClicks, totalMined),
      MarkAvailable(i.diamondMiner, DiamondMiner, totalMined),
      MarkAvailable(i.comboClicks, ComboClicks, totalMined),
      MarkAvailable(i.lightningMiner, LightningMiner, totalMined))
  }

  lemma MarkAllGet(i: Items, totalMined: int)
    ensures forall id: ItemId :: MarkAll(i, totalMined).Get(id) == MarkAvailable(i.Get(id), id, totalMined)
  {
    forall id: ItemId
      ensures MarkAll(i, totalMined).Get(id) == MarkAvailable(i.Get(id), id, totalMined)
    {
      match id
      case GoldenClicks =>
      case GoldenMiner =>
      case DiamondClicks =>
      case DiamondMiner =>
      case ComboClicks =>
      case LightningMiner =>
    }
  }

  /** `checkItemsAvailability`: flags every item whose requirement
      `totalMined` has reached. It never clears a flag and touches nothing
      but the flags. */
  function CheckItemsAvailability(g: Game): (r: Game)
    ensures forall id: ItemId :: r.items.Get(id).bought == g.items.Get(id).bought
    ensures forall id: ItemId :: r.items.Get(id).available <==>
                                 (g.items.Get(id).available || g.gameStats.totalMined >= Requirement(id))
    ensures r.version == g.version && r.gameStats == g.gameStats && r.upgrades == g.upgrades && r.entities == g.entities
  {
    MarkAllGet(g.items, g.gameStats.totalMined);
    g.(items := MarkAll(g.items, g.gameStats.totalMined))
  }

  /** Running the availability pass twice is the same as running it once. */
  lemma CheckItemsAvailabilityIdempotent(g: Game)
    ensures CheckItemsAvailability(CheckItemsAvailability(g)) == CheckItemsAvailability(g)
  {
  }
}
