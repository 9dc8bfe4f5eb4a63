/** Arbitrary sequences of the four economy actions of novaCoin.js (a coin
    click, the two upgrade buttons and an auto-miner tick) and the invariants
    they keep when started from `defaultSave`. The money actually spent is
    recovered twice: from the actions of a run (`SpentOn`) and from the
    upgrade levels of the state alone (`PaidUpTo`), and the two agree. */
module Ledger {
  import opened Economy

  datatype Action = Click | BuyClickBoost | BuyAutoMiner | Tick

  function Apply(g: Game, a: Action): Game {
    match a
    case Click => MineCoins(g)
    case BuyClickBoost => ClickUpgrade(g)
    case BuyAutoMiner => AutoMinerUpgrade(g)
    case Tick => MinerTick(g)
  }

  function Run(g: Game, actions: seq<Action>): Game
    decreases |actions|
  {
    if actions == [] then g else Run(Apply(g, actions[0]), actions[1..])
  }

  /** What action `a` takes out of the balance of `g`: the cost of a purchase
      the balance covers, nothing otherwise. */
  function Charge(g: Game, a: Action): (p: int)
    ensures p != 0 ==> a in {BuyClickBoost, BuyAutoMiner} && p <= g.gameStats.novaCoinsBalance
  {
    match a
    case BuyClickBoost =>
      if g.gameStats.novaCoinsBalance >= g.upgrades.clickBoost.cost then g.upgrades.clickBoost.cost else 0
    case BuyAutoMiner =>
      if g.gameStats.novaCoinsBalance >= g.upgrades.autoMiner.cost then g.upgrades.autoMiner.cost else 0
    case _ => 0
  }

  /** The sum of the prices of all successful purchases of a run. */
  function SpentOn(g: Game, actions: seq<Action>): int
    decreases |actions|
  {
    if actions == [] then 0 else Charge(g, actions[0]) + SpentOn(Apply(g, actions[0]), actions[1..])
  }

  /** For any start state whatsoever, every coin that entered `totalMined`
      during a run is either still in the balance or was spent on an upgrade. */
  lemma {:induction false} RunLedger(g: Game, actions: seq<Action>)
    ensures Run(g, actions).gameStats.novaCoinsBalance + SpentOn(g, actions)
            == g.gameStats.novaCoinsBalance + Run(g, actions).gameStats.totalMined - g.gameStats.totalMined
    decreases |actions|
  {
    if actions != [] {
      RunLedger(Apply(g, actions[0]), actions[1..]);
    }
  }

  /** The cost of an upgrade after `n` purchases, starting from `base`. */
  function CostAt(base: int, n: nat): int
    decreases n
  {
    if n == 0 then base else NextCost(CostAt(base, n - 1))
  }

  /** The total paid for the first `n` purchases of an upgrade. */
  function PaidUpTo(base: int, n: nat): int
    decreases n
  {
    if n == 0 then 0 else PaidUpTo(base, n - 1) + CostAt(base, n - 1)
  }

  /** Upgrade costs stay at least their starting cost and strictly increase
      with every purchase. */
  lemma {:induction false} CostCurveIncreasing(base: int, m: nat, n: nat)
    requires base >= 4
    requires m < n
    ensures base <= CostAt(base, m) < CostAt(base, n)
    decreases n
  {
    CostAtLeastBase(base, n - 1);
    NextCostGrows(CostAt(base, n - 1));
    if m < n - 1 {
      CostCurveIncreasing(base, m, n - 1);
    }
  }

  lemma {:induction false} CostAtLeastBase(base: int, n: nat)
    requires base >= 4
    ensures CostAt(base, n) >= base
    decreases n
  {
    if n > 0 {
      CostAtLeastBase(base, n - 1);
      NextCostGrows(CostAt(base, n - 1));
    }
  }

  const ClickBoostBase := 50
  const AutoMinerBase := 100

  /** What holds of every game reachable from `defaultSave` by clicks,
      upgrades and ticks. */
  predicate Inv(g: Game) {
    var s := g.gameStats;
    var cb := g.upgrades.clickBoost;
    var am := g.upgrades.autoMiner;
    && g.version == 1
    && s.novaCoinsBalance >= 0
    && s.totalClicks >= 0
    && cb.level >= 0 && am.level >= 0
    && cb.cost == CostAt(ClickBoostBase, cb.level)
    && am.cost == CostAt(AutoMinerBase, am.level)
    && s.novaCoinsBalance + PaidUpTo(ClickBoostBase, cb.level) + PaidUpTo(AutoMinerBase, am.level) == s.totalMined
    && s.clicksMultiplier == 1 && s.autoMinerMultiplier == 1
    && s.coinsPerClick == 1 + cb.level
    && g.entities.autoMiner.amount == am.level
    && g.entities.autoMiner.speed == 1000
  }

  lemma DefaultsInv()
    ensures Inv(Defaults)
  {
  }

  /** One action keeps the invariant; `totalMined`, `totalClicks` and both
      costs never decrease, and a purchase strictly raises its own cost. */
  lemma StepKeepsInv(g: Game, a: Action)
    requires Inv(g)
    ensures Inv(Apply(g, a))
    ensures Apply(g, a).gameStats.totalMined >= g.gameStats.totalMined
    ensures Apply(g, a).gameStats.totalClicks >= g.gameStats.totalClicks
    ensures Apply(g, a).upgrades.clickBoost.cost >= g.upgrades.clickBoost.cost > 0
    ensures Apply(g, a).upgrades.autoMiner.cost >= g.upgrades.autoMiner.cost > 0
    ensures Charge(g, a) > 0 ==> Apply(g, a).upgrades != g.upgrades
    ensures Apply(g, a).upgrades.clickBoost.level > g.upgrades.clickBoost.level ==>
              Apply(g, a).upgrades.clickBoost.cost > g.upgrades.clickBoost.cost
    ensures Apply(g, a).upgrades.autoMiner.level > g.upgrades.autoMiner.level ==>
              Apply(g, a).upgrades.autoMiner.cost > g.upgrades.autoMiner.cost
  {
    var cb := g.upgrades.clickBoost;
    var am := g.upgrades.autoMiner;
    CostAtLeastBase(ClickBoostBase, cb.level);
    CostAtLeastBase(AutoMinerBase, am.level);
    NextCostGrows(cb.cost);
    NextCostGrows(am.cost);
    assert CostAt(ClickBoostBase, cb.level + 1) == NextCost(cb.cost);
    assert CostAt(AutoMinerBase, am.level + 1) == NextCost(am.cost);
    assert PaidUpTo(ClickBoostBase, cb.level + 1) == PaidUpTo(ClickBoostBase, cb.level) + cb.cost;
    assert PaidUpTo(AutoMinerBase, am.level + 1) == PaidUpTo(AutoMinerBase, am.level) + am.cost;
  }

  /** Any run from a reachable game keeps the invariant, and `totalMined`,
      `totalClicks` and the upgrade costs never decrease along it. */
  lemma {:induction false} RunKeepsInv(g: Game, actions: seq<Action>)
    requires Inv(g)
    ensures Inv(Run(g, actions))
    ensures Run(g, actions).gameStats.totalMined >= g.gameStats.totalMined
    ensures Run(g, actions).gameStats.totalClicks >= g.gameStats.totalClicks
    ensures Run(g, actions).upgrades.clickBoost.cost >= g.upgrades.clickBoost.cost
    ensures Run(g, actions).upgrades.autoMiner.cost >= g.upgrades.autoMiner.cost
    decreases |actions|
  {
    if actions != [] {
      StepKeepsInv(g, actions[0]);
      RunKeepsInv(Apply(g, actions[0]), actions[1..]);
    }
  }

  /** Every game reachable from `defaultSave` has a non-negative balance
      equal to what was mined minus what was spent during the run. */
  lemma ReachableFromDefaults(actions: seq<Action>)
    ensures Inv(Run(Defaults, actions))
    ensures Run(Defaults, actions).gameStats.novaCoinsBalance >= 0
    ensures Run(Defaults, actions).gameStats.novaCoinsBalance + SpentOn(Defaults, actions)
            == Run(Defaults, actions).gameStats.totalMined
  {
    DefaultsInv();
    RunKeepsInv(Defaults, actions);
    RunLedger(Defaults, actions);
  }

  /** A first click earns one coin; a click boost bought with exactly 50
      coins leaves 0 and costs 66 next; an auto-miner bought for 100 costs
      132 next. */
  lemma FirstPurchases()
    ensures MineCoins(Defaults).gameStats == Defaults.gameStats.(novaCoinsBalance := 1, totalMined := 1, totalClicks := 1)
    ensures var g := Defaults.(gameStats := Defaults.gameStats.(novaCoinsBalance := 50));
            && ClickUpgrade(g).gameStats.novaCoinsBalance == 0
            && ClickUpgrade(g).upgrades.clickBoost == Upgrade(66, 1)
            && ClickUpgrade(g).gameStats.coinsPerClick == 2
    ensures var g := Defaults.(gameStats := Defaults.gameStats.(novaCoinsBalance := 100));
            && AutoMinerUpgrade(g).gameStats.novaCoinsBalance == 0
            && AutoMinerUpgrade(g).upgrades.autoMiner == Upgrade(132, 1)
            && AutoMinerUpgrade(g).entities.autoMiner.amount == 1
  {
  }
}
