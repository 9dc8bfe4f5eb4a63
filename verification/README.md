# NovaCoin game-state model

A Dafny model of the game-state logic of NovaCoin, a browser clicker game
whose whole program is `novaCoin.js`. The player mines "NC" coins by
clicking. They buy two kinds of upgrade with a geometric cost curve: the
click boost and auto-miners. Auto-miners pay out on a recurring interval. The
state persists in browser storage as one JSON save, backfilled on load with
the default save structure.

Modules, one per part of the program:

- `Json` is the JSON value a save is stored as, with JavaScript truthiness.
- `DeepMerge` is `deepMerge`: a total `Merge` (the tree left behind) and a
  `Throws` predicate (the call raises a TypeError). The merge is proved
  idempotent. It is proved at any depth, under conditions:
  - A merge that does not throw keeps every non-object value the save holds.
    The exception is a falsy value where the defaults hold a section: that
    value is rebuilt from `{}`.
  - Where no truthy non-object stands in place of a section, the merge fills
    every default the save lacks.

  It is proved to be a fixed point on trees that already have the
  defaults' shape, and merging into `{}` yields the defaults.
- `SaveFormat` holds the typed game as a tree (`Encode`/`Decode`),
  `DefaultSave` and `loadGame` (`LoadGame`). It proves that a save the game
  wrote loads back unchanged. The two merge properties above carry over to
  loading. A save whose merge throws loses everything and loads the
  defaults with a warning. That happens when a truthy leaf such as `5`
  stands in place of a section that itself holds sections: `upgrades`,
  `entities` or `items`. A truthy leaf in place of a section of leaves is
  kept silently and not backfilled. The sections of leaves are `gameStats`,
  `entities.autoMiner`, an upgrade or an item, as in `"gameStats": 5` or
  `"autoMiner": 3`.
- `Catalog` holds the shop items (`GameData.items`) as data.
- `Economy` holds the game record (the shape of `defaultSave`) and the steps
  `mineCoins`, `clickUpgrade`, `autoMinerUpgrade`, the auto-miner tick and
  `checkItemsAvailability`.
- `Ledger` covers arbitrary runs of clicks, purchases and ticks from the
  defaults. The balance stays non-negative. Mined coins equal balance plus
  spending. That spending is computed both from the run's purchases and from
  the upgrade levels alone. Costs never fall, and every purchase raises its
  own cost.
- `Scheduler` is `autoMine`, a state machine over abstract interval handles.
  It keeps at most one live interval: none without miners, otherwise one at
  the miner's speed.
- `SaveQueue` is the `requestSave` debounce on `saveQueued`.
- `Shop` is the item filter of `renderShop`.
- `Session` is one page session driven by the page's events. It proves that
  every reachable session keeps at most one miner interval and one save
  timer, and that its stored save reloads as a reachable game.

The model follows the code as written:

- A click adds `coinsPerClick`. The click boost adds `clicksMultiplier` to
  `coinsPerClick`.
- A tick adds the current miner count. It ignores `autoMinerMultiplier`.
- There is no item purchase and no multiplier recompute: no code does either.
- The `version` field is never consulted.
- A storage failure is not caught. See Findings.

From 4 coins up, the cost curve `floor(cost * 1.32)` strictly grows. Below 4
it stalls: `NextCost(3) == 3`. Both starting costs (50 and 100) lie above
that.

## Model

| member | source | states |
|---|---|---|
| `DeepMerge.Throws` | novaCoin.js:130-147 | only a save that lacks some object of the defaults can make the merge throw |
| `DeepMerge.Merge` | novaCoin.js:130-147 | one level of the merge: every default key ends up in an object save and no saved key is dropped; keys only the save has are kept; a leaf default is copied only where the save has no value (null, 0, false are kept); an object default yields an object unless a truthy non-object sits there, which survives; a primitive save is left as it is |
| `DeepMerge.MergeIdempotent` | novaCoin.js:130-147 | merging the same defaults a second time changes nothing |
| `DeepMerge.MergeKeepsNoThrow` | novaCoin.js:130-147 | a merge that did not throw leaves a tree whose re-merge does not throw |
| `DeepMerge.ShapedIsFixedPoint` | novaCoin.js:130-147 | a save that already has the defaults' shape is left unchanged and does not throw |
| `DeepMerge.CompatibleMergeCovers` | novaCoin.js:130-147 | where no truthy non-object blocks an object default, the merge does not throw and puts every default key, at every depth, into the save |
| `DeepMerge.MergeIntoEmpty` | novaCoin.js:130-147 | merging the defaults into `{}` yields exactly the defaults |
| `DeepMerge.MergeKeepsSavedLeaf` | novaCoin.js:130-147 | a non-object value the save holds at any path survives the merge unchanged (null, 0, false included), except a falsy value where the defaults hold an object |
| `DeepMerge.MergeFillsMissing` | novaCoin.js:130-147 | where no truthy non-object blocks an object default, a default at any path that the save has no value for comes back exactly as the default |
| `DeepMerge.MergeFillsMissingSection` | novaCoin.js:138-139 | a section the save lacks or holds as a falsy value is rebuilt from `{}` into exactly the default section, without throwing |
| `SaveFormat.DecodeEncode` | novaCoin.js:168-169 | reading back the tree the game writes yields the same game |
| `SaveFormat.EncodeHasShape` | novaCoin.js:34-63 | every tree the game writes has every object and key of `defaultSave` |
| `SaveFormat.LoadGame` | novaCoin.js:151-166 | nothing or empty text stored gives the defaults without a warning; text that does not parse gives the defaults with a warning; a parsed save warns exactly when the merge throws, and then gives the defaults; otherwise it gives the parsed save merged with the defaults, without a warning; whatever is loaded merges again unchanged |
| `SaveFormat.LoadRoundTrip` | novaCoin.js:151-169 | a save the game wrote loads back as the very same tree, without a warning, and decodes to the same game |
| `SaveFormat.LoadBackfillsMissingField` | novaCoin.js:130-166 | a field or section missing at any depth from a stored save that no truthy non-object blocks is loaded, without a warning, as its current default |
| `SaveFormat.LoadKeepsSavedField` | novaCoin.js:130-166 | every non-object value a non-throwing stored save holds at any depth is loaded unchanged, except a falsy value where the defaults hold a section |
| `SaveFormat.LoadNonObjectWarns` | novaCoin.js:133-165 | a stored `null`, number, string or boolean makes the merge throw, so the defaults are loaded with a warning |
| `SaveFormat.LoadEmptyObject` | novaCoin.js:151-166 | a stored `{}` loads as exactly the defaults |
| `Catalog.Index` | novaCoin.js:65-127 | each item has its position in the catalog's definition order |
| `Catalog.CatalogWellFormed` | novaCoin.js:55-127 | item keys name items uniquely, and the catalog order lists every item exactly once |
| `Economy.NextCost` | novaCoin.js:319 | the next cost is the floor of cost × 132 / 100 |
| `Economy.NextCostGrows` | novaCoin.js:319 | from 4 on the cost strictly grows; from 0 to 3 it stays put |
| `Economy.MineCoins` | novaCoin.js:284-292 | balance and `totalMined` rise by `coinsPerClick`, `totalClicks` by exactly 1, and nothing else changes |
| `Economy.ClickUpgrade` | novaCoin.js:311-324 | a no-op when the balance is below the cost; otherwise balance drops by exactly the cost, `coinsPerClick` rises by `clicksMultiplier`, the level by 1, the cost becomes the next on the curve, and nothing else changes |
| `Economy.AutoMinerUpgrade` | novaCoin.js:326-335 | a no-op when the balance is below the cost; otherwise balance drops by exactly the cost, miners and level rise by 1, the cost becomes the next on the curve, and nothing else changes |
| `Economy.MinerTick` | novaCoin.js:358-363 | a tick adds the current miner count to balance and `totalMined`, ignores `autoMinerMultiplier`, and changes nothing else |
| `Economy.CheckItemsAvailability` | novaCoin.js:294-304 | an item's `available` flag ends up set exactly when it was set or `totalMined` reached its requirement; no flag is cleared, no `bought` flag and nothing else changes |
| `Economy.CheckItemsAvailabilityIdempotent` | novaCoin.js:294-304 | running the availability pass twice equals running it once |
| `Ledger.RunLedger` | novaCoin.js:284-363 | from any state, after any run, balance plus what the run's successful purchases paid equals starting balance plus what was mined |
| `Ledger.CostCurveIncreasing` | novaCoin.js:319-335 | from a starting cost of at least 4, the cost after each purchase stays at least the start and strictly increases |
| `Ledger.CostAtLeastBase` | novaCoin.js:319-335 | from a starting cost of at least 4, no later cost falls below it |
| `Ledger.StepKeepsInv` | novaCoin.js:284-363 | one click, purchase or tick keeps the reachable-state invariant; `totalMined`, `totalClicks` and both costs never decrease; a purchase strictly raises its cost |
| `Ledger.RunKeepsInv` | novaCoin.js:284-363 | any run keeps the invariant, and `totalMined`, `totalClicks` and the costs never decrease along it |
| `Ledger.ReachableFromDefaults` | novaCoin.js:34-53 | every game reachable from the defaults has a non-negative balance equal to what was mined minus what the run spent |
| `Ledger.FirstPurchases` | novaCoin.js:311-335 | first click gives balance, mined and clicks 1; a click boost bought with 50 leaves 0 and costs 66 next; an auto-miner bought for 100 costs 132 next |
| `Scheduler.AutoMine` | novaCoin.js:350-369 | the previous interval can no longer fire; with no miners nothing is armed; otherwise exactly one interval is left, the new one, at the miner's speed |
| `Scheduler.RearmLeavesOneInterval` | novaCoin.js:350-369 | two re-arms in a row leave exactly one interval, the second's |
| `SaveQueue.RequestSave` | novaCoin.js:172-183 | while a save is queued nothing changes; otherwise exactly one timer is armed, so at most one is ever pending |
| `SaveQueue.FireAsWritten` | novaCoin.js:179-182 | the callback as written: a failed write leaves `saveQueued` as it was |
| `SaveQueue.AsWrittenStopsSavingAfterFailedWrite` | novaCoin.js:174-182 | after one failed write, no number of later requests arms a save timer |
| `SaveQueue.Fire` | novaCoin.js:179-182 | the corrected callback: the timer is consumed and the queue is idle again whatever the write did |
| `SaveQueue.BurstArmsOneTimer` | novaCoin.js:174-183 | any burst of requests leaves exactly one save timer pending |
| `SaveQueue.FireThenBurstArmsOneTimer` | novaCoin.js:174-183 | with the corrected callback, requests after any fired timer arm exactly one new timer |
| `Shop.RenderShop` | novaCoin.js:226-243 | cards are unbought items whose requirement `totalMined` has reached, in catalog order, at most 7; below 7 every such item is shown; the placeholder appears exactly when there is none |
| `Shop.CapNeverBinds` | novaCoin.js:235 | the catalog has fewer items than the display cap |
| `Session.Boot` | novaCoin.js:404-408 | at start-up the miner interval is armed exactly when miners are owned, and no save is queued |
| `Session.Step` | novaCoin.js:284-397 | only a save timer or a reset touches the stored save; a fired save timer stores the current game if the write succeeds and keeps the old save if it fails, and one that is not armed does nothing; a cleared interval never fires; a purchase the balance does not cover changes nothing; a covered auto-miner purchase clears the old interval and leaves exactly the one the new miner count needs; only an auto-miner purchase or a reset re-arms the interval; a reset leaves the stored defaults; clicks, purchases and ticks change the game exactly as the matching game step does; a click, a purchase the balance covers and a live tick each request a save, and a refused purchase does not; opening the shop runs the availability pass and requests no save |
| `Session.StepKeepsWorldInv` | novaCoin.js:284-397 | every page event keeps the session invariant: at most one miner interval, armed exactly when miners are owned; at most one save timer; a tick adds the current miner count; a fired save timer writes the current game and leaves the queue idle |
| `Session.RunKeepsWorldInv` | novaCoin.js:284-397 | any sequence of page events keeps the session invariant |
| `Session.Reachable` | novaCoin.js:151-408 | in every session from an empty store, there is at most one interval and one save timer, the balance is non-negative, and the stored save loads back unchanged as a reachable game |

## Left out

- Rendering, the DOM, audio, the shop overlay and the stats toggle are
  presentation. The shop's item filter is kept as `Shop.RenderShop`.
- `localStorage` and the JSON text are left out. The stored text is an
  `Option<string>`, and `JSON.parse` is a parser parameter answering
  `None` on a syntax error. `JSON.stringify` is the tree `Encode` describes.
  The text-level round trip is not modelled, and neither is a write's
  failure reason.
- Real time is left out. Intervals and the save timer are abstract
  handles, and when they fire is an event chosen by the environment. There
  is no clock, no 250 ms delay and no missed-tick behaviour.
- Arrays in a save are left out. The defaults contain none. An array where
  the defaults hold an object would gain named properties, which a JSON tree
  cannot express.
- `DeepMerge.Throws` reads a default key on a non-object save value as
  `undefined`, and assumes a write to such a value is silently dropped. That
  is non-strict script behaviour. Strict mode would throw on the write.
  Reads that would find string properties such as `length` are not
  modelled, since no default key names one.
- `Economy.NextCost`: `Math.floor(cost * 1.32)` is modelled exactly as
  `(cost * 132) / 100`. Double rounding of the product could differ for some
  large costs.
- Economy numbers are unbounded integers. JavaScript doubles lose integer
  precision above 2^53.
- The items' `effect` closures are kept as descriptors and not evaluated.
  Nothing in the program calls them, so there is no item purchase and no
  multiplier change to model. `lightningMiner`'s halving would produce
  fractional speeds.
- `SaveFormat.Decode` reads the typed game back from a tree whose read
  fields are integral numbers. How the game would carry on with an arbitrary
  loaded save is not modelled, for example a save holding strings or
  fractions, where later arithmetic gives `NaN` or concatenation. `Session`
  boots from a typed game.
- `Session.Step` (HardReset): `hardReset` is not wired to any listener in
  the file. Its `location.reload` is modelled as a fresh `Boot` from the
  defaults it stored, with the old page's timers gone.
- `Session.Step` (SaveTimerFired) uses the corrected save callback
  `SaveQueue.Fire`, not the code as written. See Findings.

## Findings

| source | as written | input that shows it | evidently intended | confidence | as-written member | corrected member |
|---|---|---|---|---|---|---|
| novaCoin.js:179-182 | the save timer's callback calls `saveGame` and only then clears `saveQueued`, with no guard, so when `saveGame` throws, `saveQueued` stays true and every later `requestSave` returns at line 175 | `localStorage.setItem` throws (storage quota exceeded) while the first queued save runs; after that, no click, purchase or tick ever arms a save timer again | reset `saveQueued` whatever the write did, so that a later request saves again | not executed; high that the flag stays set, medium that this is unintended | `SaveQueue.AsWrittenStopsSavingAfterFailedWrite` | `SaveQueue.FireThenBurstArmsOneTimer` |
