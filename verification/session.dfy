/** One page session of novaCoin.js: the game state, the auto-miner interval,
    the save queue and the stored save, driven by the events the page reacts
    to. Each event is one complete, synchronous step, as in the
    single-threaded page. Rendering and sound, which the handlers also
    trigger, change none of this state and are left out. */
module Session {
  import opened Wrappers
  import opened Json
  import opened Economy
  import Ledger
  import opened Scheduler
  import opened SaveQueue
  import opened SaveFormat

  datatype World = World(game: Game, timers: Timers, queue: Queue, storage: Option<Json>)

  datatype Event =
    | CoinClicked                  // coinButton
    | ClickBoostClicked            // upgradeButton1
    | AutoMinerClicked             // upgradeButton2
    | IntervalFired(handle: nat)   // an auto-miner interval fires
    | SaveTimerFired(writeOk: bool) // the save timer fires; false: the write threw
    | ShopOpened                   // openShopBtn
    | HardReset                    // hardReset, then the page reload

  /** Page start-up once `loadGame` has produced `g`: the miner interval is
      armed only if miners are owned. */
  function Boot(g: Game, storage: Option<Json>): (w: World)
    ensures w.game == g && w.queue == Idle && w.storage == storage
    ensures ArmedFor(w.timers, g.entities.autoMiner)
  {
    var t := if g.entities.autoMiner.amount > 0 then AutoMine(NoTimers, g.entities.autoMiner) else NoTimers;
    World(g, t, Idle, storage)
  }

  /** The page's reaction to one event. */
  function Step(w: World, e: Event): (w': World)
    // only a save timer or a reset touches the stored save
    ensures !e.SaveTimerFired? && !e.HardReset? ==> w'.storage == w.storage
    // a save timer stores the current game when the write succeeds, keeps
    // the old save when it fails, and changes no game state either way
    ensures e.SaveTimerFired? && w.queue.pending > 0 ==>
              && w'.game == w.game && w'.timers == w.timers && !w'.queue.saveQueued
              && w'.storage == (if e.writeOk then Some(Encode(w.game)) else w.storage)
    // a save timer that is not armed does not fire
    ensures e.SaveTimerFired? && w.queue.pending == 0 ==> w' == w
    // a purchase the balance does not cover changes nothing at all
    ensures e.ClickBoostClicked? && w.game.gameStats.novaCoinsBalance < w.game.upgrades.clickBoost.cost ==> w' == w
    ensures e.AutoMinerClicked? && w.game.gameStats.novaCoinsBalance < w.game.upgrades.autoMiner.cost ==> w' == w
    // a covered auto-miner purchase clears the old interval and re-arms
    // exactly the one interval the new miner count needs
    ensures e.AutoMinerClicked? && w.game.gameStats.novaCoinsBalance >= w.game.upgrades.autoMiner.cost &&
            Tracked(w.timers) ==>
              && (w.timers.intervalId.Some? ==> w.timers.intervalId.value !in w'.timers.live)
              && ArmedFor(w'.timers, w'.game.entities.autoMiner)
    // an interval that was cleared never fires again
    ensures e.IntervalFired? && e.handle !in w.timers.live ==> w' == w
    // only an auto-miner purchase or a reset re-arms the miner interval
    ensures !e.AutoMinerClicked? && !e.HardReset? ==> w'.timers == w.timers
    // a reset leaves the stored defaults and a freshly booted page
    ensures e.HardReset? ==> w'.game == Defaults && w'.storage == Some(DefaultSave) && w'.queue == Idle
    // the coins change exactly as the matching game step says
    ensures e.CoinClicked? ==> w'.game == Ledger.Apply(w.game, Ledger.Click)
    ensures e.ClickBoostClicked? ==> w'.game == Ledger.Apply(w.game, Ledger.BuyClickBoost)
    ensures e.AutoMinerClicked? ==> w'.game == Ledger.Apply(w.game, Ledger.BuyAutoMiner)
    ensures e.IntervalFired? && e.handle in w.timers.live ==> w'.game == Ledger.Apply(w.game, Ledger.Tick)
    // a click, a purchase the balance covers and a live tick each request a
    // save; a refused purchase requests nothing
    ensures e.CoinClicked? ==> w'.queue == RequestSave(w.queue)
    ensures e.ClickBoostClicked? ==>
              w'.queue == (if w.game.gameStats.novaCoinsBalance >= w.game.upgrades.clickBoost.cost then RequestSave(w.queue) else w.queue)
    ensures e.AutoMinerClicked? ==>
              w'.queue == (if w.game.gameStats.novaCoinsBalance >= w.game.upgrades.autoMiner.cost then RequestSave(w.queue) else w.queue)
    ensures e.IntervalFired? && e.handle in w.timers.live ==> w'.queue == RequestSave(w.queue)
    // opening the shop runs the availability pass and requests no save
    ensures e.ShopOpened? ==> w'.game == CheckItemsAvailability(w.game) && w'.queue == w.queue
  {
    match e
    case CoinClicked =>
      w.(game := MineCoins(w.game), queue := RequestSave(w.queue))
    case ClickBoostClicked =>
      if w.game.gameStats.novaCoinsBalance >= w.game.upgrades.clickBoost.cost then
        w.(game := ClickUpgrade(w.game), queue := RequestSave(w.queue))
      else
        w
    case AutoMinerClicked =>
      if w.game.gameStats.novaCoinsBalance >= w.game.upgrades.autoMiner.cost then
        var g := AutoMinerUpgrade(w.game);
        w.(game := g, timers := AutoMine(w.timers, g.entities.autoMiner), queue := RequestSave(w.queue))
      else
        w
    case IntervalFired(h) =>
      // a cleared interval never fires again
      if h in w.timers.live then w.(game := MinerTick(w.game), queue := RequestSave(w.queue)) else w
    case SaveTimerFired(writeOk) =>
      if w.queue.pending > 0 then
        w.(queue := Fire(w.queue, writeOk).queue,
           storage := if writeOk then Some(Encode(w.game)) else w.storage)
      else
        w
    case ShopOpened =>
      w.(game := CheckItemsAvailability(w.game))
    case HardReset =>
      // the defaults are written, then the reloaded page boots from them
      Boot(Defaults, Some(DefaultSave))
  }

  function RunWorld(w: World, events: seq<Event>): World
    decreases |events|
  {
    if events == [] then w else RunWorld(Step(w, events[0]), events[1..])
  }

  /** A stored tree the game wrote from a reachable state. */
  predicate Stored(j: Json) {
    Decode(j).Some? && Encode(Decode(j).value) == j && Ledger.Inv(Decode(j).value)
  }

  predicate WorldInv(w: World) {
    && Ledger.Inv(w.game)
    && ArmedFor(w.timers, w.game.entities.autoMiner)
    && Consistent(w.queue)
    && (w.storage.Some? ==> Stored(w.storage.value))
  }

  lemma StoredEncode(g: Game)
    requires Ledger.Inv(g)
    ensures Stored(Encode(g))
  {
    DecodeEncode(g);
  }

  /** A fresh page with nothing stored. */
  lemma FreshBootInv()
    ensures WorldInv(Boot(Defaults, None))
  {
    Ledger.DefaultsInv();
  }

  /** Every event keeps the invariant; in particular at most one auto-miner
      interval and at most one save timer are ever live, and an interval
      that fires adds the current number of miners to the balance. */
  lemma StepKeepsWorldInv(w: World, e: Event)
    requires WorldInv(w)
    ensures WorldInv(Step(w, e))
    ensures |Step(w, e).timers.live| <= 1 && Step(w, e).queue.pending <= 1
    ensures e.IntervalFired? && e.handle in w.timers.live ==>
              Step(w, e).game.gameStats.novaCoinsBalance
              == w.game.gameStats.novaCoinsBalance + w.game.entities.autoMiner.amount
    // a save timer that fires writes the current game and leaves no timer queued
    ensures e.SaveTimerFired? && e.writeOk && w.queue.pending > 0 ==>
              Step(w, e).storage == Some(Encode(w.game)) && Step(w, e).queue == Idle
  {
    var w' := Step(w, e);
    match e {
    case CoinClicked =>
      Ledger.StepKeepsInv(w.game, Ledger.Click);
    case ClickBoostClicked =>
      Ledger.StepKeepsInv(w.game, Ledger.BuyClickBoost);
    case AutoMinerClicked =>
      Ledger.StepKeepsInv(w.game, Ledger.BuyAutoMiner);
    case IntervalFired(h) =>
      Ledger.StepKeepsInv(w.game, Ledger.Tick);
    case SaveTimerFired(ok) =>
      if w.queue.pending > 0 && ok {
        StoredEncode(w.game);
      }
    case ShopOpened =>
    case HardReset =>
      Ledger.DefaultsInv();
      StoredEncode(Defaults);
    }
    var live := w'.timers.live;
    if live != map[] {
      assert live == map[w'.timers.intervalId.value := w'.game.entities.autoMiner.speed];
      assert live.Keys == {w'.timers.intervalId.value};
    }
  }

  lemma {:induction false} RunKeepsWorldInv(w: World, events: seq<Event>)
    requires WorldInv(w)
    ensures WorldInv(RunWorld(w, events))
    decreases |events|
  {
    if events != [] {
      StepKeepsWorldInv(w, events[0]);
      RunKeepsWorldInv(Step(w, events[0]), events[1..]);
    }
  }

  /** In every session started on an empty store: at most one auto-miner
      interval, at most one save timer, a balance equal to mined minus paid,
      and whatever is stored loads back, unchanged and without a warning, as
      a game that satisfies the same invariant. */
  lemma Reachable(events: seq<Event>, text: string, parse: string -> Option<Json>)
    requires text != ""
    requires RunWorld(Boot(Defaults, None), events).storage.Some?
    requires parse(text) == RunWorld(Boot(Defaults, None), events).storage
    ensures var w := RunWorld(Boot(Defaults, None), events);
            && |w.timers.live| <= 1
            && w.queue.pending <= 1
            && w.game.gameStats.novaCoinsBalance >= 0
            && LoadGame(Some(text), parse) == Loaded(w.storage.value, false)
            && Decode(LoadGame(Some(text), parse).save).Some?
            && Ledger.Inv(Decode(LoadGame(Some(text), parse).save).value)
  {
    var w := RunWorld(Boot(Defaults, None), events);
    FreshBootInv();
    RunKeepsWorldInv(Boot(Defaults, None), events);
    var g := Decode(w.storage.value).value;
    LoadRoundTrip(g, text, parse);
    var live := w.timers.live;
    if live != map[] {
      assert live.Keys == {w.timers.intervalId.value};
    }
  }
}
