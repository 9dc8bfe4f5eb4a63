/** `autoMine` of novaCoin.js: the auto-miner's recurring interval.

    The page's timers are abstract handles: `live` maps every interval that
    can still fire to its period in milliseconds, `intervalId` is the
    module-level `intervalID` (never reset to null once set) and `next` is the
    handle the next `setInterval` returns. There is no clock: when an interval
    fires is up to the environment. */
module Scheduler {
  import opened Wrappers
  import opened Economy

  datatype Timers = Timers(intervalId: Option<nat>, live: map<nat, int>, next: nat)

  /** No interval armed yet (`let intervalID = null`). */
  const NoTimers := Timers(None, map[], 1)

  /** Every live interval is the one `intervalId` names, and handles are
      never reused: `next` is above every handle handed out. */
  predicate Tracked(t: Timers) {
    && (forall h :: h in t.live ==> t.intervalId == Some(h))
    && (t.intervalId.Some? ==> t.intervalId.value < t.next)
  }

  /** The interval the miner needs: none without miners, otherwise exactly
      one, named by `intervalId`, firing every `speed` milliseconds. */
  predicate ArmedFor(t: Timers, miner: Miner) {
    && Tracked(t)
    && (miner.amount <= 0 ==> t.live == map[])
    && (miner.amount > 0 ==> t.intervalId.Some? && t.live == map[t.intervalId.value := miner.speed])
  }

  /** `autoMine`: always clears the interval `intervalId` names, then arms a
      new one at `miner.speed` unless there are no miners. */
  function AutoMine(t: Timers, miner: Miner): (r: Timers)
    // handles are never reused
    ensures r.next >= t.next
    ensures miner.amount <= 0 ==> r.intervalId == t.intervalId && r.live.Keys <= t.live.Keys
    ensures miner.amount > 0 ==> r.intervalId == Some(t.next) && t.next in r.live && r.live[t.next] == miner.speed
    // from a tracked state: the previous interval can no longer fire, and
    // what is left is exactly what the miner needs
    ensures Tracked(t) && t.intervalId.Some? ==> t.intervalId.value !in r.live
    ensures Tracked(t) ==> ArmedFor(r, miner)
  {
    var cleared := if t.intervalId.Some? then t.live - {t.intervalId.value} else t.live;
    if miner.amount <= 0 then
      t.(live := cleared)
    else
      Timers(Some(t.next), cleared[t.next := miner.speed], t.next + 1)
  }

  /** Re-arming twice in a row, as two auto-miner purchases do, still leaves
      exactly one interval: the second call's. */
  lemma RearmLeavesOneInterval(t: Timers, m1: Miner, m2: Miner)
    requires Tracked(t)
    requires m1.amount > 0 && m2.amount > 0
    ensures AutoMine(AutoMine(t, m1), m2).live == map[t.next + 1 := m2.speed]
  {
  }
}
