/** `requestSave` of novaCoin.js: the `saveQueued` flag plus the 250 ms
    save timer it guards. `pending` counts save timers that are armed and have
    not fired; when one fires is up to the environment.

    The timer's callback writes the save and only then clears the flag. When
    `saveGame` throws (`localStorage.setItem` over quota), the second
    statement never runs, `saveQueued` stays true, and every later
    `requestSave` returns at once: the game never saves again. `FireAsWritten`
    models that callback; `Fire` is the callback with the flag reset whatever
    the write did, and is the one the rest of the model uses. */
module SaveQueue {

  datatype Queue = Queue(saveQueued: bool, pending: nat)

  /** The queue at page load: flag clear, no timer armed. */
  const Idle := Queue(false, 0)

  /** A save timer is armed exactly while the flag is set. */
  predicate Consistent(q: Queue) {
    q.pending == if q.saveQueued then 1 else 0
  }

  /** `requestSave`: arms a timer unless one is already queued. */
  function RequestSave(q: Queue): (r: Queue)
    ensures q.saveQueued ==> r == q
    ensures !q.saveQueued ==> r.saveQueued && r.pending == q.pending + 1
    ensures Consistent(q) ==> Consistent(r) && r.pending == 1
  {
    if q.saveQueued then q else Queue(true, q.pending + 1)
  }

  /** The queue after a save timer fired, and whether a save was written. */
  datatype Fired = Fired(queue: Queue, saved: bool)

  /** The callback as written: when the write throws, the flag is not reset. */
  function FireAsWritten(q: Queue, writeOk: bool): (r: Fired)
    requires q.pending > 0
    ensures r.queue.pending == q.pending - 1
    ensures r.saved == writeOk
    ensures writeOk ==> !r.queue.saveQueued
    ensures !writeOk ==> r.queue.saveQueued == q.saveQueued
  {
    if writeOk then Fired(Queue(false, q.pending - 1), true)
    else Fired(Queue(q.saveQueued, q.pending - 1), false)
  }

  /** The callback with the flag cleared even when the write throws. */
  function Fire(q: Queue, writeOk: bool): (r: Fired)
    requires q.pending > 0
    ensures r.queue.pending == q.pending - 1
    ensures !r.queue.saveQueued
    ensures r.saved == writeOk
    ensures Consistent(q) ==> r.queue == Idle
  {
    Fired(Queue(false, q.pending - 1), writeOk)
  }

  /** `n` calls of `requestSave` in a row. */
  function RequestMany(q: Queue, n: nat): Queue
    decreases n
  {
    if n == 0 then q else RequestMany(RequestSave(q), n - 1)
  }

  /** Counterexample to "a burst of requests ends in one save" for the code
      as written: once a write has thrown, no number of later requests arms a
      save timer again. */
  lemma {:induction false} AsWrittenStopsSavingAfterFailedWrite(n: nat)
    ensures var stuck := FireAsWritten(RequestSave(Idle), false).queue;
            stuck == Queue(true, 0) && RequestMany(stuck, n).pending == 0
    decreases n
  {
    var stuck := FireAsWritten(RequestSave(Idle), false).queue;
    if n > 0 {
      assert RequestSave(stuck) == stuck;
      AsWrittenStopsSavingAfterFailedWrite(n - 1);
    }
  }

  /** With the flag always reset, any burst of at least one request after a
      fired timer, failed write or not, arms exactly one new save timer. */
  lemma {:induction false} FireThenBurstArmsOneTimer(q: Queue, writeOk: bool, n: nat)
    requires Consistent(q) && q.pending > 0
    requires n > 0
    ensures RequestMany(Fire(q, writeOk).queue, n) == Queue(true, 1)
    decreases n
  {
    BurstArmsOneTimer(Idle, n);
  }

  /** A burst of requests from a consistent queue leaves exactly one timer
      armed. */
  lemma {:induction false} BurstArmsOneTimer(q: Queue, n: nat)
    requires Consistent(q)
    requires n > 0 || q.saveQueued
    ensures RequestMany(q, n) == Queue(true, 1)
    decreases n
  {
    if n > 0 {
      BurstArmsOneTimer(RequestSave(q), n - 1);
    }
  }
}
