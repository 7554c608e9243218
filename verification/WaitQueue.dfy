/**
 * Waiting on a condition the way the kernel does: test, join the queue, test again, sleep unless a
 * wake-up came in between. A wake-up takes the task off the queue and makes it runnable.
 */
module WaitQueue {

  datatype Wait =
    | Check                     // about to test for the first time
    | Prepare                   // about to join the queue
    | Recheck(queued: bool)     // about to test again; `queued` until woken
    | Schedule(queued: bool)    // about to sleep, or to loop if woken
    | Sleeping
    | Passed                    // the condition held

  predicate Runnable(w: Wait) {
    !w.Sleeping? && !w.Passed?
  }

  /** The next step of the waiting task, the condition being `condition` now. */
  function Advance(w: Wait, condition: bool): Wait
    requires Runnable(w)
  {
    match w
    case Check => if condition then Passed else Prepare
    case Prepare => Recheck(true)
    case Recheck(queued) => if condition then Passed else Schedule(queued)
    case Schedule(queued) => if queued then Sleeping else Prepare
  }

  function Wake(w: Wait): Wait {
    match w
    case Recheck(_) => Recheck(false)
    case Schedule(_) => Schedule(false)
    case Sleeping => Prepare
    case _ => w
  }

  /** Only a wake-up makes the task test its condition again. */
  predicate Committed(w: Wait) {
    w == Schedule(true) || w.Sleeping?
  }

  /** Steps down with every move of the task; a wake-up raises it by three at most. */
  function Rank(w: Wait): nat {
    match w
    case Check => 4
    case Prepare => 3
    case Recheck(queued) => if queued then 2 else 5
    case Schedule(queued) => if queued then 1 else 4
    case Sleeping => 0
    case Passed => 1
  }

  /** A task woken on the queue goes to sleep only after joining it anew, and testing again. */
  lemma WokenJoinsAgain(w: Wait)
    requires w.Recheck? || w.Schedule? || w.Sleeping?
    ensures Runnable(Wake(w)) && !Advance(Wake(w), false).Sleeping?
    ensures w.Recheck? ==> Advance(Advance(Wake(w), false), false) == Prepare
    ensures w.Schedule? ==> Advance(Wake(w), false) == Prepare
    ensures w.Sleeping? ==> Wake(w) == Prepare
  {
  }

  lemma AdvanceDescends(w: Wait, condition: bool)
    requires Runnable(w)
    ensures Rank(Advance(w, condition)) < Rank(w)
    ensures Rank(Wake(w)) <= Rank(w) + 3
  {
  }
}
