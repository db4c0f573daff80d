/** One inference at a time: a queue of bounded length in front of one permit
    that only the finished job gives back. */
module InferenceGate {
  import opened Base

  /** The gate between two steps of the event loop. `acquiring` are the requests
      inside `wait_for(sem.acquire())`, `running` the jobs whose thread has not
      finished, `callers` the requests still waiting for their job; `released`
      counts every release of the semaphore by job, and `failedStarts` the jobs
      the executor would not take after the permit was drawn. */
  datatype State = State(queueMax: int, waiting: int, permits: nat, acquiring: set<nat>, started: set<nat>,
      running: set<nat>,
                         callers: set<nat>, released: multiset<nat>, failedStarts: nat)

  datatype Action = Arrive(id: nat) | Granted(id: nat, starts: bool) | GaveUp(id: nat) | Finished(id: nat)
      | CallerLeft(id: nat)

  function Fresh(queueMax: int): State {
    State(queueMax, 0, 1, {}, {}, {}, {}, multiset{}, 0)
  }

  /** None where the event cannot happen: ids are used once, a permit is granted
      only while there is one, and a thread finishes once. */
  function Next(s: State, a: Action): Option<State> {
    match a
    case Arrive(id) =>
      if id in s.acquiring || id in s.started then None
      else if s.waiting >= s.queueMax then Some(s)
      else Some(s.(waiting := s.waiting + 1, acquiring := s.acquiring + {id}))
    case Granted(id, starts) =>
      if id !in s.acquiring || s.permits == 0 then None
      else
        var t := s.(waiting := s.waiting - 1, acquiring := s.acquiring - {id}, permits := s.permits - 1);
        Some(if starts then t.(started := t.started + {id}, running := t.running + {id}, callers := t.callers + {id})
             else t.(failedStarts := t.failedStarts + 1))
    case GaveUp(id) =>
      if id !in s.acquiring then None else Some(s.(waiting := s.waiting - 1, acquiring := s.acquiring - {id}))
    case Finished(id) =>
      if id !in s.running then None
      else Some(s.(running := s.running - {id}, permits := s.permits + 1, released := s.released + multiset{id}))
    case CallerLeft(id) =>
      if id !in s.callers then None else Some(s.(callers := s.callers - {id}))
  }

  function Run(s: State, actions: seq<Action>): Option<State> {
    if actions == [] then Some(s)
    else
      match Run(s, actions[..|actions| - 1])
      case None => None
      case Some(t) => Next(t, actions[|actions| - 1])
  }

  /** The permit is free, or held by the one running job, or was lost to a start
      that failed; the queue counter is the queue; and every started job has
      given back what it took exactly once if it has finished, and not before. */
  ghost predicate Inv(s: State) {
    && s.permits + |s.running| + s.failedStarts == 1
    && s.waiting == |s.acquiring| && (s.waiting <= s.queueMax || s.waiting == 0)
    && s.running <= s.started && s.callers <= s.started && s.acquiring !! s.started
    && s.released == multiset(s.started - s.running)
  }

  lemma FinishReleasesOnce(started: set<nat>, running: set<nat>, id: nat)
    requires running <= started && id in running
    ensures multiset(started - (running - {id})) == multiset(started - running) + multiset{id}
  {
    assert started - (running - {id}) == (started - running) + {id};
  }

  lemma QueueKeeps(s: State, a: Action)
    requires Inv(s) && Next(s, a).Some? && (a.Arrive? || a.GaveUp? || a.CallerLeft?)
    ensures Inv(Next(s, a).value)
  {
  }

  lemma GrantKeeps(s: State, id: nat, starts: bool)
    requires Inv(s) && Next(s, Granted(id, starts)).Some?
    ensures Inv(Next(s, Granted(id, starts)).value)
  {
    assert |s.running| == 0;
    assert s.running == {} && id !in s.started;
    assert |{id}| == 1 && s.running + {id} == {id};
    assert s.started + {id} - {id} == s.started - {};
  }

  lemma FinishKeeps(s: State, id: nat)
    requires Inv(s) && Next(s, Finished(id)).Some?
    ensures Inv(Next(s, Finished(id)).value)
  {
    FinishReleasesOnce(s.started, s.running, id);
  }

  lemma NextKeeps(s: State, a: Action)
    requires Inv(s) && Next(s, a).Some?
    ensures Inv(Next(s, a).value)
  {
    hide Inv;
    hide Next;
    match a {
      case Finished(id) => FinishKeeps(s, id);
      case Granted(id, starts) => GrantKeeps(s, id, starts);
      case _ => QueueKeeps(s, a);
    }
  }

  lemma QueueMaxStays(s: State, a: Action)
    requires Next(s, a).Some?
    ensures Next(s, a).value.queueMax == s.queueMax
  {
  }

  /** Over every interleaving of arrivals, timeouts, cancelled callers, failed
      starts and finishing threads. */
  lemma {:induction false} EveryInterleaving(queueMax: int, actions: seq<Action>, s: State)
    requires Run(Fresh(queueMax), actions) == Some(s)
    ensures Inv(s) && |s.running| <= 1 && s.queueMax == queueMax
    ensures s.permits + |s.running| == 1 <==> s.failedStarts == 0
    decreases |actions|
  {
    hide Next;
    if actions != [] {
      EveryInterleaving(queueMax, actions[..|actions| - 1], Run(Fresh(queueMax), actions[..|actions| - 1]).value);
      NextKeeps(Run(Fresh(queueMax), actions[..|actions| - 1]).value, actions[|actions| - 1]);
      QueueMaxStays(Run(Fresh(queueMax), actions[..|actions| - 1]).value, actions[|actions| - 1]);
    }
  }

  /** With nothing running, the next in line can be let in exactly when no start
      has ever failed: a caller who left early never costs the slot. */
  lemma IdleGateOpensIff(queueMax: int, actions: seq<Action>, s: State, id: nat)
    requires Run(Fresh(queueMax), actions) == Some(s) && s.running == {} && id in s.acquiring
    ensures Next(s, Granted(id, true)).Some? <==> s.failedStarts == 0
  {
    EveryInterleaving(queueMax, actions, s);
  }

  /** After a start has failed nothing ever runs again. */
  lemma {:induction false} ShutForGood(s: State, actions: seq<Action>, t: State)
    requires Inv(s) && s.failedStarts == 1 && Run(s, actions) == Some(t)
    ensures Inv(t) && t.failedStarts == 1 && t.started == s.started && t.running == {}
    decreases |actions|
  {
    if actions != [] {
      var u := Run(s, actions[..|actions| - 1]).value;
      ShutForGood(s, actions[..|actions| - 1], u);
      StaysShut(u, actions[|actions| - 1]);
    }
  }

  lemma StaysShut(s: State, a: Action)
    requires Inv(s) && s.failedStarts == 1 && s.running == {} && Next(s, a).Some?
    ensures var t := Next(s, a).value; Inv(t) && t.failedStarts == 1 && t.started == s.started && t.running == {}
  {
    NextKeeps(s, a);
    hide Inv;
    assert s.permits == 0 || !a.Granted?;
  }

  // ---- the object --------------------------------------------------------

  /** `asyncio.Semaphore(1)`, with the wake-up of a waiter taken as one step. */
  class Semaphore {
    var value: nat

    constructor (n: nat)
      ensures value == n
    {
      value := n;
    }
  }

  /** `Gate`. Each method is what the event loop runs between two awaits. */
  class Gate {
    const queueMax: int
    var waiting: int
    const sem: Semaphore
    ghost var s: State

    ghost predicate Valid()
      reads this, sem
    {
      Inv(s) && s.queueMax == queueMax && s.waiting == waiting && s.permits == sem.value
    }

    constructor (max: int)
      ensures Valid() && fresh(sem) && queueMax == max && s == Fresh(max)
    {
      queueMax, waiting, s := max, 0, Fresh(max);
      sem := new Semaphore(1);
    }

    /** Up to the first await; false is `OverflowError("busy")`. */
    method Enter(id: nat) returns (queued: bool)
      requires Valid() && id !in s.acquiring && id !in s.started
      modifies this
      ensures Valid() && Next(old(s), Arrive(id)) == Some(s)
      ensures queued <==> old(waiting) < queueMax
    {
      NextKeeps(s, Arrive(id));
      s := Next(s, Arrive(id)).value;
      if waiting >= queueMax {
        return false;
      }
      waiting := waiting + 1;
      return true;
    }

    /** `wait_for` returned with the permit; the job goes to the executor, which
        may refuse it. */
    method Acquired(id: nat) returns (started: bool)
      requires Valid() && id in s.acquiring && sem.value > 0
      modifies this, sem
      ensures Valid() && Next(old(s), Granted(id, started)) == Some(s)
    {
      sem.value := sem.value - 1;
      waiting := waiting - 1;
      started := *;
      NextKeeps(s, Granted(id, started));
      s := Next(s, Granted(id, started)).value;
    }

    /** `wait_for` raised, by timeout or cancellation, without the permit. */
    method GiveUp(id: nat)
      requires Valid() && id in s.acquiring
      modifies this
      ensures Valid() && Next(old(s), GaveUp(id)) == Some(s)
    {
      waiting := waiting - 1;
      NextKeeps(s, GaveUp(id));
      s := Next(s, GaveUp(id)).value;
    }

    /** The future's done callback. */
    method OnDone(id: nat)
      requires Valid() && id in s.running
      modifies this`s, sem
      ensures Valid() && Next(old(s), Finished(id)) == Some(s)
    {
      sem.value := sem.value + 1;
      NextKeeps(s, Finished(id));
      s := Next(s, Finished(id)).value;
    }

    /** The shielded wait ended: a result, a timeout or a cancelled request. */
    method Leave(id: nat)
      requires Valid() && id in s.callers
      modifies this`s
      ensures Valid() && Next(old(s), CallerLeft(id)) == Some(s) && sem.value == old(sem.value)
              && waiting == old(waiting)
    {
      NextKeeps(s, CallerLeft(id));
      s := Next(s, CallerLeft(id)).value;
    }
  }
}
