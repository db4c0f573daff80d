/** The throttle on first-run setup passwords: a lockout per address that
    doubles, forgets after a quiet hour, and a small pause for everyone. */
module Throttle {
  import opened Base

  type Client = string

  const FREE_ATTEMPTS := 3
  const BASE_LOCKOUT := 5.0
  const MAX_LOCKOUT := 900.0
  const FAILURE_TTL := 3600.0
  const GLOBAL_WINDOW := 900.0
  const GLOBAL_TRIGGER := 20
  const GLOBAL_PAUSE := 1.0

  /** An integer from 2**1024 on does not convert to a Python float. */
  const FLOAT_EXPONENTS := 1024

  datatype Entry = Entry(fails: nat, until: real, last: real)

  datatype State = State(failures: map<Client, Entry>, recent: seq<real>)

  function Pow2(n: nat): (p: nat)
    ensures p >= 1
  {
    if n == 0 then 1 else 2 * Pow2(n - 1)
  }

  function Penalty(fails: nat): (p: real)
    ensures 0.0 <= p <= MAX_LOCKOUT
  {
    if fails <= FREE_ATTEMPTS then 0.0
    else
      var p := BASE_LOCKOUT * (Pow2(fails - FREE_ATTEMPTS - 1) as real);
      if p < MAX_LOCKOUT then p else MAX_LOCKOUT
  }

  /** Recording this many failures in a row raises OverflowError instead. */
  predicate Overflows(fails: nat) {
    fails >= FREE_ATTEMPTS + 1 + FLOAT_EXPONENTS
  }

  function DropBefore(times: seq<real>, cutoff: real): seq<real> {
    if times != [] && times[0] < cutoff then DropBefore(times[1..], cutoff) else times
  }

  function Prune(s: State, now: real): State {
    State(map c | c in s.failures && now - s.failures[c].last <= FAILURE_TTL :: s.failures[c],
          DropBefore(s.recent, now - GLOBAL_WINDOW))
  }

  function Wait(failures: map<Client, Entry>, client: Client, now: real): (w: real)
    ensures 0.0 <= w
  {
    if client in failures && failures[client].until > now then failures[client].until - now else 0.0
  }

  /** The entry a further failure at `now` makes. */
  function Next(before: Option<Entry>, now: real): Entry {
    var fails := (if before.Some? then before.value.fails else 0) + 1;
    Entry(fails, now + Penalty(fails), now)
  }

  function Lookup(failures: map<Client, Entry>, client: Client): Option<Entry> {
    if client in failures then Some(failures[client]) else None
  }

  // ---- the calls ---------------------------------------------------------

  datatype Call = Lockout(client: Client, now: real) | NoteFailure(client: Client, now: real)
      | NoteSuccess(client: Client) | Pause(now: real)

  /** A failure that overflows is not recorded; the pruning before it stays. */
  function Apply(s: State, call: Call): State {
    match call
    case Lockout(_, now) => Prune(s, now)
    case Pause(now) => Prune(s, now)
    case NoteSuccess(client) => s.(failures := s.failures - {client})
    case NoteFailure(client, now) =>
      var p := Prune(s, now);
      var entry := Next(Lookup(p.failures, client), now);
      if Overflows(entry.fails) then p
      else State(p.failures[client := entry], p.recent + [now])
  }

  predicate Raises(s: State, call: Call) {
    call.NoteFailure? && Overflows(Next(Lookup(Prune(s, call.now).failures, call.client), call.now).fails)
  }

  // ---- the module's two globals, as the code keeps them --------------------

  class BootstrapThrottle {
    var failures: map<Client, Entry>
    var recent: seq<real>

    function Contents(): State
      reads this
    {
      State(failures, recent)
    }

    constructor ()
      ensures Contents() == State(map[], [])
    {
      failures, recent := map[], [];
    }

    method PruneOld(now: real)
      modifies this
      ensures Contents() == Prune(old(Contents()), now)
    {
      var todo := failures.Keys;
      while todo != {}
        invariant todo <= failures.Keys <= old(failures).Keys
        invariant forall c :: c in failures ==> failures[c] == old(failures)[c]
        invariant forall c :: c in old(failures) && c !in todo ==>
            (c in failures <==> now - old(failures)[c].last <= FAILURE_TTL)
        invariant recent == old(recent)
        decreases todo
      {
        var key :| key in todo;
        if now - failures[key].last > FAILURE_TTL {
          failures := failures - {key};
        }
        todo := todo - {key};
      }
      var cutoff := now - GLOBAL_WINDOW;
      while recent != [] && recent[0] < cutoff
        invariant DropBefore(recent, cutoff) == DropBefore(old(recent), cutoff)
        invariant failures == Prune(old(Contents()), now).failures
        decreases |recent|
      {
        recent := recent[1..];
      }
    }

    method LockoutSeconds(client: Client, now: real) returns (wait: real)
      modifies this
      ensures Contents() == Apply(old(Contents()), Lockout(client, now))
      ensures wait == Wait(failures, client, now)
    {
      PruneOld(now);
      if client !in failures {
        return 0.0;
      }
      var left := failures[client].until - now;
      wait := if left > 0.0 then left else 0.0;
    }

    method NoteBootstrapFailure(client: Client, now: real) returns (raised: bool)
      modifies this
      ensures Contents() == Apply(old(Contents()), NoteFailure(client, now))
      ensures raised == Raises(old(Contents()), NoteFailure(client, now))
    {
      PruneOld(now);
      var fails := 0;
      if client in failures {
        fails := failures[client].fails;
      }
      fails := fails + 1;
      var penalty := 0.0;
      if fails > FREE_ATTEMPTS {
        if fails - FREE_ATTEMPTS - 1 >= FLOAT_EXPONENTS {
          return true;
        }
        var doubled := BASE_LOCKOUT * (Pow2(fails - FREE_ATTEMPTS - 1) as real);
        penalty := if doubled < MAX_LOCKOUT then doubled else MAX_LOCKOUT;
      }
      failures := failures[client := Entry(fails, now + penalty, now)];
      recent := recent + [now];
      return false;
    }

    method NoteBootstrapSuccess(client: Client)
      modifies this
      ensures Contents() == Apply(old(Contents()), NoteSuccess(client))
    {
      failures := failures - {client};
    }

    method GlobalPauseSeconds(now: real) returns (pause: real)
      modifies this
      ensures Contents() == Apply(old(Contents()), Pause(now))
      ensures pause == if |recent| >= 20 then 1.0 else 0.0
    {
      PruneOld(now);
      pause := if |recent| >= GLOBAL_TRIGGER then GLOBAL_PAUSE else 0.0;
    }
  }

  // ---- the same bookkeeping from the full log, with no pruning -------------

  datatype Event = Failed(client: Client, at: real) | Cleared(client: Client)

  /** What is owed by `client` according to everything that ever happened. */
  function Account(log: seq<Event>, client: Client): Option<Entry> {
    if log == [] then None
    else
      var before := Account(log[..|log| - 1], client);
      match log[|log| - 1]
      case Cleared(c) => if c == client then None else before
      case Failed(c, at) =>
        if c != client then before
        else if before.Some? && at - before.value.last <= FAILURE_TTL then Some(Next(before, at))
        else Some(Next(None, at))
  }

  /** The failures since `cutoff`, oldest first. */
  function Since(log: seq<Event>, cutoff: real): seq<real> {
    if log == [] then []
    else
      var last := log[|log| - 1];
      Since(log[..|log| - 1], cutoff) + if last.Failed? && last.at >= cutoff then [last.at] else []
  }

  /** A run of calls on a clock that never goes back. */
  datatype Run = Run(s: State, now: real, log: seq<Event>)

  function Happened(s: State, call: Call): seq<Event> {
    match call
    case NoteFailure(client, at) => if Raises(s, call) then [] else [Failed(client, at)]
    case NoteSuccess(client) => [Cleared(client)]
    case _ => []
  }

  function TimeOf(call: Call, now: real): real {
    if call.NoteSuccess? then now else call.now
  }

  function Advance(r: Run, call: Call): Option<Run> {
    if TimeOf(call, r.now) < r.now then None
    else Some(Run(Apply(r.s, call), TimeOf(call, r.now), r.log + Happened(r.s, call)))
  }

  function RunOf(start: real, calls: seq<Call>): Option<Run> {
    if calls == [] then Some(Run(State(map[], []), start, []))
    else
      match RunOf(start, calls[..|calls| - 1])
      case None => None
      case Some(r) => Advance(r, calls[|calls| - 1])
  }

  /** The account, unless it is more than an hour old. */
  function Live(account: Option<Entry>, now: real): Option<Entry> {
    if account.Some? && now - account.value.last > FAILURE_TTL then None else account
  }

  predicate Chronological(log: seq<Event>, now: real) {
    && (forall i :: 0 <= i < |log| && log[i].Failed? ==> log[i].at <= now)
    && forall i, j :: 0 <= i < j < |log| && log[i].Failed? && log[j].Failed? ==> log[i].at <= log[j].at
  }

  /** The throttle holds what the log says, as of `now`: exactly the addresses
      that failed within the last hour and did not succeed since, and exactly
      the failures of the last fifteen minutes. */
  ghost predicate Exact(s: State, log: seq<Event>, now: real) {
    && (forall c: Client :: Lookup(s.failures, c) == Live(Account(log, c), now))
    && s.recent == Since(log, now - GLOBAL_WINDOW)
  }

  /** Three failures are free; the fourth costs five seconds, each further one
      twice as much, and none more than fifteen minutes. */
  lemma PenaltySays(fails: nat)
    ensures fails <= 3 ==> Penalty(fails) == 0.0
    ensures fails == 4 ==> Penalty(fails) == 5.0
    ensures fails >= 4 ==> Penalty(fails + 1) == if 2.0 * Penalty(fails) < 900.0 then 2.0 * Penalty(fails) else 900.0
  {
    if fails >= 4 {
      var p := Pow2(fails - 4) as real;
      assert Pow2(fails - 3) as real == 2.0 * p;
      assert 5.0 * (2.0 * p) == 2.0 * (5.0 * p);
    }
  }

  /** A failure counts on from the last one if that was within the hour, and
      otherwise from one; a success wipes the slate; others' calls do not count. */
  lemma AccountSays(log: seq<Event>, client: Client, e: Event)
    ensures var before, after := Account(log, client), Account(log + [e], client);
      match e
      case Cleared(c) => after == if c == client then None else before
      case Failed(c, at) =>
        if c != client then after == before
        else
          && after.Some? && after.value.last == at && after.value.until == at + Penalty(after.value.fails)
          && after.value.fails == if before.Some? && at - before.value.last <= 3600.0 then before.value.fails + 1 else 1
  {
    assert (log + [e])[..|log|] == log;
  }

  /** An address is remembered exactly while its last failure is at most an hour old. */
  lemma RememberedForAnHour(s: State, log: seq<Event>, now: real, client: Client)
    requires Exact(s, log, now)
    ensures client in s.failures <==>
              Account(log, client).Some? && now - Account(log, client).value.last <= 3600.0
    ensures client in s.failures ==> Some(s.failures[client]) == Account(log, client)
  {
    assert Lookup(s.failures, client) == Live(Account(log, client), now);
  }

  // ---- every run is exact ------------------------------------------------

  lemma {:induction false} AccountIsPast(log: seq<Event>, now: real, client: Client)
    requires Chronological(log, now) && Account(log, client).Some?
    ensures var e := Account(log, client).value; e.last <= now && e.fails >= 1 && e.until == e.last + Penalty(e.fails)
  {
    if log != [] && Account(log[..|log| - 1], client).Some? {
      AccountIsPast(log[..|log| - 1], now, client);
    }
  }

  lemma DropOneMore(times: seq<real>, last: real, cutoff: real)
    ensures DropBefore(times + [last], cutoff) ==
            if DropBefore(times, cutoff) == [] then DropBefore([last], cutoff) else DropBefore(times, cutoff) + [last]
  {
    if times == [] {
      assert times + [last] == [last];
    } else if times[0] < cutoff {
      assert (times + [last])[1..] == times[1..] + [last];
      DropOneMore(times[1..], last, cutoff);
    }
  }

  lemma {:induction false} SinceIsBounded(log: seq<Event>, now: real, cutoff: real)
    requires Chronological(log, now)
    ensures forall i :: 0 <= i < |Since(log, cutoff)| ==> cutoff <= Since(log, cutoff)[i] <= now
    ensures forall i, j :: 0 <= i < j < |Since(log, cutoff)| ==> Since(log, cutoff)[i] <= Since(log, cutoff)[j]
  {
    if log != [] {
      var n := |log| - 1;
      SinceIsBounded(log[..n], if log[n].Failed? then log[n].at else now, cutoff);
    }
  }

  lemma SinceGrows(log: seq<Event>, cutoff: real)
    requires log != []
    ensures var last := log[|log| - 1]; var before := Since(log[..|log| - 1], cutoff);
            Since(log, cutoff) == if last.Failed? && last.at >= cutoff then before + [last.at] else before
  {
  }

  /** Dropping the old head of a chronological list leaves the recent ones. */
  lemma {:induction false} DroppingIsFiltering(log: seq<Event>, now: real, c1: real, c2: real)
    requires Chronological(log, now) && c1 <= c2
    ensures DropBefore(Since(log, c1), c2) == Since(log, c2)
  {
    if log != [] {
      var n := |log| - 1;
      var last := log[n];
      DroppingIsFiltering(log[..n], now, c1, c2);
      LastIsLatest(log, now, c2);
      SinceGrows(log, c1);
      SinceGrows(log, c2);
      hide Since;
      if last.Failed? && last.at >= c1 {
        DropOneMore(Since(log[..n], c1), last.at, c2);
      }
    }
  }

  lemma LastIsLatest(log: seq<Event>, now: real, cutoff: real)
    requires Chronological(log, now) && log != []
    ensures var last := log[|log| - 1]; last.Failed? && last.at < cutoff ==> Since(log[..|log| - 1], cutoff) == []
  {
    var last := log[|log| - 1];
    if last.Failed? {
      var before := Since(log[..|log| - 1], cutoff);
      SinceIsBounded(log[..|log| - 1], last.at, cutoff);
      assert before != [] ==> cutoff <= before[0] <= last.at;
    }
  }

  lemma PruneIsExact(s: State, log: seq<Event>, before: real, now: real)
    requires Exact(s, log, before) && Chronological(log, before) && before <= now
    ensures Exact(Prune(s, now), log, now)
  {
    DroppingIsFiltering(log, before, before - GLOBAL_WINDOW, now - GLOBAL_WINDOW);
    forall c: Client ensures Lookup(Prune(s, now).failures, c) == Live(Account(log, c), now) {
      assert Lookup(s.failures, c) == Live(Account(log, c), before);
    }
  }

  lemma NoteIsExact(s: State, log: seq<Event>, client: Client, now: real)
    requires Exact(s, log, now) && Chronological(log, now)
    ensures var more := log + [Failed(client, now)]; var entry := Next(Lookup(s.failures, client), now);
      && Exact(State(s.failures[client := entry], s.recent + [now]), more, now)
      && Account(more, client) == Some(entry)
  {
    var more := log + [Failed(client, now)];
    assert more[..|more| - 1] == log;
    assert Lookup(s.failures, client) == Live(Account(log, client), now);
    forall c: Client | c != client ensures Account(more, c) == Account(log, c) {
    }
  }

  lemma ClearIsExact(s: State, log: seq<Event>, client: Client, now: real)
    requires Exact(s, log, now)
    ensures Exact(s.(failures := s.failures - {client}), log + [Cleared(client)], now)
  {
    var more := log + [Cleared(client)];
    assert more[..|more| - 1] == log;
    assert Since(more, now - GLOBAL_WINDOW) == Since(log, now - GLOBAL_WINDOW);
    forall c: Client ensures Lookup(s.failures - {client}, c) == Live(Account(more, c), now) {
      assert Lookup(s.failures, c) == Live(Account(log, c), now);
    }
  }

  lemma AdvanceIsExact(r: Run, call: Call)
    requires Exact(r.s, r.log, r.now) && Chronological(r.log, r.now) && Advance(r, call).Some?
    ensures var q := Advance(r, call).value; Exact(q.s, q.log, q.now) && Chronological(q.log, q.now)
  {
    match call {
      case NoteSuccess(client) => ClearIsExact(r.s, r.log, client, r.now);
      case NoteFailure(client, now) =>
        PruneIsExact(r.s, r.log, r.now, now);
        NoteIsExact(Prune(r.s, now), r.log, client, now);
        assert r.log + [] == r.log;
      case Lockout(_, now) => PruneIsExact(r.s, r.log, r.now, now); assert r.log + [] == r.log;
      case Pause(now) => PruneIsExact(r.s, r.log, r.now, now); assert r.log + [] == r.log;
    }
  }

  /** After any run of calls, with attempts from any addresses interleaved. */
  lemma {:induction false} EveryRunIsExact(start: real, calls: seq<Call>, r: Run)
    requires RunOf(start, calls) == Some(r)
    ensures Exact(r.s, r.log, r.now) && Chronological(r.log, r.now)
    decreases |calls|
  {
    if calls == [] {
      assert forall c: Client :: Account([], c) == None;
    } else {
      var before := RunOf(start, calls[..|calls| - 1]).value;
      EveryRunIsExact(start, calls[..|calls| - 1], before);
      AdvanceIsExact(before, calls[|calls| - 1]);
    }
  }

  /** What a caller is told is what the whole log says, pruning or no pruning:
      the wait is what is left of the last lockout, at most fifteen minutes, and
      the pause is on exactly when twenty failures are that recent. */
  lemma PruningIsInvisible(start: real, calls: seq<Call>, r: Run, client: Client, now: real)
    requires RunOf(start, calls) == Some(r) && now >= r.now
    ensures var account := Account(r.log, client);
      Wait(Prune(r.s, now).failures, client, now) ==
      if account.Some? && account.value.until > now then account.value.until - now else 0.0
    ensures Wait(Prune(r.s, now).failures, client, now) <= 900.0
    ensures Prune(r.s, now).recent == Since(r.log, now - 900.0)
    ensures forall i, j :: 0 <= i < j < |Prune(r.s, now).recent| ==>
            Prune(r.s, now).recent[i] <= Prune(r.s, now).recent[j]
  {
    EveryRunIsExact(start, calls, r);
    hide RunOf;
    hide Account;
    hide Since;
    hide Prune;
    hide Wait;
    hide Exact;
    hide Chronological;
    WaitIsUnpruned(r.s, r.log, r.now, client, now);
    RecentIsUnpruned(r.s, r.log, r.now, now);
  }

  lemma WaitIsUnpruned(s: State, log: seq<Event>, before: real, client: Client, now: real)
    requires Exact(s, log, before) && Chronological(log, before) && before <= now
    ensures var account := Account(log, client);
      Wait(Prune(s, now).failures, client, now) ==
      if account.Some? && account.value.until > now then account.value.until - now else 0.0
    ensures Wait(Prune(s, now).failures, client, now) <= 900.0
  {
    PruneIsExact(s, log, before, now);
    assert Lookup(Prune(s, now).failures, client) == Live(Account(log, client), now);
    hide Account;
    hide Prune;
    hide Exact;
    hide Chronological;
    if Account(log, client).Some? {
      AccountIsPast(log, before, client);
    }
  }

  lemma RecentIsUnpruned(s: State, log: seq<Event>, before: real, now: real)
    requires Exact(s, log, before) && Chronological(log, before) && before <= now
    ensures Prune(s, now).recent == Since(log, now - 900.0)
    ensures forall i, j :: 0 <= i < j < |Prune(s, now).recent| ==> Prune(s, now).recent[i] <= Prune(s, now).recent[j]
  {
    PruneIsExact(s, log, before, now);
    SinceIsBounded(log, before, now - GLOBAL_WINDOW);
    hide Account;
    hide Prune;
    hide Since;
  }

  // ---- how many guesses one address gets -----------------------------------

  /** A run watched from one address: every wrong password it got to try was let
      in by a lockout check since its last one, and none was right. `lost`
      counts the tries that raised instead of being recorded. */
  datatype Watch = Watch(r: Run, admitted: bool, tries: seq<real>, lost: nat)

  function Observe(w: Watch, client: Client, call: Call): Option<Watch> {
    match Advance(w.r, call)
    case None => None
    case Some(r) =>
      if call.Pause? || call.client != client then Some(w.(r := r))
      else
        match call
        case Lockout(_, now) => Some(w.(r := r, admitted := Wait(r.s.failures, client, now) == 0.0))
        case NoteSuccess(_) => None
        case NoteFailure(_, now) =>
          if !w.admitted then None
          else Some(Watch(r, false, w.tries + [now], w.lost + if Raises(w.r.s, call) then 1 else 0))
  }

  function Watched(start: real, client: Client, calls: seq<Call>): Option<Watch> {
    if calls == [] then Some(Watch(Run(State(map[], []), start, []), false, [], 0))
    else
      match Watched(start, client, calls[..|calls| - 1])
      case None => None
      case Some(w) => Observe(w, client, calls[|calls| - 1])
  }

  /** The least time from the first of `fails` failures in a row to the last. */
  function Climb(fails: nat): real {
    if fails <= 1 then 0.0 else Climb(fails - 1) + Penalty(fails - 1)
  }

  /** How far the tries so far may be ahead of one per five minutes, given the
      length of the present streak. */
  ghost predicate Paced(w: Watch, streak: nat)
    requires w.tries != []
  {
    300.0 * (|w.tries| as real) - (w.tries[|w.tries| - 1] - w.tries[0]) <= 300.0 * (streak as real) - Climb(streak)
  }

  ghost predicate WatchInv(w: Watch, client: Client) {
    && Exact(w.r.s, w.r.log, w.r.now) && Chronological(w.r.log, w.r.now)
    && (w.lost == 0 ==>
          var account := Account(w.r.log, client);
          if w.tries == [] then account == None
          else
            && account.Some? && account.value.last == w.tries[|w.tries| - 1] && Paced(w, account.value.fails)
            && (w.admitted ==> w.r.now >= account.value.until))
  }

  lemma Doublings()
    ensures Penalty(4) == 5.0 && Penalty(5) == 10.0 && Penalty(6) == 20.0 && Penalty(7) == 40.0
    ensures Penalty(8) == 80.0 && Penalty(9) == 160.0 && Penalty(10) == 320.0 && Penalty(11) == 640.0
  {
    assert Pow2(0) == 1 && Pow2(1) == 2 && Pow2(2) == 4 && Pow2(3) == 8;
    assert Pow2(4) == 16 && Pow2(5) == 32 && Pow2(6) == 64 && Pow2(7) == 128;
  }

  lemma {:induction false} LongStreaksWait(fails: nat)
    requires fails >= 12
    ensures Pow2(fails - 4) >= 256 && Penalty(fails) == 900.0
  {
    if fails == 12 {
      assert Pow2(4) == 16 && Pow2(6) == 64 && Pow2(8) == 256;
    } else {
      LongStreaksWait(fails - 1);
    }
  }

  lemma FirstClimbs()
    ensures Climb(4) == 0.0 && Climb(10) == 315.0 && Climb(12) == 1275.0
    ensures forall f: nat :: 1 <= f <= 12 ==> 300.0 * (f as real) - Climb(f) <= 2685.0
  {
    Doublings();
    assert Climb(1) == 0.0 && Climb(2) == 0.0 && Climb(3) == 0.0 && Climb(4) == 0.0;
    assert Climb(5) == 5.0 && Climb(6) == 15.0 && Climb(7) == 35.0 && Climb(8) == 75.0;
    assert Climb(9) == 155.0 && Climb(10) == 315.0 && Climb(11) == 635.0 && Climb(12) == 1275.0;
  }

  /** No streak gets further ahead than its tenth try. */
  lemma {:induction false} BestStreak(fails: nat)
    requires fails >= 1
    ensures 300.0 * (fails as real) - Climb(fails) <= 2685.0
  {
    FirstClimbs();
    if fails > 12 {
      BestStreak(fails - 1);
      LongStreaksWait(fails - 1);
    }
  }

  lemma TryKeepsPace(w: Watch, client: Client, now: real)
    requires WatchInv(w, client) && w.lost == 0 && w.admitted && now >= w.r.now
    requires !Raises(w.r.s, NoteFailure(client, now))
    ensures WatchInv(Observe(w, client, NoteFailure(client, now)).value, client)
  {
    var call := NoteFailure(client, now);
    AdvanceIsExact(w.r, call);
    PruneIsExact(w.r.s, w.r.log, w.r.now, now);
    NoteIsExact(Prune(w.r.s, now), w.r.log, client, now);
    var account := Account(w.r.log, client);
    assert Lookup(Prune(w.r.s, now).failures, client) == Live(account, now);
    if w.tries != [] {
      AccountIsPast(w.r.log, w.r.now, client);
      BestStreak(account.value.fails);
    }
  }

  lemma ObserveKeeps(w: Watch, client: Client, call: Call)
    requires WatchInv(w, client) && Observe(w, client, call).Some?
    ensures WatchInv(Observe(w, client, call).value, client)
  {
    if call.NoteFailure? && call.client == client {
      AdvanceIsExact(w.r, call);
      if w.lost == 0 && !Raises(w.r.s, call) {
        TryKeepsPace(w, client, call.now);
      }
    } else {
      OthersKeep(w, client, call);
    }
    hide WatchInv;
  }

  lemma OthersKeep(w: Watch, client: Client, call: Call)
    requires WatchInv(w, client) && Observe(w, client, call).Some?
    requires !call.NoteFailure? || call.client != client
    ensures WatchInv(Observe(w, client, call).value, client)
  {
    AdvanceIsExact(w.r, call);
    OthersDoNotCount(w.r, client, call);
    hide Account;
    hide Exact;
    hide Chronological;
    hide Advance;
    if call.Lockout? && call.client == client && Account(w.r.log, client).Some? {
      AdmittedIsPastTheLockout(w, client, call);
    }
  }

  lemma AdmittedIsPastTheLockout(w: Watch, client: Client, call: Call)
    requires WatchInv(w, client) && call.Lockout? && call.client == client && Advance(w.r, call).Some?
    requires Account(w.r.log, client).Some?
    ensures var r := Advance(w.r, call).value;
      Wait(r.s.failures, client, call.now) == 0.0 ==> r.now >= Account(w.r.log, client).value.until
  {
    AdvanceIsExact(w.r, call);
    OthersDoNotCount(w.r, client, call);
    AccountIsPast(w.r.log, w.r.now, client);
    hide Account;
    hide Chronological;
    hide Prune;
    hide Observe;
    var r := Advance(w.r, call).value;
    assert Lookup(r.s.failures, client) == Live(Account(r.log, client), r.now);
  }

  lemma OthersDoNotCount(r: Run, client: Client, call: Call)
    requires Advance(r, call).Some?
    requires call.Lockout? || call.Pause? || call.client != client
    ensures Account(Advance(r, call).value.log, client) == Account(r.log, client)
  {
    var more := r.log + Happened(r.s, call);
    if Happened(r.s, call) == [] {
      assert more == r.log;
    } else {
      assert more[..|more| - 1] == r.log;
    }
  }

  lemma {:induction false} WatchedKeeps(start: real, client: Client, calls: seq<Call>, w: Watch)
    requires Watched(start, client, calls) == Some(w)
    ensures WatchInv(w, client)
    decreases |calls|
  {
    if calls == [] {
      assert forall c: Client :: Account([], c) == None;
    } else {
      var before := Watched(start, client, calls[..|calls| - 1]).value;
      WatchedKeeps(start, client, calls[..|calls| - 1], before);
      ObserveKeeps(before, client, calls[|calls| - 1]);
    }
  }

  /** However one address spaces its wrong passwords, and whatever other
      addresses do meanwhile, it gets at most (2685 + T)/300 of them recorded in
      any run of T seconds from its first to its last: under 9 + T/300. */
  lemma GuessesAreBounded(start: real, client: Client, calls: seq<Call>, w: Watch)
    requires Watched(start, client, calls) == Some(w) && w.tries != [] && w.lost == 0
    ensures var elapsed := w.tries[|w.tries| - 1] - w.tries[0];
      && 300.0 * (|w.tries| as real) <= 2685.0 + elapsed
      && (|w.tries| as real) <= 12.0 + elapsed / 300.0
  {
    WatchedKeeps(start, client, calls, w);
    AccountIsPast(w.r.log, w.r.now, client);
    BestStreak(Account(w.r.log, client).value.fails);
  }

  // ---- the bound is met, and where it ends ---------------------------------

  /** The fastest streak: a try the moment each lockout ends. */
  lemma {:induction false} Fastest(client: Client, n: nat) returns (calls: seq<Call>, w: Watch)
    requires 1 <= n < FREE_ATTEMPTS + 1 + FLOAT_EXPONENTS
    ensures Watched(0.0, client, calls) == Some(w) && w.lost == 0 && |w.tries| == n
    ensures w.tries[0] == 0.0 && w.tries[n - 1] == Climb(n) == w.r.now && !w.admitted
    ensures Account(w.r.log, client) == Some(Entry(n, Climb(n) + Penalty(n), Climb(n)))
  {
    hide Watched;
    hide WatchInv;
    hide Account;
    if n == 1 {
      var w0 := NothingYet(client);
      calls, w := TryAt(client, [], w0, 0.0);
    } else {
      var before, v := Fastest(client, n - 1);
      assert v.tries[0] == 0.0;
      WatchedKeeps(0.0, client, before, v);
      calls, w := TryAt(client, before, v, Climb(n));
    }
  }

  lemma NothingYet(client: Client) returns (w: Watch)
    ensures Watched(0.0, client, []) == Some(w) && WatchInv(w, client) && w.r.now == 0.0
    ensures w.tries == [] && w.lost == 0 && Account(w.r.log, client) == None
  {
    w := Watch(Run(State(map[], []), 0.0, []), false, [], 0);
    WatchedKeeps(0.0, client, [], w);
  }

  /** A check and a wrong password at `now`, once the lockout is over. */
  lemma TryAt(client: Client, calls: seq<Call>, w: Watch, now: real) returns (more: seq<Call>, v: Watch)
    requires Watched(0.0, client, calls) == Some(w) && WatchInv(w, client) && now >= w.r.now
    requires var account := Account(w.r.log, client);
      account.Some? ==> account.value.until <= now <= account.value.last + FAILURE_TTL
    ensures Watched(0.0, client, more) == Some(v) && v.r.now == now && !v.admitted && v.tries == w.tries + [now]
    ensures var entry := Next(Account(w.r.log, client), now);
      if Overflows(entry.fails) then v.lost == w.lost + 1 && v.r.log == w.r.log
      else v.lost == w.lost && Account(v.r.log, client) == Some(entry)
  {
    var check, fail := Lockout(client, now), NoteFailure(client, now);
    AdvanceIsExact(w.r, check);
    var u := Observe(w, client, check).value;
    assert w.r.log + [] == w.r.log;
    assert Lookup(u.r.s.failures, client) == Live(Account(w.r.log, client), now);
    PruneIsExact(u.r.s, u.r.log, now, now);
    assert Lookup(Prune(u.r.s, now).failures, client) == Live(Account(w.r.log, client), now);
    v := Observe(u, client, fail).value;
    NoteIsExact(Prune(u.r.s, now), u.r.log, client, now);
    assert (calls + [check])[..|calls|] == calls;
    assert (calls + [check] + [fail])[..|calls| + 1] == calls + [check];
    more := calls + [check] + [fail];
  }

  /** Ten tries in 315 seconds: the bound cannot be lowered. */
  lemma BoundIsMet(client: Client) returns (calls: seq<Call>, w: Watch)
    ensures Watched(0.0, client, calls) == Some(w) && w.lost == 0 && w.tries != []
    ensures 300.0 * (|w.tries| as real) == 2685.0 + (w.tries[|w.tries| - 1] - w.tries[0])
  {
    FirstClimbs();
    calls, w := Fastest(client, 10);
  }

  lemma {:induction false} FreeTries(client: Client, calls: seq<Call>, w: Watch, more: nat)
    returns (after: seq<Call>, v: Watch)
    requires Watched(0.0, client, calls) == Some(w)
    requires var account := Account(w.r.log, client);
      account.Some? && Overflows(account.value.fails + 1)
          && account.value.until <= w.r.now <= account.value.last + FAILURE_TTL
    ensures Watched(0.0, client, after) == Some(v) && |v.tries| == |w.tries| + more && v.lost == w.lost + more
    ensures v.r.now == w.r.now && w.tries <= v.tries && (more > 0 ==> v.tries[|v.tries| - 1] == w.r.now)
    decreases more
  {
    hide Watched;
    hide WatchInv;
    hide Account;
    after, v := calls, w;
    if more > 0 {
      WatchedKeeps(0.0, client, calls, w);
      var calls1, w1 := TryAt(client, calls, w, w.r.now);
      after, v := FreeTries(client, calls1, w1, more - 1);
    }
  }

  /** A failure that would be the 1028th in a row is not recorded but raises,
      and exactly those are not recorded. */
  lemma LostExactlyPast1027(start: real, calls: seq<Call>, r: Run, client: Client, now: real)
    requires RunOf(start, calls) == Some(r) && now >= r.now
    ensures var account := Live(Account(r.log, client), now);
      Raises(r.s, NoteFailure(client, now)) <==> account.Some? && account.value.fails >= 1027
  {
    EveryRunIsExact(start, calls, r);
    PruneIsExact(r.s, r.log, r.now, now);
    assert Lookup(Prune(r.s, now).failures, client) == Live(Account(r.log, client), now);
  }

  /** So the bound needs every try to be recorded: past 1027 in a row, any number
      more fit in no time at all. */
  lemma BoundEndsWithRecording(client: Client, more: nat) returns (calls: seq<Call>, w: Watch)
    ensures Watched(0.0, client, calls) == Some(w) && |w.tries| == 1027 + more && w.lost == more
    ensures w.tries[0] == 0.0 && w.tries[|w.tries| - 1] <= Climb(1027) + 900.0
  {
    hide Watched;
    hide WatchInv;
    hide Account;
    var before, v := Fastest(client, 1027);
    assert v.tries[0] == 0.0;
    LongStreaksWait(1027);
    var waited, u := WaitUntil(client, before, v, Climb(1027) + 900.0);
    calls, w := FreeTries(client, waited, u, more);
  }

  lemma WaitUntil(client: Client, calls: seq<Call>, w: Watch, later: real) returns (waited: seq<Call>, u: Watch)
    requires Watched(0.0, client, calls) == Some(w) && later >= w.r.now
    ensures Watched(0.0, client, waited) == Some(u) && u.r.now == later && u.r.log == w.r.log && u.tries == w.tries
            && u.lost == w.lost
  {
    waited := calls + [Pause(later)];
    assert waited[..|calls|] == calls;
    assert w.r.log + [] == w.r.log;
    u := Observe(w, client, Pause(later)).value;
  }
}
