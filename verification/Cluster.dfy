/** Any number of updater processes on one instance: they interleave command by
    command, may be killed anywhere, even in the middle of a command, what a
    command started may go on after its answer, and the host may lose power. */
module Cluster {
  import opened Base
  import opened Approval
  import opened RunMachine
  import opened RunProperties
  import opened RunText
  import Lockfile
  import Text
  import Versions

  /** One process between acquiring the instance lock and letting go of it: the
      world it found, what it has done since, where it is, and whether something
      an earlier command left going has changed anything meanwhile. */
  datatype Section = Section(call: Call, start: World, es: seq<Event>, pc: Pc, disturbed: bool)

  /** How the lock file came to read as it does: each replacement, and each
      power loss that may have brought back an earlier text. */
  datatype Entry = Wrote(from: string, to: string, job: Job) | Lost(from: string, to: string)

  /** `owner` is the process holding the flock; `survivors` the texts the lock
      may read as after a power loss now; `strays` counts what goes on
      although the command that started it has been answered, or its updater
      killed. */
  datatype State = State(world: World, survivors: set<string>, owner: Option<nat>, sections: map<nat, Section>,
      strays: nat, log: seq<Entry>)

  /** A command may linger after its answer, and a kill may leave one behind;
      what it still does to the containers or the schema, and when, is anyone's
      guess. It cannot touch the lock file, which only updaters rename. */
  datatype Action =
    | Acquire(p: nat, call: Call)
    | Act(p: nat, e: Event, lingers: bool)
    | Release(p: nat)
    | Kill(p: nat, inCommand: bool)
    | Stray(running: Running, db: string)
    | StrayEnds
    | PowerLoss(running: Running, lock: string)

  /** A command given up on at its timeout has lost its client, not its container;
      and whatever starts containers starts their own migrators, which run before
      anything is served. */
  predicate MayLinger(e: Event) {
    || e.Up? || e.RestartAll?
    || (e.Migrate? && e.exit != 0 && e.exit != GATE_BLOCKED && e.exit != GATE_NO_BACKUP)
    || (e.Backup? && e.exit != 0)
    || (e.Pull? && !e.ok)
  }

  /** Between the start of such a command and its answer. */
  predicate AtCommand(pc: Pc) {
    pc.BackingUp? || pc.Pulling? || pc.Migrating? || pc.Recreating? || pc.Restarting? || pc.Undoing?
  }

  predicate LeavesBehind(a: Action) {
    (a.Act? && a.lingers) || (a.Kill? && a.inCommand)
  }

  function Without(owner: Option<nat>, p: nat): Option<nat> {
    if owner == Some(p) then None else owner
  }

  function Disturb(sections: map<nat, Section>): map<nat, Section> {
    map p | p in sections :: sections[p].(disturbed := true)
  }

  /** What one action does; None where it cannot happen. The only guard on
      entering is the flock itself. */
  function Next(cfg: Config, s: State, a: Action): Option<State> {
    match a
    case Acquire(p, call) =>
      if p in s.sections || !IsRunId(call.runId) then None
      else if s.owner.Some? then Some(s)
      else Some(s.(owner := Some(p), sections := s.sections[p := Section(call, s.world, [], Reading(call), false)]))
    case Act(p, e, lingers) =>
      if p !in s.sections || (e.ReadLock? && e.text != s.world.lock) || (lingers && !MayLinger(e)) then None
      else
        var section := s.sections[p];
        (match Step(cfg, section.pc, e)
         case None => None
         case Some(pc) =>
           Some(s.(world := Do(s.world, e),
                   survivors := if e.Rename? then s.survivors + {e.text}
                                else if e == SyncDir(true) then {s.world.lock} else s.survivors,
                   sections := s.sections[p := section.(es := section.es + [e], pc := pc)],
                   strays := s.strays + if lingers then 1 else 0,
                   log := if e.Rename? && section.pc.Committing?
                          then s.log + [Wrote(s.world.lock, e.text, section.pc.job)] else s.log)))
    case Release(p) =>
      if p !in s.sections || !s.sections[p].pc.Done? then None
      else Some(s.(owner := Without(s.owner, p), sections := s.sections - {p}))
    case Kill(p, inCommand) =>
      if p !in s.sections || (inCommand && !AtCommand(s.sections[p].pc)) then None
      else Some(s.(owner := Without(s.owner, p), sections := s.sections - {p},
                   strays := s.strays + if inCommand then 1 else 0))
    case Stray(running, db) =>
      if s.strays == 0 then None
      else Some(s.(world := s.world.(running := running, db := db), sections := Disturb(s.sections)))
    case StrayEnds => if s.strays == 0 then None else Some(s.(strays := s.strays - 1))
    case PowerLoss(running, lock) =>
      if lock !in s.survivors then None
      else Some(State(s.world.(running := running, lock := lock), {lock}, None, map[], 0,
                      s.log + [Lost(s.world.lock, lock)]))
  }

  function Reach(cfg: Config, s: State, actions: seq<Action>): Option<State> {
    if actions == [] then Some(s)
    else
      match Reach(cfg, s, actions[..|actions| - 1])
      case None => None
      case Some(t) => Next(cfg, t, actions[|actions| - 1])
  }

  /** One process's commands in a row, none of them lingering. */
  function InARow(p: nat, es: seq<Event>): (actions: seq<Action>)
    ensures |actions| == |es|
  {
    seq(|es|, i requires 0 <= i < |es| => Act(p, es[i], false))
  }

  lemma ReachOne(cfg: Config, s: State, a: Action)
    ensures Reach(cfg, s, [a]) == Next(cfg, s, a)
  {
    assert [a][..0] == [] && Reach(cfg, s, []) == Some(s);
  }

  predicate Initial(s: State) {
    s.owner == None && s.sections == map[] && s.survivors == {s.world.lock} && s.strays == 0 && s.log == []
  }

  // ---- what every interleaving keeps -------------------------------------

  /** A process inside has the instance to itself. */
  ghost predicate Alone(cfg: Config, s: State) {
    forall p :: p in s.sections ==> s.owner == Some(p) && HasItsWay(cfg, s, s.sections[p])
  }

  /** The lock file is exactly what its own run made of what it found, and so is
      everything else unless a stray command has interfered. */
  ghost predicate HasItsWay(cfg: Config, s: State, section: Section) {
    && RunOf(cfg, section.call, section.start, section.es, section.pc) && IsRunId(section.call.runId)
    && s.world.lock == DoAll(section.start, section.es).lock
    && (!section.disturbed ==> s.world == DoAll(section.start, section.es))
    && (section.pc.Done? && section.pc.outcome == Succeeded && section.call.request.action != Restart ==>
       s.survivors == {s.world.lock})
  }

  /** A replacement starts from a lock that reads, and puts the images it
      replaced where `previous` is read from. */
  ghost predicate NoLostUpdate(entry: Entry) {
    entry.Wrote? ==>
      && Lockfile.Read(entry.from) == Ok(entry.job.st) && Lockfile.Read(entry.to) == Recorded(entry.job)
      && (entry.job.call.request.action == Upgrade && !entry.job.call.request.allowDowngrade ==>
            !Versions.IsDowngrade(entry.job.target.ExpectedVersion(), entry.job.st.current.ExpectedVersion()))
  }

  /** Each entry starts from the text the one before it left. */
  predicate Chained(first: string, log: seq<Entry>, now: string) {
    if log == [] then now == first
    else now == log[|log| - 1].to && Chained(first, log[..|log| - 1], log[|log| - 1].from)
  }

  ghost predicate Inv(cfg: Config, first: string, s: State) {
    && Alone(cfg, s) && s.world.lock in s.survivors && Chained(first, s.log, s.world.lock)
    && forall i :: 0 <= i < |s.log| ==> NoLostUpdate(s.log[i])
  }

  lemma RunGrows(cfg: Config, section: Section, e: Event, lock: string)
    requires RunOf(cfg, section.call, section.start, section.es, section.pc)
             && lock == DoAll(section.start, section.es).lock
    requires Step(cfg, section.pc, e).Some? && (e.ReadLock? ==> e.text == lock)
    ensures RunOf(cfg, section.call, section.start, section.es + [e], Step(cfg, section.pc, e).value)
    ensures DoAll(section.start, section.es + [e]) == Do(DoAll(section.start, section.es), e)
  {
    var es := section.es + [e];
    assert es[..|es| - 1] == section.es;
    assert forall i :: 0 <= i < |section.es| ==> es[..i] == section.es[..i];
  }

  lemma RenameIsLinked(cfg: Config, section: Section, text: string, lock: string)
    requires cfg.format == LOCK_TEXT && section.pc.Committing? && IsRunId(section.call.runId)
    requires RunOf(cfg, section.call, section.start, section.es, section.pc)
             && lock == DoAll(section.start, section.es).lock
    requires Step(cfg, section.pc, Rename(text)).Some?
    ensures NoLostUpdate(Wrote(lock, text, section.pc.job))
  {
    RunIsAt(cfg, section.call, section.start, section.es, section.pc);
    ActsFrom(cfg, section.pc, Rename(text));
    hide Step;
    RenderedReads(cfg, section.call, section.start, section.pc.job);
  }

  lemma SectionKeeps(cfg: Config, s: State, p: nat, e: Event, lingers: bool)
    requires p in s.sections && HasItsWay(cfg, s, s.sections[p]) && Next(cfg, s, Act(p, e, lingers)).Some?
    ensures var t := Next(cfg, s, Act(p, e, lingers)).value; HasItsWay(cfg, t, t.sections[p])
  {
    var section := s.sections[p];
    RunGrows(cfg, section, e, s.world.lock);
    SuccessIsSynced(cfg, section, e);
    LockMoves(s.world, e);
    LockMoves(DoAll(section.start, section.es), e);
    hide Step;
    hide Do;
    hide RunOf;
  }

  lemma SuccessIsSynced(cfg: Config, section: Section, e: Event)
    requires RunOf(cfg, section.call, section.start, section.es, section.pc) && Step(cfg, section.pc, e).Some?
    ensures var pc := Step(cfg, section.pc, e).value;
            pc.Done? && pc.outcome == Succeeded && section.call.request.action != Restart ==> e == SyncDir(true)
  {
    RunIsAt(cfg, section.call, section.start, section.es, section.pc);
    SuccessComesFrom(cfg, section.pc, e);
    hide Step;
    hide RunOf;
  }

  lemma SuccessComesFrom(cfg: Config, pc: Pc, e: Event)
    requires Step(cfg, pc, e).Some?
    ensures Step(cfg, pc, e).value.Done? && Step(cfg, pc, e).value.outcome == Succeeded ==>
      e == SyncDir(true) || (pc.Healing? && pc.job.call.request.action == Restart)
  {
  }

  lemma ChainGrows(first: string, log: seq<Entry>, now: string, entry: Entry)
    requires Chained(first, log, now) && entry.from == now
    ensures Chained(first, log + [entry], entry.to)
  {
    assert (log + [entry])[..|log|] == log;
  }

  lemma ActEffect(cfg: Config, s: State, p: nat, e: Event, lingers: bool)
    requires Next(cfg, s, Act(p, e, lingers)).Some?
    ensures p in s.sections && Step(cfg, s.sections[p].pc, e).Some?
    ensures var t := Next(cfg, s, Act(p, e, lingers)).value;
      && t.world == Do(s.world, e)
      && (if e.Rename? then t.survivors == s.survivors + {e.text}
          else t.survivors == s.survivors || t.survivors == {s.world.lock})
      && t.log == if e.Rename? && s.sections[p].pc.Committing?
                  then s.log + [Wrote(s.world.lock, e.text, s.sections[p].pc.job)] else s.log
  {
    hide Step;
  }

  lemma LockMoves(w: World, e: Event)
    ensures Do(w, e).lock == if e.Rename? then e.text else w.lock
  {
  }

  /** The log grows by exactly the replacements, each linked to what it replaced. */
  lemma LogKeeps(cfg: Config, first: string, s: State, p: nat, e: Event, lingers: bool)
    requires cfg.format == LOCK_TEXT && Inv(cfg, first, s) && Next(cfg, s, Act(p, e, lingers)).Some?
    ensures var t := Next(cfg, s, Act(p, e, lingers)).value;
      && t.world.lock in t.survivors && Chained(first, t.log, t.world.lock)
      && forall i :: 0 <= i < |t.log| ==> NoLostUpdate(t.log[i])
  {
    hide Step;
    hide Do;
    hide NoLostUpdate;
    hide Chained;
    hide RunOf;
    ActEffect(cfg, s, p, e, lingers);
    hide Next;
    LockMoves(s.world, e);
    var section := s.sections[p];
    assert HasItsWay(cfg, s, section);
    if e.Rename? {
      ActsFrom(cfg, section.pc, e);
      RenameIsLinked(cfg, section, e.text, s.world.lock);
      ChainGrows(first, s.log, s.world.lock, Wrote(s.world.lock, e.text, section.pc.job));
    }
  }

  lemma ActKeeps(cfg: Config, first: string, s: State, p: nat, e: Event, lingers: bool)
    requires cfg.format == LOCK_TEXT && Inv(cfg, first, s) && Next(cfg, s, Act(p, e, lingers)).Some?
    ensures Inv(cfg, first, Next(cfg, s, Act(p, e, lingers)).value)
  {
    hide Step;
    hide NoLostUpdate;
    hide HasItsWay;
    hide Chained;
    assert forall q :: q in s.sections ==> q == p;
    SectionKeeps(cfg, s, p, e, lingers);
    LogKeeps(cfg, first, s, p, e, lingers);
  }

  lemma LossIsNoUpdate(from: string, to: string)
    ensures NoLostUpdate(Lost(from, to))
  {
  }

  lemma AcquireKeeps(cfg: Config, first: string, s: State, p: nat, call: Call)
    requires Inv(cfg, first, s) && Next(cfg, s, Acquire(p, call)).Some?
    ensures Inv(cfg, first, Next(cfg, s, Acquire(p, call)).value)
  {
    hide Step;
    hide NoLostUpdate;
    hide Chained;
    var t := Next(cfg, s, Acquire(p, call)).value;
    if s.owner == None {
      assert forall q :: q !in s.sections;
      assert HasItsWay(cfg, t, t.sections[p]);
    }
  }

  lemma LeavingKeeps(cfg: Config, first: string, s: State, a: Action)
    requires Inv(cfg, first, s) && Next(cfg, s, a).Some? && (a.Release? || a.Kill? || a.StrayEnds?)
    ensures Inv(cfg, first, Next(cfg, s, a).value)
  {
    hide Step;
    hide NoLostUpdate;
    hide Chained;
    hide RunOf;
  }

  lemma StrayKeeps(cfg: Config, first: string, s: State, running: Running, db: string)
    requires Inv(cfg, first, s) && Next(cfg, s, Stray(running, db)).Some?
    ensures Inv(cfg, first, Next(cfg, s, Stray(running, db)).value)
  {
    hide Step;
    hide NoLostUpdate;
    hide Chained;
    hide RunOf;
  }

  lemma LossKeeps(cfg: Config, first: string, s: State, running: Running, lock: string)
    requires Inv(cfg, first, s) && Next(cfg, s, PowerLoss(running, lock)).Some?
    ensures Inv(cfg, first, Next(cfg, s, PowerLoss(running, lock)).value)
  {
    hide NoLostUpdate;
    hide Chained;
    LossIsNoUpdate(s.world.lock, lock);
    ChainGrows(first, s.log, s.world.lock, Lost(s.world.lock, lock));
  }

  lemma NextKeeps(cfg: Config, first: string, s: State, a: Action)
    requires cfg.format == LOCK_TEXT && Inv(cfg, first, s) && Next(cfg, s, a).Some?
    ensures Inv(cfg, first, Next(cfg, s, a).value)
  {
    hide Inv;
    hide Next;
    match a {
      case Act(p, e, lingers) => ActKeeps(cfg, first, s, p, e, lingers);
      case Acquire(p, call) => AcquireKeeps(cfg, first, s, p, call);
      case PowerLoss(running, lock) => LossKeeps(cfg, first, s, running, lock);
      case Stray(running, db) => StrayKeeps(cfg, first, s, running, db);
      case _ => LeavingKeeps(cfg, first, s, a);
    }
  }

  lemma InitialIsFine(cfg: Config, s: State)
    requires Initial(s)
    ensures Inv(cfg, s.world.lock, s)
  {
  }

  lemma {:induction false} RunsKeep(cfg: Config, first: string, s: State, actions: seq<Action>, t: State)
    requires cfg.format == LOCK_TEXT && Inv(cfg, first, s) && Reach(cfg, s, actions) == Some(t)
    ensures Inv(cfg, first, t)
    decreases |actions|
  {
    hide Inv;
    hide Next;
    if actions != [] {
      var n := |actions| - 1;
      var u := Reach(cfg, s, actions[..n]).value;
      RunsKeep(cfg, first, s, actions[..n], u);
      NextKeeps(cfg, first, u, actions[n]);
    }
  }

  /** Over every interleaving, with kills anywhere, commands outliving their
      updaters and power losses: at most one process is inside; the lock file
      changes only by its own rename; and every lock ever written replaced one
      that read, and names what it replaced as the way back. */
  lemma EveryInterleaving(cfg: Config, s: State, actions: seq<Action>, t: State)
    requires cfg.format == LOCK_TEXT && Initial(s) && Reach(cfg, s, actions) == Some(t)
    ensures Inv(cfg, s.world.lock, t)
    ensures forall p, q :: p in t.sections && q in t.sections ==> p == q
    ensures forall i :: 0 <= i < |t.log| && t.log[i].Wrote? ==> Linked(t.log[i])
  {
    InitialIsFine(cfg, s);
    RunsKeep(cfg, s.world.lock, s, actions, t);
    forall i | 0 <= i < |t.log| && t.log[i].Wrote? ensures Linked(t.log[i]) {
      assert NoLostUpdate(t.log[i]);
    }
  }

  /** The new lock's `previous` is the `current` of the one it replaced, and the
      extras are kept; it can be read unless its tag ends in a newline. */
  ghost predicate Linked(entry: Entry)
    requires entry.Wrote?
  {
    var from, to := Lockfile.Read(entry.from), Lockfile.Read(entry.to);
    && from.Ok? && (to.Ok? <==> '\n' !in entry.job.target.version)
    && (to.Ok? ==> to.value.previous == Some(from.value.current) && to.value.extra == from.value.extra)
  }

  /** Outcome words keep their meaning whatever the other processes do: for the
      lock file always, and for the containers and the schema unless a stray
      command interfered. After a success no power loss can bring back an older
      lock. */
  lemma OutcomesHoldInAnyInterleaving(cfg: Config, s: State, actions: seq<Action>, t: State, p: nat)
    requires cfg.format == LOCK_TEXT && Initial(s) && Reach(cfg, s, actions) == Some(t)
    requires p in t.sections && t.sections[p].pc.Done?
    ensures var section := t.sections[p]; var mine := DoAll(section.start, section.es);
            && Means(cfg, section.call, section.start, mine, section.pc.outcome, section.pc.about)
            && t.world.lock == mine.lock && (!section.disturbed ==> t.world == mine)
            && (section.pc.outcome == Succeeded && section.call.request.action != Restart ==>
               t.survivors == {t.world.lock})
  {
    EveryInterleaving(cfg, s, actions, t);
    var section := t.sections[p];
    OutcomeDeterminesWorld(cfg, section.call, section.start, section.es, section.pc.outcome, section.pc.about);
  }

  /** Only what outlives its command's answer, or its killed updater, can disturb
      anyone. */
  lemma {:induction false} OnlyStraysDisturb(cfg: Config, s: State, actions: seq<Action>, t: State)
    requires Initial(s) && Reach(cfg, s, actions) == Some(t)
    requires forall i :: 0 <= i < |actions| ==> !LeavesBehind(actions[i])
    ensures t.strays == 0 && forall p :: p in t.sections ==> !t.sections[p].disturbed
    decreases |actions|
  {
    if actions != [] {
      hide Step;
      OnlyStraysDisturb(cfg, s, actions[..|actions| - 1], Reach(cfg, s, actions[..|actions| - 1]).value);
    }
  }

  // ---- versions over a whole history -------------------------------------

  /** A replacement made for a console upgrade to a semantic version. */
  predicate ConsoleUpgrade(entry: Entry) {
    entry.Wrote? ==>
      && entry.job.call.request.action == Upgrade && !entry.job.call.request.allowDowngrade
      && Versions.IsSemantic(entry.job.target.ExpectedVersion())
  }

  /** The version a lock names, if it can be read. */
  function Named(text: string): string {
    match Lockfile.Read(text)
    case Err(_) => ""
    case Ok(st) => st.current.ExpectedVersion()
  }

  predicate AtLeast(base: string, text: string) {
    Lockfile.Read(text).Ok? ==> Versions.IsSemantic(Named(text)) && !Versions.IsDowngrade(Named(text), base)
  }

  lemma {:induction false} LStripBeforeNewline(u: string)
    ensures Text.LStrip(u + "\n") == if Text.LStrip(u) == "" then "" else Text.LStrip(u) + "\n"
  {
    if u == "" {
      assert (u + "\n")[1..] == "" && u + "\n" == "\n";
    } else if Text.IsSpace(u[0]) {
      assert (u + "\n")[1..] == u[1..] + "\n";
      LStripBeforeNewline(u[1..]);
    }
  }

  lemma StripDecides(u: string, v: string)
    requires Text.Strip(u) == Text.Strip(v)
    ensures Versions.VersionKey(u) == Versions.VersionKey(v)
  {
    hide Text.Strip;
    hide Versions.ParseCore;
    hide Versions.IndexOf;
  }

  lemma StripIgnoresNewline(u: string)
    ensures Text.Strip(u + "\n") == Text.Strip(u)
  {
    LStripBeforeNewline(u);
    var s := Text.LStrip(u);
    hide Text.LStrip;
    if s != "" {
      assert (s + "\n")[..|s|] == s && (s + "\n")[|s|] == '\n';
    }
  }

  lemma ChompedVersionIsTheSame(v: string)
    ensures Versions.VersionKey(Lockfile.Chomp(v)) == Versions.VersionKey(v)
  {
    var u := Lockfile.Chomp(v);
    if u != v {
      assert v == u + "\n";
      StripIgnoresNewline(u);
      StripDecides(u, v);
    }
  }

  /** What a console upgrade records is no older than the lock it replaced. */
  lemma UpgradeClimbs(base: string, entry: Entry)
    requires entry.Wrote? && NoLostUpdate(entry) && ConsoleUpgrade(entry)
    requires Versions.IsSemantic(base) && AtLeast(base, entry.from)
    ensures AtLeast(base, entry.to)
  {
    var target := entry.job.target;
    if Lockfile.Read(entry.to).Ok? {
      var named, current := Named(entry.to), Named(entry.from);
      ChompedVersionIsTheSame(target.version);
      if target.appVersion.Some? {
        ChompedVersionIsTheSame(target.appVersion.value);
        ChompedEmptyIsNotSemantic(target.appVersion.value);
      }
      assert Versions.VersionKey(named) == Versions.VersionKey(target.ExpectedVersion());
      hide Versions.VersionKey;
      Versions.NoDescentComposes(base, current, named);
    }
  }

  lemma ChompedEmptyIsNotSemantic(v: string)
    ensures Lockfile.Chomp(v) == "" ==> !Versions.IsSemantic(v)
  {
    ChompedVersionIsTheSame(v);
    assert Text.Strip("") == "" && Versions.Parse("") == None;
  }

  lemma ActStaysAtLeast(cfg: Config, first: string, base: string, s: State, p: nat, e: Event, lingers: bool)
    requires cfg.format == LOCK_TEXT && Inv(cfg, first, s) && Next(cfg, s, Act(p, e, lingers)).Some?
             && Versions.IsSemantic(base)
    requires forall x :: x in s.survivors ==> AtLeast(base, x)
    requires var t := Next(cfg, s, Act(p, e, lingers)).value; forall i :: |s.log| <= i < |t.log| ==>
             ConsoleUpgrade(t.log[i])
    ensures var t := Next(cfg, s, Act(p, e, lingers)).value; forall x :: x in t.survivors ==> AtLeast(base, x)
  {
    hide AtLeast;
    hide ConsoleUpgrade;
    hide NoLostUpdate;
    hide Step;
    hide Alone;
    hide Chained;
    var t := Next(cfg, s, Act(p, e, lingers)).value;
    LogKeeps(cfg, first, s, p, e, lingers);
    ActEffect(cfg, s, p, e, lingers);
    ActsFrom(cfg, s.sections[p].pc, e);
    hide Next;
    if e.Rename? {
      assert t.log[|s.log|] == Wrote(s.world.lock, e.text, s.sections[p].pc.job);
      UpgradeClimbs(base, t.log[|s.log|]);
    }
  }

  lemma StaysAtLeast(cfg: Config, first: string, base: string, s: State, a: Action)
    requires cfg.format == LOCK_TEXT && Inv(cfg, first, s) && Next(cfg, s, a).Some? && Versions.IsSemantic(base)
    requires forall x :: x in s.survivors ==> AtLeast(base, x)
    requires var t := Next(cfg, s, a).value; forall i :: |s.log| <= i < |t.log| ==> ConsoleUpgrade(t.log[i])
    ensures var t := Next(cfg, s, a).value; forall x :: x in t.survivors ==> AtLeast(base, x)
  {
    hide AtLeast;
    hide ConsoleUpgrade;
    hide Inv;
    hide Step;
    if a.Act? {
      ActStaysAtLeast(cfg, first, base, s, a.p, a.e, a.lingers);
    }
  }

  /** From any moment at which the lock is safely on disk: as long as every
      replacement is a console upgrade to a semantic version, no text the lock
      ever reads as, power losses included, names an older version. */
  lemma {:induction false} ConsoleNeverDescends(cfg: Config, first: string, s: State, actions: seq<Action>, t: State)
    requires cfg.format == LOCK_TEXT && Inv(cfg, first, s) && Reach(cfg, s, actions) == Some(t)
    requires s.survivors == {s.world.lock} && Versions.IsSemantic(Named(s.world.lock))
    requires forall i :: |s.log| <= i < |t.log| ==> ConsoleUpgrade(t.log[i])
    ensures s.log <= t.log && forall x :: x in t.survivors ==> AtLeast(Named(s.world.lock), x)
    decreases |actions|
  {
    hide Inv;
    hide Next;
    if actions == [] {
      SameIsAtLeast(s.world.lock);
    } else {
      hide AtLeast;
      hide ConsoleUpgrade;
      var n := |actions| - 1;
      var u := Reach(cfg, s, actions[..n]).value;
      RunsKeep(cfg, first, s, actions[..n], u);
      LogOnlyGrows(cfg, u, actions[n]);
      ConsoleNeverDescends(cfg, first, s, actions[..n], u);
      StaysAtLeast(cfg, first, Named(s.world.lock), u, actions[n]);
    }
  }

  lemma LogOnlyGrows(cfg: Config, s: State, a: Action)
    requires Next(cfg, s, a).Some?
    ensures s.log <= Next(cfg, s, a).value.log
  {
    hide Step;
  }

  lemma SameIsAtLeast(text: string)
    requires Versions.IsSemantic(Named(text))
    ensures AtLeast(Named(text), text)
  {
    var key := Versions.VersionKey(Named(text)).value;
    Versions.KeyOrder(key, key, key);
  }

  /** Over any history of console upgrades among semantic versions, kills, stray
      commands and power losses included, the lock never names a version older
      than the one it started with. */
  lemma VersionsNeverDescend(cfg: Config, s: State, actions: seq<Action>, t: State)
    requires cfg.format == LOCK_TEXT && Initial(s) && Reach(cfg, s, actions) == Some(t)
    requires Versions.IsSemantic(Named(s.world.lock)) && forall i :: 0 <= i < |t.log| ==> ConsoleUpgrade(t.log[i])
    ensures AtLeast(Named(s.world.lock), t.world.lock)
  {
    InitialIsFine(cfg, s);
    RunsKeep(cfg, s.world.lock, s, actions, t);
    hide AtLeast;
    hide ConsoleUpgrade;
    ConsoleNeverDescends(cfg, s.world.lock, s, actions, t);
  }

  /** And once an upgrade has reported success, its version is the new floor. */
  lemma SuccessIsAFloor(cfg: Config, s: State, before: seq<Action>, u: State, p: nat, after: seq<Action>, t: State)
    requires cfg.format == LOCK_TEXT && Initial(s) && Reach(cfg, s, before) == Some(u)
             && Reach(cfg, u, after) == Some(t)
    requires p in u.sections && u.sections[p].pc.Done? && u.sections[p].pc.outcome == Succeeded
    requires u.sections[p].call.request.action == Upgrade && Versions.IsSemantic(Named(u.world.lock))
    requires forall i :: |u.log| <= i < |t.log| ==> ConsoleUpgrade(t.log[i])
    ensures AtLeast(Named(u.world.lock), t.world.lock)
  {
    EveryInterleaving(cfg, s, before, u);
    OutcomesHoldInAnyInterleaving(cfg, s, before, u, p);
    RunsKeep(cfg, s.world.lock, u, after, t);
    hide AtLeast;
    hide ConsoleUpgrade;
    ConsoleNeverDescends(cfg, s.world.lock, u, after, t);
  }
}
