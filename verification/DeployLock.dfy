/** The Redis deploy lock as timed steps, atomic between awaits (agent/locks.py): every acquisition is
    one run of `acquire` or `acquire_with_heartbeat`, all interleavings, expiries and failures included. */
module DeployLock {

  /** Times in one unit. `retry` is the pause between attempts, `delay` the most by which a timely step
      comes late. `home` is the process of an acquisition, `agent` the agent id of a process. */
  datatype Config = Config(ttl: nat, interval: nat, retry: nat, delay: nat, home: nat -> nat, agent: nat -> string)

  /** "deploy_lock:agent:lab". */
  datatype LockKey = LockKey(agent: string, lab: string)

  datatype LocalKey = LocalKey(process: nat, lab: string)

  /** A stored key: the acquisition that wrote it, and when it expires. */
  datatype Entry = Entry(owner: nat, expires: int)

  /** The heartbeat task: done with one beat, sleeping, or between the GET and the EXPIRE of a beat. */
  datatype Beat = NoBeat | Rested(at: int) | Sleeping(wake: int) | Got(at: int)

  datatype Phase =
    | Idle
    | Waiting(lab: string, timeout: nat, beats: bool)                        // for the local lock
    | Trying(lab: string, timeout: nat, beats: bool, start: int, wake: int)  // next: SET NX EX, at `wake` or later
    | Acquired(lab: string, beats: bool, at: int)                            // SET done, body not yet entered
    | Critical(lab: string, beat: Beat)
    | Leaving(lab: string, at: int)                                          // heartbeat stopped; next: GET
    | Deleting(lab: string, at: int)                                         // next: DELETE
    | Done

  datatype System = System(now: int, keys: map<LockKey, Entry>, locals: map<LocalKey, nat>, phases: map<nat, Phase>)

  /** One acquisition's own steps. Abort: its Redis command raises, or it is cancelled, at an await.
      BreakBeat: a Redis error ends the heartbeat task. */
  datatype Move =
    TakeLocal | TrySet | Enter | BeatSleep | BeatGet | BeatExpire | Leave | ReleaseGet
    | ReleaseDelete | Abort | BreakBeat

  /** Force: force_release, or clear_agent_locks, deletes a key. Crash: a process loses its memory. */
  datatype Action =
    | Tick(passed: nat)
    | Start(c: nat, lab: string, timeout: nat, beats: bool)
    | Do(c: nat, move: Move)
    | Force(key: LockKey)
    | Crash(process: nat)

  const INIT := System(0, map[], map[], map[])

  function PhaseOf(s: System, c: nat): Phase { if c in s.phases then s.phases[c] else Idle }

  function LabOf(p: Phase): string { if p.Idle? || p.Done? then "" else p.lab }

  function KeyOf(cfg: Config, c: nat, lab: string): LockKey { LockKey(cfg.agent(cfg.home(c)), lab) }

  function LocalOf(cfg: Config, c: nat, lab: string): LocalKey { LocalKey(cfg.home(c), lab) }

  predicate Live(s: System, k: LockKey) { k in s.keys && s.now < s.keys[k].expires }

  /** The ownership test of release and extension: the stored value starts with the agent id. */
  predicate LooksMine(cfg: Config, s: System, c: nat, k: LockKey) {
    Live(s, k) && cfg.agent(cfg.home(s.keys[k].owner)) == cfg.agent(cfg.home(c))
  }

  function Move1(s: System, c: nat, p: Phase): System { s.(phases := s.phases[c := p]) }

  /** Leave the local lock and end. */
  function Quit(cfg: Config, s: System, c: nat, lab: string): System {
    s.(phases := s.phases[c := Done], locals := s.locals - {LocalOf(cfg, c, lab)})
  }

  /** One SET NX EX attempt, with the timeout check after a failed one. */
  function Attempt(cfg: Config, s: System, c: nat, p: Phase): System
    requires p.Trying?
  {
    var k := KeyOf(cfg, c, p.lab);
    if s.now < p.wake then s
    else if !Live(s, k) then
      s.(keys := s.keys[k := Entry(c, s.now + cfg.ttl)], phases := s.phases[c := Acquired(p.lab, p.beats, s.now)])
    else if s.now - p.start >= p.timeout then Quit(cfg, s, c, p.lab)
    else Move1(s, c, p.(wake := s.now + cfg.retry))
  }

  /** One step of the heartbeat task. */
  function BeatMove(cfg: Config, s: System, c: nat, lab: string, beat: Beat, move: Move): System {
    var k := KeyOf(cfg, c, lab);
    match (beat, move)
    case (Rested(_), BeatSleep) => Move1(s, c, Critical(lab, Sleeping(s.now + cfg.interval)))
    case (Sleeping(wake), BeatGet) =>
      if s.now < wake then s
      else Move1(s, c, Critical(lab, if LooksMine(cfg, s, c, k) then Got(s.now) else Rested(s.now)))
    case (Got(_), BeatExpire) =>
      var s' := Move1(s, c, Critical(lab, Rested(s.now)));
      if Live(s, k) then s'.(keys := s.keys[k := s.keys[k].(expires := s.now + cfg.ttl)]) else s'
    case (_, BreakBeat) => Move1(s, c, Critical(lab, NoBeat))
    case (_, Leave) => Move1(s, c, Leaving(lab, s.now))
    case _ => s
  }

  /** One step of one acquisition; a step that is not enabled changes nothing. */
  function Moved(cfg: Config, s: System, c: nat, move: Move): System {
    var p := PhaseOf(s, c);
    match p
    case Waiting(lab, timeout, beats) =>
      if move.Abort? then Move1(s, c, Done)
      else if move.TakeLocal? && LocalOf(cfg, c, lab) !in s.locals then
        s.(locals := s.locals[LocalOf(cfg, c, lab) := c],
           phases := s.phases[c := Trying(lab, timeout, beats, s.now, s.now)])
      else s
    case Trying(lab, _, _, _, _) =>
      if move.Abort? then Quit(cfg, s, c, lab) else if move.TrySet? then Attempt(cfg, s, c, p) else s
    case Acquired(lab, beats, _) =>
      if move.Abort? then Quit(cfg, s, c, lab)
      else if move.Enter? then Move1(s, c, Critical(lab, if beats then Rested(s.now) else NoBeat))
      else s
    case Critical(lab, beat) => BeatMove(cfg, s, c, lab, beat, move)
    case Leaving(lab, _) =>
      if move.Abort? then Quit(cfg, s, c, lab)
      else if move.ReleaseGet? then
        if LooksMine(cfg, s, c, KeyOf(cfg, c, lab)) then Move1(s, c, Deleting(lab, s.now)) else Quit(cfg, s, c, lab)
      else s
    case Deleting(lab, _) =>
      if move.Abort? then Quit(cfg, s, c, lab)
      else if move.ReleaseDelete? then
        var s' := Quit(cfg, s, c, lab);
        s'.(keys := s.keys - {KeyOf(cfg, c, lab)})
      else s
    case _ => s
  }

  function Crashed(cfg: Config, s: System, process: nat): System {
    s.(locals := map k | k in s.locals && k.process != process :: s.locals[k],
       phases := map c | c in s.phases :: if cfg.home(c) == process then Done else s.phases[c])
  }

  function Next(cfg: Config, s: System, a: Action): System {
    match a
    case Tick(passed) => s.(now := s.now + passed)
    case Start(c, lab, timeout, beats) => if c in s.phases then s else Move1(s, c, Waiting(lab, timeout, beats))
    case Do(c, move) => Moved(cfg, s, c, move)
    case Force(k) => s.(keys := s.keys - {k})
    case Crash(process) => Crashed(cfg, s, process)
  }

  function Run(cfg: Config, s: System, trace: seq<Action>): System {
    if trace == [] then s else Next(cfg, Run(cfg, s, trace[..|trace| - 1]), trace[|trace| - 1])
  }

  // ---- The local lock ----

  /** Has the local lock. */
  predicate Inside(p: Phase) { !p.Idle? && !p.Waiting? && !p.Done? }

  /** Between a successful SET and the end of the release. */
  predicate Holding(p: Phase) { p.Acquired? || p.Critical? || p.Leaving? || p.Deleting? }

  ghost predicate LocksHeld(cfg: Config, s: System) {
    forall c :: c in s.phases && Inside(s.phases[c]) ==>
      var l := LocalOf(cfg, c, LabOf(s.phases[c])); l in s.locals && s.locals[l] == c
  }

  /** No local lock is left behind. */
  ghost predicate LocksUsed(cfg: Config, s: System) {
    forall l :: l in s.locals ==>
      var c := s.locals[l]; c in s.phases && Inside(s.phases[c]) && LocalOf(cfg, c, LabOf(s.phases[c])) == l
  }

  ghost predicate Bounded(cfg: Config, s: System) {
    forall k :: k in s.keys ==> s.keys[k].expires <= s.now + cfg.ttl && cfg.agent(cfg.home(s.keys[k].owner)) == k.agent
  }

  /** What one step of `c` does to its phase and the local lock: nothing to the lock, take it, or give
      it up. */
  ghost predicate LockStep(cfg: Config, s: System, s': System, c: nat) {
    var p, p' := PhaseOf(s, c), PhaseOf(s', c);
    var l := LocalOf(cfg, c, LabOf(p));
    && s'.now == s.now && (s' == s || (c in s.phases && s'.phases == s.phases[c := p']))
    && ( || (s'.locals == s.locals && Inside(p) == Inside(p') && (Inside(p) ==> LabOf(p') == LabOf(p)))
         || (s'.locals == s.locals[l := c] && l !in s.locals && !Inside(p) && Inside(p') && LabOf(p') == LabOf(p))
         || (s'.locals == s.locals - {l} && Inside(p) && !Inside(p')))
  }

  lemma MovedIsLockStep(cfg: Config, s: System, c: nat, move: Move)
    ensures LockStep(cfg, s, Moved(cfg, s, c, move), c)
  {
    var p := PhaseOf(s, c);
    if p.Trying? && move.TrySet? { AttemptIsLockStep(cfg, s, c); }
    if p.Critical? { BeatIsLockStep(cfg, s, c, move); }
  }

  lemma AttemptIsLockStep(cfg: Config, s: System, c: nat)
    requires PhaseOf(s, c).Trying?
    ensures LockStep(cfg, s, Attempt(cfg, s, c, PhaseOf(s, c)), c)
  {
  }

  lemma BeatIsLockStep(cfg: Config, s: System, c: nat, move: Move)
    requires PhaseOf(s, c).Critical?
    ensures LockStep(cfg, s, BeatMove(cfg, s, c, PhaseOf(s, c).lab, PhaseOf(s, c).beat, move), c)
  {
  }

  lemma LockStepKeepsLocks(cfg: Config, s: System, s': System, c: nat)
    requires LocksHeld(cfg, s) && LocksUsed(cfg, s) && LockStep(cfg, s, s', c)
    ensures LocksHeld(cfg, s') && LocksUsed(cfg, s')
  {
  }

  lemma NextKeepsLocks(cfg: Config, s: System, a: Action)
    requires LocksHeld(cfg, s) && LocksUsed(cfg, s)
    ensures LocksHeld(cfg, Next(cfg, s, a)) && LocksUsed(cfg, Next(cfg, s, a))
  {
    if a.Do? {
      MovedIsLockStep(cfg, s, a.c, a.move);
      LockStepKeepsLocks(cfg, s, Moved(cfg, s, a.c, a.move), a.c);
    }
  }

  // ---- The Redis key ----

  /** What one step of `c` does to the keys: nothing, write its own where none was live, extend one that
      looks like its own, or delete one. */
  ghost predicate KeyStep(cfg: Config, s: System, s': System, c: nat) {
    var p, p' := PhaseOf(s, c), PhaseOf(s', c);
    var k := KeyOf(cfg, c, LabOf(p));
    && s'.now == s.now && (s' == s || (c in s.phases && s'.phases == s.phases[c := p']))
    && (Holding(p) && Holding(p') ==> LabOf(p') == LabOf(p))
    && ( || (s'.keys == s.keys && (Holding(p') ==> Holding(p)))
         || (p.Trying? && p'.Acquired? && LabOf(p') == LabOf(p) && !Live(s, k)
             && s'.keys == s.keys[k := Entry(c, s.now + cfg.ttl)])
         || (p.Critical? && p'.Critical? && Live(s, k)
            && s'.keys == s.keys[k := s.keys[k].(expires := s.now + cfg.ttl)])
         || (p.Deleting? && p'.Done? && s'.keys == s.keys - {k}))
  }

  lemma MovedIsKeyStep(cfg: Config, s: System, c: nat, move: Move)
    ensures KeyStep(cfg, s, Moved(cfg, s, c, move), c)
  {
    var p := PhaseOf(s, c);
    if p.Trying? && move.TrySet? { AttemptIsKeyStep(cfg, s, c); }
    if p.Critical? { BeatIsKeyStep(cfg, s, c, move); }
  }

  lemma AttemptIsKeyStep(cfg: Config, s: System, c: nat)
    requires PhaseOf(s, c).Trying?
    ensures KeyStep(cfg, s, Attempt(cfg, s, c, PhaseOf(s, c)), c)
  {
  }

  lemma BeatIsKeyStep(cfg: Config, s: System, c: nat, move: Move)
    requires PhaseOf(s, c).Critical?
    ensures KeyStep(cfg, s, BeatMove(cfg, s, c, PhaseOf(s, c).lab, PhaseOf(s, c).beat, move), c)
  {
  }

  lemma NextKeepsBounds(cfg: Config, s: System, a: Action)
    requires Bounded(cfg, s)
    ensures Bounded(cfg, Next(cfg, s, a))
  {
    if a.Do? { MovedIsKeyStep(cfg, s, a.c, a.move); }
  }

  /** One process per agent id, as far as acquisitions exist. */
  ghost predicate OnePerAgent(cfg: Config) {
    forall c: nat, d: nat :: cfg.agent(cfg.home(c)) == cfg.agent(cfg.home(d)) ==> cfg.home(c) == cfg.home(d)
  }

  /** A key under which an acquisition is entitled to run was written by no other acquisition. */
  ghost predicate OwnsKey(cfg: Config, s: System) {
    forall c :: c in s.phases && Holding(s.phases[c]) ==>
      var k := KeyOf(cfg, c, LabOf(s.phases[c])); k in s.keys ==> s.keys[k].owner == c
  }

  /** At most one acquisition of an agent is past the SET for a lab. */
  ghost predicate Exclusive(cfg: Config, s: System) {
    forall c, d :: c in s.phases && d in s.phases && Holding(s.phases[c]) && Holding(s.phases[d]) ==>
      KeyOf(cfg, c, LabOf(s.phases[c])) == KeyOf(cfg, d, LabOf(s.phases[d])) ==> c == d
  }

  lemma KeyStepKeepsOwners(cfg: Config, s: System, s': System, c: nat)
    requires OwnsKey(cfg, s) && Exclusive(cfg, s') && KeyStep(cfg, s, s', c)
    ensures OwnsKey(cfg, s')
  {
  }

  lemma LocksExclude(cfg: Config, s: System)
    requires OnePerAgent(cfg) && LocksHeld(cfg, s)
    ensures Exclusive(cfg, s)
  {
  }

  ghost predicate Inv(cfg: Config, s: System) {
    LocksHeld(cfg, s) && LocksUsed(cfg, s) && Bounded(cfg, s) && OwnsKey(cfg, s)
  }

  lemma NextKeepsInv(cfg: Config, s: System, a: Action)
    requires OnePerAgent(cfg) && Inv(cfg, s)
    ensures Inv(cfg, Next(cfg, s, a))
  {
    NextKeepsLocks(cfg, s, a);
    NextKeepsBounds(cfg, s, a);
    NextKeepsOwners(cfg, s, a);
  }

  lemma NextKeepsOwners(cfg: Config, s: System, a: Action)
    requires OnePerAgent(cfg) && OwnsKey(cfg, s) && LocksHeld(cfg, Next(cfg, s, a))
    ensures OwnsKey(cfg, Next(cfg, s, a))
  {
    if a.Do? {
      MovedIsKeyStep(cfg, s, a.c, a.move);
      LocksExclude(cfg, Next(cfg, s, a));
      KeyStepKeepsOwners(cfg, s, Next(cfg, s, a), a.c);
    }
  }

  lemma {:induction false} RunKeepsInv(cfg: Config, s: System, trace: seq<Action>)
    requires OnePerAgent(cfg) && Inv(cfg, s)
    ensures Inv(cfg, Run(cfg, s, trace)) && Exclusive(cfg, Run(cfg, s, trace))
  {
    if trace != [] {
      RunKeepsInv(cfg, s, trace[..|trace| - 1]);
      NextKeepsInv(cfg, Run(cfg, s, trace[..|trace| - 1]), trace[|trace| - 1]);
    }
    LocksExclude(cfg, Run(cfg, s, trace));
  }

  /** Over every run of any number of acquisitions, with expiries, forced releases, aborts and crashes at
      any step: at most one acquisition of an agent is past the SET for a lab, and a step of `c` removes,
      extends or replaces no live key that another acquisition wrote. */
  lemma LockSafety(cfg: Config, trace: seq<Action>, c: nat, move: Move)
    requires OnePerAgent(cfg)
    ensures var s := Run(cfg, INIT, trace);
            var s' := Next(cfg, s, Do(c, move));
            && Exclusive(cfg, s)
            && (forall k :: k in s.keys && k !in s'.keys ==> s.keys[k].owner == c)
            && (forall k :: k in s.keys && k in s'.keys && s'.keys[k] != s.keys[k] ==>
                  s'.keys[k].owner == c && (s.keys[k].owner == c || !Live(s, k)))
  {
    RunKeepsInv(cfg, INIT, trace);
    MovedIsKeyStep(cfg, Run(cfg, INIT, trace), c, move);
  }

  lemma RunOne(cfg: Config, s: System, trace: seq<Action>, a: Action)
    ensures Run(cfg, s, trace + [a]) == Next(cfg, Run(cfg, s, trace), a)
  {
    assert (trace + [a])[..|trace|] == trace;
  }

  /** A new acquisition that nothing stands in the way of: start, local lock, SET. */
  function Entering(c: nat, lab: string): seq<Action> {
    [Start(c, lab, 0, false), Do(c, TakeLocal), Do(c, TrySet)]
  }

  function Entered(cfg: Config, s: System, c: nat, lab: string): System {
    System(s.now, s.keys[KeyOf(cfg, c, lab) := Entry(c, s.now + cfg.ttl)], s.locals[LocalOf(cfg, c, lab) := c],
           s.phases[c := Acquired(lab, false, s.now)])
  }

  lemma EntersFreely(cfg: Config, s: System, c: nat, lab: string)
    requires c !in s.phases && LocalOf(cfg, c, lab) !in s.locals && !Live(s, KeyOf(cfg, c, lab))
    ensures Next(cfg, Next(cfg, Next(cfg, s, Start(c, lab, 0, false)), Do(c, TakeLocal)), Do(c, TrySet))
         == Entered(cfg, s, c, lab)
  {
    var s1 := Next(cfg, s, Start(c, lab, 0, false));
    var trying := Trying(lab, 0, false, s.now, s.now);
    var s2 := s.(locals := s.locals[LocalOf(cfg, c, lab) := c], phases := s.phases[c := trying]);
    assert Next(cfg, s1, Do(c, TakeLocal)) == s2 by {
      assert s1.phases[c := trying] == s.phases[c := trying];
    }
    assert Next(cfg, s2, Do(c, TrySet)) == Attempt(cfg, s2, c, trying);
    assert s2.phases[c := Acquired(lab, false, s.now)] == s.phases[c := Acquired(lab, false, s.now)];
  }

  lemma RunsInto(cfg: Config, s0: System, before: seq<Action>, c: nat, lab: string)
    requires var s := Run(cfg, s0, before);
             c !in s.phases && LocalOf(cfg, c, lab) !in s.locals && !Live(s, KeyOf(cfg, c, lab))
    ensures Run(cfg, s0, before + Entering(c, lab)) == Entered(cfg, Run(cfg, s0, before), c, lab)
  {
    var t := Entering(c, lab);
    EntersFreely(cfg, Run(cfg, s0, before), c, lab);
    RunOne(cfg, s0, before, t[0]);
    RunOne(cfg, s0, before + [t[0]], t[1]);
    RunOne(cfg, s0, before + [t[0]] + [t[1]], t[2]);
    assert before + t == before + [t[0]] + [t[1]] + [t[2]];
  }

  /** Two processes under one agent id: the first overstays its TTL, the second gets in. */
  lemma Intrusion(cfg: Config, c: nat, d: nat, lab: string) returns (trace: seq<Action>)
    requires cfg.agent(cfg.home(c)) == cfg.agent(cfg.home(d)) && cfg.home(c) != cfg.home(d)
    ensures var s := Run(cfg, INIT, trace);
            && PhaseOf(s, c) == Acquired(lab, false, 0) && PhaseOf(s, d) == Acquired(lab, false, s.now)
            && KeyOf(cfg, d, lab) in s.keys && s.keys[KeyOf(cfg, d, lab)] == Entry(d, s.now + cfg.ttl)
  {
    var t1 := [] + Entering(c, lab);
    RunsInto(cfg, INIT, [], c, lab);
    RunOne(cfg, INIT, t1, Tick(cfg.ttl));
    RunsInto(cfg, INIT, t1 + [Tick(cfg.ttl)], d, lab);
    trace := t1 + [Tick(cfg.ttl)] + Entering(d, lab);
  }

  /** The hypothesis is exact: with two processes under one agent id some run breaks exclusion. */
  lemma SafeIffOnePerAgent(cfg: Config)
    ensures OnePerAgent(cfg) <==> forall trace :: Exclusive(cfg, Run(cfg, INIT, trace))
  {
    if OnePerAgent(cfg) {
      forall trace ensures Exclusive(cfg, Run(cfg, INIT, trace)) { RunKeepsInv(cfg, INIT, trace); }
    } else {
      var c: nat, d: nat :| cfg.agent(cfg.home(c)) == cfg.agent(cfg.home(d)) && cfg.home(c) != cfg.home(d);
      var trace := Intrusion(cfg, c, d, "");
      assert !Exclusive(cfg, Run(cfg, INIT, trace));
    }
  }

  /** There the first process, on leaving, also deletes the key of the second: the ownership test only
      looks at the agent id. */
  lemma SharedAgentDeletesForeignKey(cfg: Config, c: nat, d: nat, lab: string) returns (trace: seq<Action>)
    requires cfg.agent(cfg.home(c)) == cfg.agent(cfg.home(d)) && cfg.home(c) != cfg.home(d) && cfg.ttl > 0
    ensures var s := Run(cfg, INIT, trace);
            var k := KeyOf(cfg, d, lab);
            && Holding(PhaseOf(s, d)) && Live(s, k) && s.keys[k].owner == d
            && k !in Next(cfg, s, Do(c, ReleaseDelete)).keys
  {
    var t := Intrusion(cfg, c, d, lab);
    RunOne(cfg, INIT, t, Do(c, Enter));
    RunOne(cfg, INIT, t + [Do(c, Enter)], Do(c, Leave));
    RunOne(cfg, INIT, t + [Do(c, Enter)] + [Do(c, Leave)], Do(c, ReleaseGet));
    trace := t + [Do(c, Enter)] + [Do(c, Leave)] + [Do(c, ReleaseGet)];
  }

  // ---- After the release, after a crash ----

  /** Has left the critical section for good. */
  predicate Over(p: Phase) { p.Leaving? || p.Deleting? || p.Done? }

  lemma OverStays(cfg: Config, s: System, a: Action, c: nat)
    requires OnePerAgent(cfg) && Inv(cfg, s) && Over(PhaseOf(s, c))
    ensures var s' := Next(cfg, s, a);
            && Over(PhaseOf(s', c)) && s.now <= s'.now
            && forall k :: k in s'.keys && s'.keys[k].owner == c ==> k in s.keys && s.keys[k] == s'.keys[k]
  {
    if a.Do? {
      MovedIsKeyStep(cfg, s, a.c, a.move);
      OverMoves(cfg, s, a.c, a.move);
    }
  }

  lemma OverMoves(cfg: Config, s: System, c: nat, move: Move)
    ensures Over(PhaseOf(s, c)) ==> Over(PhaseOf(Moved(cfg, s, c, move), c))
  {
  }

  /** Once an acquisition has left, whatever happens next, no key of its own is written or extended
      again, and within one TTL none is left. */
  lemma {:induction false} NothingAfterRelease(cfg: Config, s: System, trace: seq<Action>, c: nat)
    requires OnePerAgent(cfg) && Inv(cfg, s) && Over(PhaseOf(s, c))
    ensures var s' := Run(cfg, s, trace);
            && Over(PhaseOf(s', c)) && s.now <= s'.now
            && (forall k :: k in s'.keys && s'.keys[k].owner == c ==> k in s.keys && s.keys[k] == s'.keys[k])
            && (s.now + cfg.ttl <= s'.now ==> forall k :: Live(s', k) ==> s'.keys[k].owner != c)
  {
    if trace != [] {
      var before := trace[..|trace| - 1];
      NothingAfterRelease(cfg, s, before, c);
      RunKeepsInv(cfg, s, before);
      OverStays(cfg, Run(cfg, s, before), trace[|trace| - 1], c);
    }
  }

  /** After a crash every key of the dead process is gone within one TTL: a key then live was written by
      an acquisition started after the crash. */
  lemma CrashFreesWithinTtl(cfg: Config, s: System, process: nat, trace: seq<Action>)
    requires OnePerAgent(cfg) && Inv(cfg, s)
    ensures var s' := Run(cfg, Next(cfg, s, Crash(process)), trace);
            s.now + cfg.ttl <= s'.now ==>
              forall k :: Live(s', k) && cfg.home(s'.keys[k].owner) == process ==> s'.keys[k].owner !in s.phases
  {
    var s1 := Next(cfg, s, Crash(process));
    NextKeepsInv(cfg, s, Crash(process));
    forall c | c in s.phases && cfg.home(c) == process
      ensures s.now + cfg.ttl <= Run(cfg, s1, trace).now ==>
                forall k :: Live(Run(cfg, s1, trace), k) ==> Run(cfg, s1, trace).keys[k].owner != c
    {
      NothingAfterRelease(cfg, s1, trace, c);
    }
  }

  // ---- The heartbeat ----

  /** Every due step of `c` comes at most `delay` late. */
  predicate Timely(cfg: Config, s: System, c: nat) {
    match PhaseOf(s, c)
    case Trying(_, _, _, _, wake) => s.now <= wake + cfg.delay
    case Acquired(_, _, at) => s.now <= at + cfg.delay
    case Critical(_, Rested(at)) => s.now <= at + cfg.delay
    case Critical(_, Sleeping(wake)) => s.now <= wake + cfg.delay
    case Critical(_, Got(at)) => s.now <= at + cfg.delay
    case Leaving(_, at) => s.now <= at + cfg.delay
    case Deleting(_, at) => s.now <= at + cfg.delay
    case _ => true
  }

  /** No forced release of its key, no crash of its process, no Redis error or cancellation of its own;
      and it is started with a heartbeat. */
  predicate Spares(cfg: Config, s: System, a: Action, c: nat) {
    && a != Do(c, Abort) && a != Do(c, BreakBeat) && a != Crash(cfg.home(c))
    && a != Force(KeyOf(cfg, c, LabOf(PhaseOf(s, c))))
    && (a.Start? && a.c == c ==> a.beats)
  }

  predicate TimelyRun(cfg: Config, trace: seq<Action>, c: nat) {
    && Timely(cfg, Run(cfg, INIT, trace), c)
    && (trace == [] ||
        var before := trace[..|trace| - 1];
        TimelyRun(cfg, before, c) && Spares(cfg, Run(cfg, INIT, before), trace[|trace| - 1], c))
  }

  predicate Beating(p: Phase) {
    match p
    case Waiting(_, _, beats) => beats
    case Trying(_, _, beats, _, _) => beats
    case Acquired(_, beats, _) => beats
    case Critical(_, beat) => !beat.NoBeat?
    case _ => true
  }

  /** How long ago the key was last set or extended, for each phase. */
  predicate OnBeat(cfg: Config, s: System, c: nat) {
    var p := PhaseOf(s, c);
    var k := KeyOf(cfg, c, LabOf(p));
    && (p.Trying? ==> p.wake <= p.start + p.timeout + cfg.retry)
    && (Holding(p) ==>
          && k in s.keys && s.keys[k].owner == c
          && var last := s.keys[k].expires - cfg.ttl;
             match p
             case Acquired(_, _, at) => at <= last
             case Critical(_, Rested(at)) => at <= last + cfg.delay
             case Critical(_, Sleeping(wake)) => wake <= last + cfg.interval + 2 * cfg.delay
             case Critical(_, Got(at)) => at <= last + cfg.interval + 3 * cfg.delay
             case Leaving(_, at) => at <= last + cfg.interval + 4 * cfg.delay
             case Deleting(_, at) => at <= last + cfg.interval + 5 * cfg.delay
             case _ => true)
  }

  lemma OwnMoveKeepsBeat(cfg: Config, s: System, c: nat, move: Move)
    requires OnBeat(cfg, s, c) && Beating(PhaseOf(s, c)) && Timely(cfg, s, c) && !move.Abort? && !move.BreakBeat?
    requires cfg.interval + 4 * cfg.delay < cfg.ttl
    ensures OnBeat(cfg, Moved(cfg, s, c, move), c) && Beating(PhaseOf(Moved(cfg, s, c, move), c))
  {
    if PhaseOf(s, c).Critical? { BeatKeepsBeat(cfg, s, c, move); }
  }

  lemma BeatKeepsBeat(cfg: Config, s: System, c: nat, move: Move)
    requires OnBeat(cfg, s, c) && Beating(PhaseOf(s, c)) && Timely(cfg, s, c) && !move.BreakBeat?
    requires PhaseOf(s, c).Critical? && cfg.interval + 4 * cfg.delay < cfg.ttl
    ensures var s' := BeatMove(cfg, s, c, PhaseOf(s, c).lab, PhaseOf(s, c).beat, move);
            OnBeat(cfg, s', c) && Beating(PhaseOf(s', c))
  {
  }

  lemma OtherMoveKeepsBeat(cfg: Config, s: System, s': System, c: nat, d: nat)
    requires OnBeat(cfg, s, c) && Exclusive(cfg, s) && Exclusive(cfg, s') && KeyStep(cfg, s, s', d) && c != d
    ensures OnBeat(cfg, s', c) && PhaseOf(s', c) == PhaseOf(s, c)
  {
  }

  lemma NextKeepsBeat(cfg: Config, s: System, a: Action, c: nat)
    requires OnePerAgent(cfg) && Inv(cfg, s) && cfg.interval + 4 * cfg.delay < cfg.ttl
    requires OnBeat(cfg, s, c) && Beating(PhaseOf(s, c)) && Timely(cfg, s, c) && Spares(cfg, s, a, c)
    ensures OnBeat(cfg, Next(cfg, s, a), c) && Beating(PhaseOf(Next(cfg, s, a), c))
  {
    if a.Do? && a.c == c {
      OwnMoveKeepsBeat(cfg, s, c, a.move);
    } else if a.Do? {
      NextKeepsInv(cfg, s, a);
      LocksExclude(cfg, s);
      LocksExclude(cfg, Next(cfg, s, a));
      MovedIsKeyStep(cfg, s, a.c, a.move);
      OtherMoveKeepsBeat(cfg, s, Next(cfg, s, a), c, a.c);
    }
  }

  lemma {:induction false} RunKeepsBeat(cfg: Config, trace: seq<Action>, c: nat)
    requires OnePerAgent(cfg) && cfg.interval + 4 * cfg.delay < cfg.ttl && TimelyRun(cfg, trace, c)
    ensures OnBeat(cfg, Run(cfg, INIT, trace), c) && Beating(PhaseOf(Run(cfg, INIT, trace), c))
  {
    if trace != [] {
      var before := trace[..|trace| - 1];
      RunKeepsBeat(cfg, before, c);
      RunKeepsInv(cfg, INIT, before);
      NextKeepsBeat(cfg, Run(cfg, INIT, before), trace[|trace| - 1], c);
    }
  }

  /** The body of `c` runs under its own live key. */
  predicate Covered(cfg: Config, s: System, c: nat) {
    var p := PhaseOf(s, c);
    p.Acquired? || p.Critical? ==> var k := KeyOf(cfg, c, LabOf(p)); Live(s, k) && s.keys[k].owner == c
  }

  /** In a timely run that spares `c`: its key exists and is its own from the SET to the end of the body,
      and with two more delays to spare also up to the DELETE; and it retries for at most its timeout,
      one pause and one delay after it obtained the local lock. */
  lemma HeartbeatHoldsTheKey(cfg: Config, trace: seq<Action>, c: nat)
    requires OnePerAgent(cfg) && cfg.interval + 4 * cfg.delay < cfg.ttl && TimelyRun(cfg, trace, c)
    ensures var s := Run(cfg, INIT, trace);
            var p := PhaseOf(s, c);
            && Covered(cfg, s, c)
            && (Holding(p) && cfg.interval + 6 * cfg.delay < cfg.ttl ==> Live(s, KeyOf(cfg, c, LabOf(p))))
            && (p.Trying? ==> s.now <= p.start + p.timeout + cfg.retry + cfg.delay)
  {
    RunKeepsBeat(cfg, trace, c);
  }

  lemma TimelyOne(cfg: Config, trace: seq<Action>, a: Action, c: nat)
    requires TimelyRun(cfg, trace, c) && Spares(cfg, Run(cfg, INIT, trace), a, c)
    requires Timely(cfg, Next(cfg, Run(cfg, INIT, trace), a), c)
    ensures TimelyRun(cfg, trace + [a], c) && Run(cfg, INIT, trace + [a]) == Next(cfg, Run(cfg, INIT, trace), a)
  {
    RunOne(cfg, INIT, trace, a);
    assert (trace + [a])[..|trace|] == trace;
  }

  /** The state in which acquisition 0, alone since time 0, is in phase `p` at time `now`. */
  function Alone(cfg: Config, now: int, p: Phase): System {
    System(now, map[KeyOf(cfg, 0, "") := Entry(0, cfg.ttl)], map[LocalOf(cfg, 0, "") := 0], map[0 := p])
  }

  ghost predicate Leads(cfg: Config, trace: seq<Action>, now: int, p: Phase) {
    TimelyRun(cfg, trace, 0) && Run(cfg, INIT, trace) == Alone(cfg, now, p)
  }

  ghost predicate Reaches(cfg: Config, now: int, p: Phase) {
    exists trace :: Leads(cfg, trace, now, p)
  }

  predicate InTime(cfg: Config, p: Phase, now: int) {
    && (p.Acquired? ==> now <= p.at + cfg.delay)
    && (p.Critical? && p.beat.Rested? ==> now <= p.beat.at + cfg.delay)
    && (p.Critical? && p.beat.Sleeping? ==> now <= p.beat.wake + cfg.delay)
    && (p.Critical? && p.beat.Got? ==> now <= p.beat.at + cfg.delay)
    && (p.Leaving? || p.Deleting? ==> now <= p.at + cfg.delay)
  }

  lemma AloneAfterSet(cfg: Config)
    requires cfg.ttl > 0
    ensures Reaches(cfg, 0, Acquired("", true, 0))
  {
    TimelyOne(cfg, [], Start(0, "", 0, true), 0);
    TimelyOne(cfg, [Start(0, "", 0, true)], Do(0, TakeLocal), 0);
    var t := [Start(0, "", 0, true)] + [Do(0, TakeLocal)];
    var s := Run(cfg, INIT, t);
    assert s.phases == map[0 := Trying("", 0, true, 0, 0)];
    assert Next(cfg, s, Do(0, TrySet)) == Attempt(cfg, s, 0, s.phases[0]);
    TimelyOne(cfg, t, Do(0, TrySet), 0);
    assert Run(cfg, INIT, t + [Do(0, TrySet)]).phases == map[0 := Acquired("", true, 0)];
    assert Leads(cfg, t + [Do(0, TrySet)], 0, Acquired("", true, 0));
  }

  lemma AloneWaits(cfg: Config, now: int, later: int, p: Phase)
    requires Reaches(cfg, now, p) && Holding(p) && now <= later && InTime(cfg, p, later)
    ensures Reaches(cfg, later, p)
  {
    var t :| Leads(cfg, t, now, p);
    assert Next(cfg, Alone(cfg, now, p), Tick(later - now)) == Alone(cfg, later, p);
    assert Spares(cfg, Alone(cfg, now, p), Tick(later - now), 0);
    TimelyOne(cfg, t, Tick(later - now), 0);
    assert Leads(cfg, t + [Tick(later - now)], later, p);
  }

  lemma AloneMoves(cfg: Config, now: int, p: Phase, move: Move, p': Phase)
    requires Reaches(cfg, now, p) && Timely(cfg, Alone(cfg, now, p'), 0) && !move.Abort? && !move.BreakBeat?
    requires Moved(cfg, Alone(cfg, now, p), 0, move) == Alone(cfg, now, p')
    ensures Reaches(cfg, now, p')
  {
    var t :| Leads(cfg, t, now, p);
    assert Next(cfg, Alone(cfg, now, p), Do(0, move)) == Alone(cfg, now, p');
    assert Spares(cfg, Alone(cfg, now, p), Do(0, move), 0);
    TimelyOne(cfg, t, Do(0, move), 0);
    assert Leads(cfg, t + [Do(0, move)], now, p');
  }

  lemma MovedAlone(cfg: Config, now: int, p: Phase, p': Phase)
    ensures Move1(Alone(cfg, now, p), 0, p') == Alone(cfg, now, p')
  {
    assert map[0 := p][0 := p'] == map[0 := p'];
  }

  lemma AloneEnters(cfg: Config, now: int, at: int)
    requires Reaches(cfg, now, Acquired("", true, at))
    ensures Reaches(cfg, now, Critical("", Rested(now)))
  {
    MovedAlone(cfg, now, Acquired("", true, at), Critical("", Rested(now)));
    AloneMoves(cfg, now, Acquired("", true, at), Enter, Critical("", Rested(now)));
  }

  lemma GoesToSleep(cfg: Config, s: System, c: nat, at: int)
    requires PhaseOf(s, c) == Critical("", Rested(at))
    ensures Moved(cfg, s, c, BeatSleep) == Move1(s, c, Critical("", Sleeping(s.now + cfg.interval)))
  {
  }

  lemma AloneSleeps(cfg: Config, now: int, at: int, wake: int)
    requires Reaches(cfg, now, Critical("", Rested(at))) && wake == now + cfg.interval
    ensures Reaches(cfg, now, Critical("", Sleeping(wake)))
  {
    var p := Critical("", Sleeping(wake));
    GoesToSleep(cfg, Alone(cfg, now, Critical("", Rested(at))), 0, at);
    MovedAlone(cfg, now, Critical("", Rested(at)), p);
    AloneMoves(cfg, now, Critical("", Rested(at)), BeatSleep, p);
  }

  lemma AloneGets(cfg: Config, now: int, wake: int)
    requires Reaches(cfg, now, Critical("", Sleeping(wake))) && wake <= now < cfg.ttl
    ensures Reaches(cfg, now, Critical("", Got(now)))
  {
    assert LooksMine(cfg, Alone(cfg, now, Critical("", Sleeping(wake))), 0, KeyOf(cfg, 0, ""));
    MovedAlone(cfg, now, Critical("", Sleeping(wake)), Critical("", Got(now)));
    AloneMoves(cfg, now, Critical("", Sleeping(wake)), BeatGet, Critical("", Got(now)));
  }

  lemma AloneLeaves(cfg: Config, now: int, beat: Beat)
    requires Reaches(cfg, now, Critical("", beat))
    ensures Reaches(cfg, now, Leaving("", now))
  {
    MovedAlone(cfg, now, Critical("", beat), Leaving("", now));
    AloneMoves(cfg, now, Critical("", beat), Leave, Leaving("", now));
  }

  lemma AloneTests(cfg: Config, now: int, at: int)
    requires Reaches(cfg, now, Leaving("", at)) && now < cfg.ttl
    ensures Reaches(cfg, now, Deleting("", now))
  {
    assert LooksMine(cfg, Alone(cfg, now, Leaving("", at)), 0, KeyOf(cfg, 0, ""));
    MovedAlone(cfg, now, Leaving("", at), Deleting("", now));
    AloneMoves(cfg, now, Leaving("", at), ReleaseGet, Deleting("", now));
  }

  ghost predicate Exact(cfg: Config, reached: (int, Phase) -> bool) {
    forall t, p :: reached(t, p) <==> Reaches(cfg, t, p)
  }

  ghost predicate ClosedUnderWaiting(cfg: Config, reached: (int, Phase) -> bool) {
    forall t, later, p: Phase :: Holding(p) && t <= later && reached(t, p) && InTime(cfg, p, later) ==>
      reached(later, p)
  }

  ghost predicate ClosedUnderEntry(cfg: Config, reached: (int, Phase) -> bool) {
    forall t, at :: reached(t, Acquired("", true, at)) ==> reached(t, Critical("", Rested(t)))
  }

  ghost predicate ClosedUnderSleep(cfg: Config, reached: (int, Phase) -> bool) {
    forall t, at, wake :: wake == t + cfg.interval && reached(t, Critical("", Rested(at))) ==>
      reached(t, Critical("", Sleeping(wake)))
  }

  ghost predicate ClosedUnderGet(cfg: Config, reached: (int, Phase) -> bool) {
    forall t, wake :: wake <= t < cfg.ttl && reached(t, Critical("", Sleeping(wake))) ==>
      reached(t, Critical("", Got(t)))
  }

  ghost predicate ClosedUnderLeave(cfg: Config, reached: (int, Phase) -> bool) {
    && (forall t, beat :: reached(t, Critical("", beat)) ==> reached(t, Leaving("", t)))
    && (forall t, at :: t < cfg.ttl && reached(t, Leaving("", at)) ==> reached(t, Deleting("", t)))
  }

  lemma WaitingCloses(cfg: Config, reached: (int, Phase) -> bool)
    requires Exact(cfg, reached)
    ensures ClosedUnderWaiting(cfg, reached) && ClosedUnderEntry(cfg, reached)
  {
    forall t, later, p: Phase | Holding(p) && t <= later && reached(t, p) && InTime(cfg, p, later)
      ensures reached(later, p)
    {
      AloneWaits(cfg, t, later, p);
    }
    forall t, at | reached(t, Acquired("", true, at)) ensures reached(t, Critical("", Rested(t))) {
      AloneEnters(cfg, t, at);
    }
  }

  lemma SleepCloses(cfg: Config, reached: (int, Phase) -> bool)
    requires Exact(cfg, reached)
    ensures ClosedUnderSleep(cfg, reached)
  {
    forall t, at, wake | wake == t + cfg.interval && reached(t, Critical("", Rested(at)))
      ensures reached(t, Critical("", Sleeping(wake)))
    {
      AloneSleeps(cfg, t, at, wake);
    }
  }

  lemma GetCloses(cfg: Config, reached: (int, Phase) -> bool)
    requires Exact(cfg, reached)
    ensures ClosedUnderGet(cfg, reached)
  {
    forall t, wake | wake <= t < cfg.ttl && reached(t, Critical("", Sleeping(wake)))
      ensures reached(t, Critical("", Got(t)))
    {
      AloneGets(cfg, t, wake);
    }
  }

  lemma LeaveCloses(cfg: Config, reached: (int, Phase) -> bool)
    requires Exact(cfg, reached)
    ensures ClosedUnderLeave(cfg, reached)
  {
    forall t, beat | reached(t, Critical("", beat)) ensures reached(t, Leaving("", t)) { AloneLeaves(cfg, t, beat); }
    forall t, at | t < cfg.ttl && reached(t, Leaving("", at)) ensures reached(t, Deleting("", t)) {
      AloneTests(cfg, t, at);
    }
  }

  /** The slowest timely first beat: the GET comes one interval and three delays after the SET, and the
      EXPIRE one delay more; when there is nothing left to get, the heartbeat just goes on sleeping. */
  lemma SlowestBeat(cfg: Config, reached: (int, Phase) -> bool) returns (now: int, p: Phase)
    requires cfg.ttl <= cfg.interval + 4 * cfg.delay && reached(0, Acquired("", true, 0))
    requires ClosedUnderWaiting(cfg, reached) && ClosedUnderEntry(cfg, reached)
    requires ClosedUnderSleep(cfg, reached) && ClosedUnderGet(cfg, reached)
    ensures reached(now, p) && p.Critical? && p.lab == "" && cfg.ttl <= now
  {
    var d, i := cfg.delay, cfg.interval;
    assert InTime(cfg, Acquired("", true, 0), d) && InTime(cfg, Critical("", Rested(d)), d + d);
    now, p := d + d + i + d, Critical("", Sleeping(d + d + i));
    assert reached(d + d, p);
    assert InTime(cfg, p, now);
    if now < cfg.ttl {
      assert InTime(cfg, Critical("", Got(now)), now + d);
      now, p := now + d, Critical("", Got(now));
    }
  }

  lemma SomeBeatIsLate(cfg: Config) returns (trace: seq<Action>)
    requires 0 < cfg.ttl <= cfg.interval + 4 * cfg.delay
    ensures TimelyRun(cfg, trace, 0) && !Covered(cfg, Run(cfg, INIT, trace), 0)
  {
    var reached := (t: int, p: Phase) => Reaches(cfg, t, p);
    AloneAfterSet(cfg);
    WaitingCloses(cfg, reached);
    SleepCloses(cfg, reached);
    GetCloses(cfg, reached);
    var now, p := SlowestBeat(cfg, reached);
    trace :| Leads(cfg, trace, now, p);
    ExpiredIsUncovered(cfg, now, p);
  }

  lemma ExpiredIsUncovered(cfg: Config, now: int, p: Phase)
    requires p.Critical? && p.lab == "" && cfg.ttl <= now
    ensures !Covered(cfg, Alone(cfg, now, p), 0)
  {
  }

  /** The timing condition is exact: the key covers the body in every timely run exactly when one beat,
      delayed four times, fits in the TTL. */
  lemma HeartbeatBoundIsExact(cfg: Config)
    requires OnePerAgent(cfg) && cfg.ttl > 0
    ensures cfg.interval + 4 * cfg.delay < cfg.ttl
       <==> forall trace, c :: TimelyRun(cfg, trace, c) ==> Covered(cfg, Run(cfg, INIT, trace), c)
  {
    if cfg.interval + 4 * cfg.delay < cfg.ttl {
      forall trace, c | TimelyRun(cfg, trace, c) ensures Covered(cfg, Run(cfg, INIT, trace), c) {
        HeartbeatHoldsTheKey(cfg, trace, c);
      }
    } else {
      var trace := SomeBeatIsLate(cfg);
      assert !Covered(cfg, Run(cfg, INIT, trace), 0);
    }
  }

  // ---- Up to the DELETE ----

  /** From the SET to the DELETE the key of `c` is live and its own. */
  predicate CoveredToDelete(cfg: Config, s: System, c: nat) {
    var p := PhaseOf(s, c);
    Holding(p) ==> var k := KeyOf(cfg, c, LabOf(p)); Live(s, k) && s.keys[k].owner == c
  }

  /** The body ends in the middle of the slowest beat: its EXPIRE never comes, and GET and DELETE of the
      release take two more delays. */
  lemma SlowestRelease(cfg: Config, reached: (int, Phase) -> bool) returns (now: int, p: Phase)
    requires cfg.interval + 4 * cfg.delay < cfg.ttl <= cfg.interval + 6 * cfg.delay && reached(0, Acquired("", true, 0))
    requires ClosedUnderWaiting(cfg, reached) && ClosedUnderEntry(cfg, reached)
    requires ClosedUnderSleep(cfg, reached) && ClosedUnderGet(cfg, reached) && ClosedUnderLeave(cfg, reached)
    ensures reached(now, p) && Holding(p) && p.lab == "" && cfg.ttl <= now
  {
    var d, i := cfg.delay, cfg.interval;
    assert InTime(cfg, Acquired("", true, 0), d) && InTime(cfg, Critical("", Rested(d)), d + d);
    var sleeping := Critical("", Sleeping(d + d + i));
    assert reached(d + d, sleeping) && InTime(cfg, sleeping, d + d + i + d);
    var got := d + d + i + d;
    assert reached(got, Critical("", Got(got))) && InTime(cfg, Critical("", Got(got)), got + d);
    var left := got + d;
    assert reached(left, Leaving("", left)) && InTime(cfg, Leaving("", left), left + d);
    now, p := left + d, Leaving("", left);
    if now < cfg.ttl {
      assert reached(now, Deleting("", now)) && InTime(cfg, Deleting("", now), now + d);
      now, p := now + d, Deleting("", now);
    }
  }

  lemma SomeReleaseIsLate(cfg: Config) returns (trace: seq<Action>)
    requires 0 < cfg.ttl <= cfg.interval + 6 * cfg.delay
    ensures TimelyRun(cfg, trace, 0) && !CoveredToDelete(cfg, Run(cfg, INIT, trace), 0)
  {
    if cfg.ttl <= cfg.interval + 4 * cfg.delay {
      trace := SomeBeatIsLate(cfg);
    } else {
      var reached := (t: int, p: Phase) => Reaches(cfg, t, p);
      AloneAfterSet(cfg);
      WaitingCloses(cfg, reached);
      SleepCloses(cfg, reached);
      GetCloses(cfg, reached);
      LeaveCloses(cfg, reached);
      var now, p := SlowestRelease(cfg, reached);
      trace :| Leads(cfg, trace, now, p);
    }
  }

  /** Also this timing condition is exact: the key covers everything up to the DELETE in every timely run
      exactly when one beat, delayed six times, fits in the TTL. */
  lemma ReleaseBoundIsExact(cfg: Config)
    requires OnePerAgent(cfg) && cfg.ttl > 0
    ensures cfg.interval + 6 * cfg.delay < cfg.ttl
       <==> forall trace, c :: TimelyRun(cfg, trace, c) ==> CoveredToDelete(cfg, Run(cfg, INIT, trace), c)
  {
    if cfg.interval + 6 * cfg.delay < cfg.ttl {
      forall trace, c | TimelyRun(cfg, trace, c) ensures CoveredToDelete(cfg, Run(cfg, INIT, trace), c) {
        RunKeepsBeat(cfg, trace, c);
      }
    } else {
      var trace := SomeReleaseIsLate(cfg);
      assert !CoveredToDelete(cfg, Run(cfg, INIT, trace), 0);
    }
  }
}
