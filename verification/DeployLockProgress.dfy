/** An acquisition of the deploy lock waits for its key as long as it may, gets it when it is free, and
    leaves none behind. */
module DeployLockProgress {
  import opened DeployLock

  // ---- One attempt ----

  /** Only the phase of `c` may differ. */
  ghost predicate OthersAsBefore(s: System, s': System, c: nat) {
    s'.now == s.now && forall d: nat :: d != c ==> PhaseOf(s', d) == PhaseOf(s, d)
  }

  /** An attempt does nothing before it is due.  When no key is live it sets one for a whole TTL and has the
      lock; else it ends the acquisition exactly when the timeout has passed since the local lock was
      taken, and otherwise leaves everything as it is and pauses. */
  lemma AttemptOutcome(cfg: Config, s: System, c: nat)
    requires PhaseOf(s, c).Trying?
    ensures var p := PhaseOf(s, c);
            var k := LockKey(cfg.agent(cfg.home(c)), p.lab);
            var live := k in s.keys && s.now < s.keys[k].expires;
            var s' := Next(cfg, s, Do(c, TrySet));
            var p' := PhaseOf(s', c);
            && OthersAsBefore(s, s', c)
            && (s.now < p.wake ==> s' == s)
            && (s.now >= p.wake && !live ==>
                  && p' == Acquired(p.lab, p.beats, s.now) && s'.locals == s.locals
                  && s'.keys == s.keys[k := Entry(c, s.now + cfg.ttl)])
            && (s.now >= p.wake && live ==>
                  && s'.keys == s.keys && (p'.Done? <==> s.now - p.start >= p.timeout)
                  && (p'.Done? ==> s'.locals == s.locals - {LocalKey(cfg.home(c), p.lab)})
                  && (!p'.Done? ==>
                        && p' == Trying(p.lab, p.timeout, p.beats, p.start, s.now + cfg.retry)
                        && s'.locals == s.locals))
  {
  }

  /** The local lock is taken when it is free, and the timeout counts from then on; the first attempt is due
      at once.  Otherwise nothing happens. */
  lemma LocalLockOutcome(cfg: Config, s: System, c: nat)
    requires PhaseOf(s, c).Waiting?
    ensures var p := PhaseOf(s, c);
            var l := LocalKey(cfg.home(c), p.lab);
            var s' := Next(cfg, s, Do(c, TakeLocal));
            && OthersAsBefore(s, s', c) && s'.keys == s.keys
            && (l in s.locals ==> s' == s)
            && (l !in s.locals ==>
                  s'.locals == s.locals[l := c] && PhaseOf(s', c) == Trying(p.lab, p.timeout, p.beats, s.now, s.now))
  {
  }

  // ---- The steps behind the SET ----

  /** The key of the agent of `c` for the lab is there, has not expired, and was written by this agent. */
  ghost predicate HasLiveKey(cfg: Config, s: System, c: nat, lab: string) {
    var agent := cfg.agent(cfg.home(c));
    var k := LockKey(agent, lab);
    k in s.keys && s.now < s.keys[k].expires && cfg.agent(cfg.home(s.keys[k].owner)) == agent
  }

  /** Keys and local locks stay, and `c` is in phase `p`. */
  ghost predicate OnlyPhase(s: System, s': System, c: nat, p: Phase) {
    OthersAsBefore(s, s', c) && s'.keys == s.keys && s'.locals == s.locals && PhaseOf(s', c) == p
  }

  /** `c` ends and gives its local lock back; the keys stay. */
  ghost predicate Ends(cfg: Config, s: System, s': System, c: nat, lab: string) {
    && OthersAsBefore(s, s', c) && s'.keys == s.keys && PhaseOf(s', c) == Done
    && s'.locals == s.locals - {LocalKey(cfg.home(c), lab)}
  }

  /** With the key set the body begins, and with it the heartbeat if there is to be one. */
  lemma EntryOutcome(cfg: Config, s: System, c: nat)
    requires PhaseOf(s, c).Acquired?
    ensures var p := PhaseOf(s, c);
            OnlyPhase(s, Next(cfg, s, Do(c, Enter)), c, Critical(p.lab, if p.beats then Rested(s.now) else NoBeat))
  {
  }

  /** One beat: sleep an interval; once awake look whether the own key is still there; if so, extend it by a
      whole TTL, as long as it has not expired since. */
  lemma BeatOutcome(cfg: Config, s: System, c: nat)
    requires PhaseOf(s, c).Critical?
    ensures var p := PhaseOf(s, c);
            var k := LockKey(cfg.agent(cfg.home(c)), p.lab);
            && (p.beat.Rested? ==>
                  OnlyPhase(s, Next(cfg, s, Do(c, BeatSleep)), c, Critical(p.lab, Sleeping(s.now + cfg.interval))))
            && (p.beat.Sleeping? ==>
                  var s' := Next(cfg, s, Do(c, BeatGet));
                  if s.now < p.beat.wake then s' == s
                  else if HasLiveKey(cfg, s, c, p.lab) then OnlyPhase(s, s', c, Critical(p.lab, Got(s.now)))
                  else OnlyPhase(s, s', c, Critical(p.lab, Rested(s.now))))
            && (p.beat.Got? ==>
                  var s' := Next(cfg, s, Do(c, BeatExpire));
                  && OthersAsBefore(s, s', c) && s'.locals == s.locals
                  && PhaseOf(s', c) == Critical(p.lab, Rested(s.now))
                  && s'.keys == if k in s.keys && s.now < s.keys[k].expires
                                then s.keys[k := Entry(s.keys[k].owner, s.now + cfg.ttl)] else s.keys)
            && OnlyPhase(s, Next(cfg, s, Do(c, BreakBeat)), c, Critical(p.lab, NoBeat))
            && OnlyPhase(s, Next(cfg, s, Do(c, Leave)), c, Leaving(p.lab, s.now))
  {
  }

  /** The release deletes the key exactly when it still looks like the agent's own, and always gives the local
      lock back; so does an acquisition that fails or is cancelled at any await, leaving the key to expire. */
  lemma ReleaseOutcome(cfg: Config, s: System, c: nat)
    ensures var p := PhaseOf(s, c);
            var k := LockKey(cfg.agent(cfg.home(c)), LabOf(p));
            && (p.Leaving? ==>
                  var s' := Next(cfg, s, Do(c, ReleaseGet));
                  if HasLiveKey(cfg, s, c, p.lab) then OnlyPhase(s, s', c, Deleting(p.lab, s.now))
                  else Ends(cfg, s, s', c, p.lab))
            && (p.Deleting? ==>
                  var s' := Next(cfg, s, Do(c, ReleaseDelete));
                  Ends(cfg, s.(keys := s.keys - {k}), s', c, p.lab))
            && (p.Waiting? ==> OnlyPhase(s, Next(cfg, s, Do(c, Abort)), c, Done))
            && (p.Trying? || p.Acquired? || p.Leaving? || p.Deleting? ==>
                  Ends(cfg, s, Next(cfg, s, Do(c, Abort)), c, p.lab))
  {
  }

  /** What happens around the acquisitions: time passes, one is started, a key is deleted by force, a process
      loses all its acquisitions and local locks but none of its keys. */
  lemma SurroundingsOutcome(cfg: Config, s: System, passed: nat, c: nat, lab: string, timeout: nat, beats: bool,
                            k: LockKey, process: nat)
    ensures Next(cfg, s, Tick(passed)) == s.(now := s.now + passed)
    ensures Next(cfg, s, Start(c, lab, timeout, beats))
         == if c in s.phases then s else s.(phases := s.phases[c := Waiting(lab, timeout, beats)])
    ensures Next(cfg, s, Force(k)) == s.(keys := s.keys - {k})
    ensures var s' := Next(cfg, s, Crash(process));
            && s'.now == s.now && s'.keys == s.keys && s'.phases.Keys == s.phases.Keys
            && (forall d :: d in s.phases ==> s'.phases[d] == if cfg.home(d) == process then Done else s.phases[d])
            && (forall l :: l in s'.locals <==> l in s.locals && l.process != process)
            && (forall l :: l in s'.locals ==> s'.locals[l] == s.locals[l])
  {
  }

  // ---- Waiting for the key ----

  ghost predicate SameKey(s: System, s': System, k: LockKey) {
    (k in s.keys <==> k in s'.keys) && (k in s.keys ==> s.keys[k] == s'.keys[k])
  }

  /** While `c` has the local lock, nobody else touches its key. */
  lemma OthersLeaveKey(cfg: Config, s: System, a: Action, c: nat)
    requires OnePerAgent(cfg) && LocksHeld(cfg, s) && PhaseOf(s, c).Trying? && Spares(cfg, s, a, c)
    requires !(a.Do? && a.c == c)
    ensures var s' := Next(cfg, s, a);
            PhaseOf(s', c) == PhaseOf(s, c) && SameKey(s, s', KeyOf(cfg, c, PhaseOf(s, c).lab)) && s.now <= s'.now
  {
    if a.Do? {
      MovedIsKeyStep(cfg, s, a.c, a.move);
      MoverHasLock(cfg, s, a.c, a.move);
      if Inside(PhaseOf(s, a.c)) { InsideApart(cfg, s, c, a.c); }
    }
  }

  lemma InsideApart(cfg: Config, s: System, c: nat, d: nat)
    requires OnePerAgent(cfg) && LocksHeld(cfg, s) && Inside(PhaseOf(s, c)) && Inside(PhaseOf(s, d))
    ensures KeyOf(cfg, c, LabOf(PhaseOf(s, c))) == KeyOf(cfg, d, LabOf(PhaseOf(s, d))) ==> c == d
  {
    if KeyOf(cfg, c, LabOf(PhaseOf(s, c))) == KeyOf(cfg, d, LabOf(PhaseOf(s, d))) {
      assert LocalOf(cfg, c, LabOf(PhaseOf(s, c))) == LocalOf(cfg, d, LabOf(PhaseOf(s, d)));
    }
  }

  lemma MoverHasLock(cfg: Config, s: System, d: nat, move: Move)
    ensures Moved(cfg, s, d, move).keys != s.keys ==> d in s.phases && Inside(PhaseOf(s, d))
  {
  }

  /** When the key in the way of `c` expires; now when there is none. */
  function Expiry(cfg: Config, s: System, c: nat): int {
    var k := KeyOf(cfg, c, LabOf(PhaseOf(s, c)));
    if Live(s, k) then s.keys[k].expires else s.now
  }

  /** `c`, waiting in `s`, still waits in `s'`: the key is the same, and the next attempt is due one pause
      after its expiry at the latest. */
  ghost predicate StillTrying(cfg: Config, s: System, s': System, c: nat)
    requires PhaseOf(s, c).Trying?
  {
    var p, p' := PhaseOf(s, c), PhaseOf(s', c);
    && p'.Trying? && p' == p.(wake := p'.wake) && SameKey(s, s', KeyOf(cfg, c, p.lab)) && s.now <= s'.now
    && p'.wake <= Expiry(cfg, s, c) + cfg.retry
  }

  /** `c` gave up, not before its timeout, and the key outlasts the timeout. */
  ghost predicate GaveUp(cfg: Config, s: System, s': System, c: nat)
    requires PhaseOf(s, c).Trying?
  {
    var p := PhaseOf(s, c);
    && PhaseOf(s', c).Done? && p.start + p.timeout <= s'.now && p.start + p.timeout < Expiry(cfg, s, c)
  }

  /** Where an own attempt leads from a state of waiting. */
  lemma AttemptWhileWaiting(cfg: Config, s: System, s1: System, c: nat)
    requires PhaseOf(s, c).Trying? && StillTrying(cfg, s, s1, c)
    ensures var s2 := Next(cfg, s1, Do(c, TrySet));
            StillTrying(cfg, s, s2, c) || GaveUp(cfg, s, s2, c)
            || (PhaseOf(s2, c).Acquired? && Expiry(cfg, s, c) <= s2.now)
  {
    AttemptOutcome(cfg, s1, c);
  }

  lemma WaitingOneMore(cfg: Config, s: System, s1: System, a: Action, c: nat)
    requires OnePerAgent(cfg) && LocksHeld(cfg, s1) && Spares(cfg, s1, a, c)
    requires PhaseOf(s, c).Trying? && StillTrying(cfg, s, s1, c)
    ensures var s2 := Next(cfg, s1, a);
            StillTrying(cfg, s, s2, c) || GaveUp(cfg, s, s2, c)
            || (PhaseOf(s2, c).Acquired? && Expiry(cfg, s, c) <= s2.now)
  {
    if a == Do(c, TrySet) {
      AttemptWhileWaiting(cfg, s, s1, c);
    } else if a.Do? && a.c == c {
      assert Next(cfg, s1, a) == s1;
    } else {
      OthersLeaveKey(cfg, s1, a, c);
    }
  }

  lemma DoneStays(cfg: Config, s: System, a: Action, c: nat)
    requires PhaseOf(s, c).Done?
    ensures PhaseOf(Next(cfg, s, a), c).Done? && s.now <= Next(cfg, s, a).now
  {
    if a.Do? { MovedIsLockStep(cfg, s, a.c, a.move); }
  }

  /** After `i` actions the acquisition has just set its key, not before `when`. */
  ghost predicate AcquiredAt(cfg: Config, trace: seq<Action>, i: int, c: nat, when: int) {
    0 <= i <= |trace| && var s := Run(cfg, INIT, trace[..i]); PhaseOf(s, c).Acquired? && when <= s.now
  }

  ghost predicate AcquiredSince(cfg: Config, trace: seq<Action>, n: nat, c: nat, when: int) {
    exists i :: n <= i && AcquiredAt(cfg, trace, i, c, when)
  }

  lemma AcquiredBefore(cfg: Config, trace: seq<Action>, n: nat, c: nat, when: int)
    requires trace != [] && AcquiredSince(cfg, trace[..|trace| - 1], n, c, when)
    ensures AcquiredSince(cfg, trace, n, c, when)
  {
    var before := trace[..|trace| - 1];
    var i :| n <= i && AcquiredAt(cfg, before, i, c, when);
    assert before[..i] == trace[..i];
    assert AcquiredAt(cfg, trace, i, c, when);
  }

  /** Before an attempt is due at most one pause passes. */
  lemma {:induction false} PausesAreShort(cfg: Config, trace: seq<Action>, c: nat)
    ensures var s := Run(cfg, INIT, trace); PhaseOf(s, c).Trying? ==> PhaseOf(s, c).wake <= s.now + cfg.retry
  {
    if trace != [] {
      var before, a := trace[..|trace| - 1], trace[|trace| - 1];
      PausesAreShort(cfg, before, c);
      PauseAfterStep(cfg, Run(cfg, INIT, before), a, c);
    }
  }

  lemma PauseAfterStep(cfg: Config, s: System, a: Action, c: nat)
    requires PhaseOf(s, c).Trying? ==> PhaseOf(s, c).wake <= s.now + cfg.retry
    ensures var s' := Next(cfg, s, a); PhaseOf(s', c).Trying? ==> PhaseOf(s', c).wake <= s'.now + cfg.retry
  {
    if a.Do? && a.c == c {
      if PhaseOf(s, c).Trying? && a.move.TrySet? {
        AttemptOutcome(cfg, s, c);
      } else if PhaseOf(s, c).Critical? {
        BeatIsKeyStep(cfg, s, c, a.move);
      }
    } else if a.Do? {
      MovedIsKeyStep(cfg, s, a.c, a.move);
    }
  }

  /** What has become, after the whole trace, of an acquisition that was waiting after `n` actions. */
  ghost predicate WaitedFrom(cfg: Config, trace: seq<Action>, n: nat, c: nat)
    requires n <= |trace| && PhaseOf(Run(cfg, INIT, trace[..n]), c).Trying?
  {
    var s, s' := Run(cfg, INIT, trace[..n]), Run(cfg, INIT, trace);
    StillTrying(cfg, s, s', c) || GaveUp(cfg, s, s', c) || AcquiredSince(cfg, trace, n, c, Expiry(cfg, s, c))
  }

  lemma {:induction false} WaitsOn(cfg: Config, trace: seq<Action>, n: nat, c: nat)
    requires OnePerAgent(cfg) && TimelyRun(cfg, trace, c) && n <= |trace|
    requires PhaseOf(Run(cfg, INIT, trace[..n]), c).Trying?
    ensures WaitedFrom(cfg, trace, n, c)
  {
    if n == |trace| {
      assert trace[..n] == trace;
      PausesAreShort(cfg, trace, c);
    } else {
      var before, a := trace[..|trace| - 1], trace[|trace| - 1];
      assert before[..n] == trace[..n];
      WaitsOn(cfg, before, n, c);
      RunKeepsInv(cfg, INIT, before);
      WaitsOneMore(cfg, trace, n, c, Run(cfg, INIT, trace[..n]), Run(cfg, INIT, before));
    }
  }

  lemma AcquiredNow(cfg: Config, trace: seq<Action>, n: nat, c: nat, when: int)
    requires n <= |trace| && var s := Run(cfg, INIT, trace); PhaseOf(s, c).Acquired? && when <= s.now
    ensures AcquiredSince(cfg, trace, n, c, when)
  {
    assert trace[..|trace|] == trace;
    assert AcquiredAt(cfg, trace, |trace|, c, when);
  }

  lemma WaitsOneMore(cfg: Config, trace: seq<Action>, n: nat, c: nat, s: System, s1: System)
    requires OnePerAgent(cfg) && TimelyRun(cfg, trace, c) && n < |trace| && LocksHeld(cfg, s1) && PhaseOf(s, c).Trying?
    requires var before := trace[..|trace| - 1];
             && s1 == Run(cfg, INIT, before)
             && (StillTrying(cfg, s, s1, c) || GaveUp(cfg, s, s1, c)
                 || AcquiredSince(cfg, before, n, c, Expiry(cfg, s, c)))
    ensures var s2 := Run(cfg, INIT, trace);
            StillTrying(cfg, s, s2, c) || GaveUp(cfg, s, s2, c) || AcquiredSince(cfg, trace, n, c, Expiry(cfg, s, c))
  {
    var a := trace[|trace| - 1];
    if AcquiredSince(cfg, trace[..|trace| - 1], n, c, Expiry(cfg, s, c)) {
      AcquiredBefore(cfg, trace, n, c, Expiry(cfg, s, c));
    } else if GaveUp(cfg, s, s1, c) {
      DoneStays(cfg, s1, a, c);
    } else {
      WaitingOneMore(cfg, s, s1, a, c);
      if PhaseOf(Next(cfg, s1, a), c).Acquired? { AcquiredNow(cfg, trace, n, c, Expiry(cfg, s, c)); }
    }
  }

  ghost predicate NotAfter(cfg: Config, trace: seq<Action>, i: int) {
    0 <= i <= |trace| ==> Run(cfg, INIT, trace[..i]).now <= Run(cfg, INIT, trace).now
  }

  lemma {:induction false} LaterThanPrefixes(cfg: Config, trace: seq<Action>)
    ensures forall i :: NotAfter(cfg, trace, i)
  {
    assert trace[..|trace|] == trace;
    if trace != [] {
      var before, a := trace[..|trace| - 1], trace[|trace| - 1];
      LaterThanPrefixes(cfg, before);
      var s := Run(cfg, INIT, before);
      if a.Do? { MovedIsKeyStep(cfg, s, a.c, a.move); }
      forall i | 0 <= i < |trace| ensures NotAfter(cfg, trace, i) {
        assert before[..i] == trace[..i] && NotAfter(cfg, before, i);
      }
    }
  }

  lemma AcquiredInThePast(cfg: Config, trace: seq<Action>, n: nat, c: nat, when: int)
    requires AcquiredSince(cfg, trace, n, c, when)
    ensures when <= Run(cfg, INIT, trace).now
  {
    LaterThanPrefixes(cfg, trace);
    var i :| n <= i && AcquiredAt(cfg, trace, i, c, when);
    assert NotAfter(cfg, trace, i);
  }

  /** `c` is waiting as in `s`, apart from when its next attempt is due. */
  ghost predicate Waits(s: System, s': System, c: nat)
    requires PhaseOf(s, c).Trying?
  {
    PhaseOf(s', c).Trying? && PhaseOf(s', c) == PhaseOf(s, c).(wake := PhaseOf(s', c).wake)
  }

  /** Waiting is worth it.  In a timely run that spares `c`, an acquisition that is waiting after `n` actions
      goes on waiting as long as the key in its way lasts and its timeout has not passed; and if the key
      expires within the timeout, it never gives up, and has its own key at the latest one pause and one
      delay after the expiry. */
  lemma WaitIsRewarded(cfg: Config, trace: seq<Action>, n: nat, c: nat)
    requires OnePerAgent(cfg) && TimelyRun(cfg, trace, c) && n <= |trace|
    requires PhaseOf(Run(cfg, INIT, trace[..n]), c).Trying?
    ensures var s, s' := Run(cfg, INIT, trace[..n]), Run(cfg, INIT, trace);
            var deadline, expiry := PhaseOf(s, c).start + PhaseOf(s, c).timeout, Expiry(cfg, s, c);
            && (s'.now < expiry && s'.now < deadline ==> Waits(s, s', c))
            && (expiry <= deadline ==>
                  || AcquiredSince(cfg, trace, n, c, expiry)
                  || (Waits(s, s', c) && s'.now <= expiry + cfg.retry + cfg.delay))
  {
    WaitsOn(cfg, trace, n, c);
    var s, s' := Run(cfg, INIT, trace[..n]), Run(cfg, INIT, trace);
    if AcquiredSince(cfg, trace, n, c, Expiry(cfg, s, c)) {
      AcquiredInThePast(cfg, trace, n, c, Expiry(cfg, s, c));
    } else {
      WaitEnds(cfg, s, s', c);
    }
  }

  lemma WaitEnds(cfg: Config, s: System, s': System, c: nat)
    requires PhaseOf(s, c).Trying? && Timely(cfg, s', c) && (StillTrying(cfg, s, s', c) || GaveUp(cfg, s, s', c))
    ensures var deadline, expiry := PhaseOf(s, c).start + PhaseOf(s, c).timeout, Expiry(cfg, s, c);
            && (s'.now < expiry && s'.now < deadline ==> Waits(s, s', c))
            && (expiry <= deadline ==> Waits(s, s', c) && s'.now <= expiry + cfg.retry + cfg.delay)
  {
  }

  // ---- Leaving no key behind ----

  /** Every key that `c` wrote is the one it is running under. */
  ghost predicate KeysInUse(cfg: Config, s: System, c: nat) {
    forall k :: k in s.keys && s.keys[k].owner == c ==>
      Holding(PhaseOf(s, c)) && k == KeyOf(cfg, c, LabOf(PhaseOf(s, c)))
  }

  lemma ReleaseDeletes(cfg: Config, s: System, c: nat)
    requires Holding(PhaseOf(s, c)) && LooksMine(cfg, s, c, KeyOf(cfg, c, LabOf(PhaseOf(s, c))))
    ensures PhaseOf(s, c).Leaving? ==>
              var s' := Next(cfg, s, Do(c, ReleaseGet));
              PhaseOf(s', c) == Deleting(PhaseOf(s, c).lab, s.now) && s'.keys == s.keys && s'.locals == s.locals
    ensures PhaseOf(s, c).Deleting? ==>
              var s' := Next(cfg, s, Do(c, ReleaseDelete));
              && PhaseOf(s', c).Done? && s'.keys == s.keys - {KeyOf(cfg, c, PhaseOf(s, c).lab)}
              && s'.locals == s.locals - {LocalOf(cfg, c, PhaseOf(s, c).lab)}
  {
  }

  lemma OwnMoveKeepsInUse(cfg: Config, s: System, c: nat, move: Move)
    requires KeysInUse(cfg, s, c) && !move.Abort?
    requires Holding(PhaseOf(s, c)) ==> LooksMine(cfg, s, c, KeyOf(cfg, c, LabOf(PhaseOf(s, c))))
    ensures KeysInUse(cfg, Moved(cfg, s, c, move), c)
  {
    MovedIsKeyStep(cfg, s, c, move);
    MovedIsLockStep(cfg, s, c, move);
    var p := PhaseOf(s, c);
    if p.Leaving? && move.ReleaseGet? { ReleaseDeletes(cfg, s, c); }
    if p.Deleting? && move.ReleaseDelete? { ReleaseDeletes(cfg, s, c); }
    if p.Critical? { BeatStaysOrLeaves(cfg, s, c, move); }
  }

  lemma BeatStaysOrLeaves(cfg: Config, s: System, c: nat, move: Move)
    requires PhaseOf(s, c).Critical?
    ensures var p' := PhaseOf(Moved(cfg, s, c, move), c); Holding(p') && LabOf(p') == PhaseOf(s, c).lab
  {
  }

  lemma OtherStepKeepsInUse(cfg: Config, s: System, a: Action, c: nat)
    requires KeysInUse(cfg, s, c) && Spares(cfg, s, a, c) && !(a.Do? && a.c == c)
    ensures KeysInUse(cfg, Next(cfg, s, a), c)
  {
    if a.Do? { MovedIsKeyStep(cfg, s, a.c, a.move); }
  }

  lemma {:induction false} RunKeepsInUse(cfg: Config, trace: seq<Action>, c: nat)
    requires OnePerAgent(cfg) && cfg.interval + 6 * cfg.delay < cfg.ttl && TimelyRun(cfg, trace, c)
    ensures KeysInUse(cfg, Run(cfg, INIT, trace), c)
  {
    if trace != [] {
      var before, a := trace[..|trace| - 1], trace[|trace| - 1];
      RunKeepsInUse(cfg, before, c);
      if a.Do? && a.c == c {
        RunKeepsBeat(cfg, before, c);
        OwnMoveKeepsInUse(cfg, Run(cfg, INIT, before), c, a.move);
      } else {
        OtherStepKeepsInUse(cfg, Run(cfg, INIT, before), a, c);
      }
    }
  }

  /** A timely acquisition with a heartbeat cleans up: once it is done, no key that it wrote is left. */
  lemma NoKeyLeftBehind(cfg: Config, trace: seq<Action>, c: nat)
    requires OnePerAgent(cfg) && cfg.interval + 6 * cfg.delay < cfg.ttl && TimelyRun(cfg, trace, c)
    ensures var s := Run(cfg, INIT, trace);
            PhaseOf(s, c).Done? ==> forall k :: k in s.keys ==> s.keys[k].owner != c
  {
    RunKeepsInUse(cfg, trace, c);
  }
}
