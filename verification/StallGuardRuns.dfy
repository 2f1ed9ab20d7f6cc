/** Whole runs of the stall guard: when it exits, when it must, and when it must not strike. */
module StallGuardRuns {
  import opened Prelude
  import opened StallGuard

  /** The guard's states before the first check and after each one. */
  ghost predicate IsRun(c: Config, g: seq<Guard>, obs: seq<Observation>) {
    && |g| == |obs| + 1 && g[0] == STARTED
    && forall i :: 0 <= i < |obs| ==> g[i + 1] == Step(c, g[i], obs[i])
  }

  /** The state the loop ends in is the last state of its run. */
  lemma {:induction false} LoopEndsInRun(c: Config, g: seq<Guard>, obs: seq<Observation>)
    requires IsRun(c, g, obs)
    ensures g[|obs|] == Run(c, STARTED, obs)
  {
    if obs != [] {
      var n := |obs| - 1;
      LoopEndsInRun(c, g[..n + 1], obs[..n]);
    }
  }

  /** What the guard made of check `i`. */
  ghost function VerdictAt(c: Config, g: seq<Guard>, obs: seq<Observation>, i: int): Verdict
    requires IsRun(c, g, obs) && 0 <= i < |obs|
  {
    VerdictOf(c, g[i], obs[i])
  }

  ghost predicate Strikes(c: Config, g: seq<Guard>, obs: seq<Observation>, i: int) {
    IsRun(c, g, obs) && 0 <= i < |obs| && VerdictAt(c, g, obs, i) == Struck
  }

  ghost predicate ClockGoesForward(obs: seq<Observation>) {
    forall i, j :: 0 <= i <= j < |obs| ==> obs[i].now <= obs[j].now
  }

  predicate StaleAge(c: Config, o: Observation) { o.age.Some? && o.age.value > c.maxSnapshotAge }

  // ---------------------------------------------------------------- strikes and exit

  lemma StepCounts(c: Config, g: Guard, o: Observation)
    requires !g.exited
    ensures Step(c, g, o).stale == if VerdictOf(c, g, o) == Struck then g.stale + 1 else 0
    ensures VerdictOf(c, g, o) != Struck ==> !Step(c, g, o).exited
  {
  }

  lemma ExitedSteps(c: Config, g: Guard, o: Observation)
    requires g.exited
    ensures Step(c, g, o) == g
  {
  }

  /** The strike counter is the length of the longest unbroken suffix of striking checks. */
  lemma {:induction false} StaleCountsTheSuffix(c: Config, g: seq<Guard>, obs: seq<Observation>, n: nat)
    requires IsRun(c, g, obs) && n <= |obs| && (n > 0 ==> !g[n - 1].exited)
    ensures g[n].stale <= n
    ensures forall i :: n - g[n].stale <= i < n ==> Strikes(c, g, obs, i)
    ensures g[n].stale < n ==> !Strikes(c, g, obs, n - g[n].stale - 1)
  {
    hide Step, VerdictOf;
    if n > 0 {
      if n > 1 {
        assert g[n - 1] == Step(c, g[n - 2], obs[n - 2]);
        if g[n - 2].exited { ExitedSteps(c, g[n - 2], obs[n - 2]); }
      }
      StaleCountsTheSuffix(c, g, obs, n - 1);
      StepCounts(c, g[n - 1], obs[n - 1]);
    }
  }

  lemma {:induction false} ExitIsForGood(c: Config, g: seq<Guard>, obs: seq<Observation>, m: nat, n: nat)
    requires IsRun(c, g, obs) && m <= n <= |obs| && g[m].exited
    ensures g[n] == g[m]
  {
    if m < n {
      ExitIsForGood(c, g, obs, m, n - 1);
    }
  }

  ghost predicate StrikesThroughout(c: Config, g: seq<Guard>, obs: seq<Observation>, start: nat) {
    && start + c.consecutiveChecks <= |obs|
    && forall i :: start <= i < start + c.consecutiveChecks ==> Strikes(c, g, obs, i)
  }

  lemma {:induction false} StrikesAddUp(c: Config, g: seq<Guard>, obs: seq<Observation>, m: nat, n: nat)
    requires IsRun(c, g, obs) && m <= n <= |obs|
    requires forall i :: m <= i < n ==> Strikes(c, g, obs, i) || g[i].exited
    ensures g[n].exited || g[n].stale >= n - m
  {
    if m < n {
      StrikesAddUp(c, g, obs, m, n - 1);
      assert Strikes(c, g, obs, n - 1) || g[n - 1].exited;
    }
  }

  lemma StrikesForceExit(c: Config, g: seq<Guard>, obs: seq<Observation>, m: nat)
    requires IsRun(c, g, obs) && ValidConfig(c) && c.kill && m + c.consecutiveChecks <= |obs|
    requires forall i :: m <= i < m + c.consecutiveChecks ==> Strikes(c, g, obs, i) || g[i].exited
    ensures g[m + c.consecutiveChecks].exited
  {
    var last := m + c.consecutiveChecks - 1;
    StrikesAddUp(c, g, obs, m, last);
    assert Strikes(c, g, obs, last) || g[last].exited;
  }

  lemma {:induction false} FirstExit(c: Config, g: seq<Guard>, obs: seq<Observation>, n: nat) returns (m: nat)
    requires IsRun(c, g, obs) && n <= |obs| && g[n].exited
    ensures 0 < m <= n && g[m].exited && !g[m - 1].exited
  {
    if g[n - 1].exited {
      m := FirstExit(c, g, obs, n - 1);
    } else {
      m := n;
    }
  }

  /** The process exits exactly when killing is on and some `consecutiveChecks` checks in a row
      all strike. */
  lemma ExitIffEnoughConsecutiveStrikes(c: Config, g: seq<Guard>, obs: seq<Observation>)
    requires IsRun(c, g, obs) && ValidConfig(c)
    ensures g[|obs|].exited <==> c.kill && exists start: nat :: StrikesThroughout(c, g, obs, start)
  {
    if g[|obs|].exited {
      var n := FirstExit(c, g, obs, |obs|);
      StaleCountsTheSuffix(c, g, obs, n);
      assert StrikesThroughout(c, g, obs, n - c.consecutiveChecks);
    }
    if c.kill && exists start: nat :: StrikesThroughout(c, g, obs, start) {
      var start: nat :| StrikesThroughout(c, g, obs, start);
      StrikesForceExit(c, g, obs, start);
      ExitIsForGood(c, g, obs, start + c.consecutiveChecks, |obs|);
    }
  }

  // ---------------------------------------------------------------- what a strike takes

  /** A check strikes exactly when the process runs, the output is known to be too old, the tick is not
      excusable, and, while a revive is still due, the revive neither finds another owner nor a tick
      that started after the check. */
  lemma StrikeIff(c: Config, g: Guard, o: Observation)
    ensures VerdictOf(c, g, o) == Struck <==>
            && !g.exited && o.age.Some? && o.age.value > c.maxSnapshotAge && !Excused(c, WatchAfter(g, o), o)
            && (g.revived ||
                (!o.revive.NotOwner? && (o.revive.TickInProgress? ==> g.withdrawn || !o.probe.NoTick?)))
  {
  }

  /** No kill with fresh output: an exit follows as many successive checks as it takes, each of which saw
      an age known and too old, and whose revive, if one was due, found no other owner. */
  lemma ExitNeedsOldOutput(c: Config, g: seq<Guard>, obs: seq<Observation>) returns (start: nat)
    requires IsRun(c, g, obs) && ValidConfig(c) && g[|obs|].exited
    ensures start + c.consecutiveChecks <= |obs|
    ensures forall i :: start <= i < start + c.consecutiveChecks ==>
              && obs[i].age.Some? && obs[i].age.value > c.maxSnapshotAge
              && (g[i].revived || !obs[i].revive.NotOwner?)
  {
    ExitIffEnoughConsecutiveStrikes(c, g, obs);
    start :| StrikesThroughout(c, g, obs, start);
    forall i | start <= i < start + c.consecutiveChecks
      ensures obs[i].age.Some? && obs[i].age.value > c.maxSnapshotAge && (g[i].revived || !obs[i].revive.NotOwner?)
    {
      assert Strikes(c, g, obs, i);
      StrikeIff(c, g[i], obs[i]);
    }
    hide VerdictOf, Step;
  }

  /** Fresh output starts everything over: no strike stands, no watch is kept, the withdrawal is back. */
  lemma FreshOutputClears(c: Config, g: seq<Guard>, obs: seq<Observation>, i: nat)
    requires IsRun(c, g, obs) && i < |obs| && !g[i].exited
    requires obs[i].age.Some? && obs[i].age.value <= c.maxSnapshotAge
    ensures g[i + 1].stale == 0 && g[i + 1].watch.None? && !g[i + 1].withdrawn && !g[i + 1].exited
    ensures g[i + 1].revived == g[i].revived
  {
  }

  /** An unknown age clears the strikes and gives the withdrawal back, but keeps the watch. */
  lemma UnknownAgeClears(c: Config, g: seq<Guard>, obs: seq<Observation>, i: nat)
    requires IsRun(c, g, obs) && i < |obs| && !g[i].exited && obs[i].age.None?
    ensures g[i + 1].stale == 0 && g[i + 1].watch == g[i].watch && !g[i + 1].withdrawn && !g[i + 1].exited
  {
  }

  /** What excuses old output: a running tick that moved within the no-progress deadline and is under the
      cap, or a failing probe under the cap. */
  lemma ExcusedIff(c: Config, g: Guard, o: Observation)
    ensures Excused(c, WatchAfter(g, o), o) <==>
            var w := WatchAfter(g, o);
            && w.Some? && o.now - w.value.firstSeen <= TickMaxSeconds(c)
            && (o.probe.ProbeFails? || (o.probe.Tick? && o.now - w.value.lastProgress <= c.progressSeconds))
  {
  }

  /** A watch is replaced exactly by a tick that names another run; else it goes on from its first sight,
      and its progress time moves exactly when the progress does. */
  lemma WatchIsOfOneRun(w: Watch, t: Token, now: real)
    ensures
      var v := WatchActive(Some(w), t, now);
      if RunIdOf(t).Some? && RunIdOf(t) != w.run then v.firstSeen == now && v.lastProgress == now && v.run == RunIdOf(t)
      else
        && v.firstSeen == w.firstSeen && v.run == w.run
        && v.lastProgress == (if ProgressOf(t) == ProgressOf(w.token) then w.lastProgress else now)
    ensures WatchActive(Some(w), t, now).token == t && !WatchActive(Some(w), t, now).probeUnknown
  {
  }

  // ---------------------------------------------------------------- bounded detection

  lemma StepWatchIsNotFromTheFuture(c: Config, g: Guard, o: Observation)
    requires g.watch.Some? ==> g.watch.value.firstSeen <= o.now && g.watch.value.lastProgress <= o.now
    ensures
      var w := Step(c, g, o).watch;
      w.Some? ==> w.value.firstSeen <= o.now && w.value.lastProgress <= o.now
  {
  }

  lemma {:induction false} WatchIsNotFromTheFuture(c: Config, g: seq<Guard>, obs: seq<Observation>, n: nat)
    requires IsRun(c, g, obs) && ClockGoesForward(obs) && n <= |obs|
    ensures g[n].watch.Some? ==>
            n > 0 && g[n].watch.value.firstSeen <= obs[n - 1].now && g[n].watch.value.lastProgress <= obs[n - 1].now
  {
    if n > 0 {
      WatchIsNotFromTheFuture(c, g, obs, n - 1);
      StepWatchIsNotFromTheFuture(c, g[n - 1], obs[n - 1]);
    }
  }

  /** A probe that fails, or that reports run `r` or a tick whose run id was lost. */
  predicate ReportsRunOrFails(o: Observation, r: RunId) {
    o.probe.ProbeFails? || (o.probe.Tick? && (RunIdOf(o.probe.token) == Some(r) || RunIdOf(o.probe.token) == None))
  }

  ghost predicate StuckOnRun(c: Config, obs: seq<Observation>, j: nat, r: RunId)
  {
    && j < |obs| && obs[j].probe.Tick? && RunIdOf(obs[j].probe.token) == Some(r)
    && forall m :: j <= m < |obs| ==>
         StaleAge(c, obs[m]) && ReportsRunOrFails(obs[m], r) && !obs[m].revive.NotOwner?
  }

  predicate WatchesSince(w: Option<Watch>, r: RunId, since: real) {
    w.Some? && w.value.run == Some(r) && w.value.firstSeen <= since
  }

  lemma StepKeepsFirstSight(c: Config, g: Guard, o: Observation, r: RunId, since: real)
    requires StaleAge(c, o) && ReportsRunOrFails(o, r)
    requires
      || WatchesSince(g.watch, r, since)
      || (o.probe.Tick? && RunIdOf(o.probe.token) == Some(r) && o.now == since
          && (g.watch.Some? ==> g.watch.value.firstSeen <= since))
    ensures Step(c, g, o).exited || WatchesSince(Step(c, g, o).watch, r, since)
  {
  }

  lemma {:induction false} WatchKeepsFirstSight(c: Config, g: seq<Guard>, obs: seq<Observation>, j: nat, n: nat,
                                                r: RunId)
    requires IsRun(c, g, obs) && ClockGoesForward(obs) && StuckOnRun(c, obs, j, r) && j < n <= |obs|
    ensures g[n].exited || WatchesSince(g[n].watch, r, obs[j].now)
  {
    if n == j + 1 {
      WatchIsNotFromTheFuture(c, g, obs, j);
      StepKeepsFirstSight(c, g[j], obs[j], r, obs[j].now);
    } else {
      WatchKeepsFirstSight(c, g, obs, j, n - 1, r);
      if !g[n - 1].exited {
        StepKeepsFirstSight(c, g[n - 1], obs[n - 1], r, obs[j].now);
      }
    }
  }

  /** Bounded detection: from the first check later than first sight of the run plus the absolute
      cap, `consecutiveChecks` checks suffice, however the token moves or the probe flaps. */
  lemma BoundedDetection(c: Config, g: seq<Guard>, obs: seq<Observation>, j: nat, k: nat, r: RunId)
    requires IsRun(c, g, obs) && ValidConfig(c) && c.kill && ClockGoesForward(obs) && StuckOnRun(c, obs, j, r)
    requires j <= k && k + c.consecutiveChecks <= |obs|
    requires obs[k].now - obs[j].now > TickMaxSeconds(c)
    ensures g[k + c.consecutiveChecks].exited
  {
    forall i | k <= i < k + c.consecutiveChecks ensures Strikes(c, g, obs, i) || g[i].exited {
      assert TickMaxSeconds(c) >= 120.0;
      WatchKeepsFirstSight(c, g, obs, j, i, r);
      assert obs[k].now <= obs[i].now;
      CapStrikes(c, g[i], obs[i], r, obs[j].now);
    }
    StrikesForceExit(c, g, obs, k);
  }

  lemma CapStrikes(c: Config, g: Guard, o: Observation, r: RunId, since: real)
    requires StaleAge(c, o) && ReportsRunOrFails(o, r) && !o.revive.NotOwner?
    requires g.exited || WatchesSince(g.watch, r, since)
    requires o.now - since > TickMaxSeconds(c)
    ensures g.exited || VerdictOf(c, g, o) == Struck
  {
  }

  /** The progress token of one run, unchanged at every check from `j` on. */
  ghost predicate FrozenTick(c: Config, obs: seq<Observation>, j: nat, r: RunId, p: Option<nat>)
  {
    && j < |obs|
    && forall m :: j <= m < |obs| ==>
         StaleAge(c, obs[m]) && obs[m].probe == Tick(Tagged(Some(r), p)) && !obs[m].revive.NotOwner?
  }

  predicate FrozenSince(w: Option<Watch>, r: RunId, p: Option<nat>, since: real) {
    && w.Some? && w.value.run == Some(r) && !w.value.probeUnknown
    && w.value.token == Tagged(Some(r), p) && w.value.lastProgress <= since
  }

  lemma FrozenStep(c: Config, g: Guard, o: Observation, r: RunId, p: Option<nat>, since: real)
    requires StaleAge(c, o) && o.probe == Tick(Tagged(Some(r), p)) && !g.exited && !o.revive.NotOwner?
    requires
      || FrozenSince(g.watch, r, p, since)
      || (o.now == since && (g.watch.Some? ==> g.watch.value.lastProgress <= since))
    ensures FrozenSince(Step(c, g, o).watch, r, p, since)
    ensures o.now - since > c.progressSeconds ==> VerdictOf(c, g, o) == Struck
  {
    assert WatchAfter(g, o).Some?;
  }

  lemma {:induction false} FrozenWatch(c: Config, g: seq<Guard>, obs: seq<Observation>, j: nat, n: nat, r: RunId,
                                       p: Option<nat>)
    requires IsRun(c, g, obs) && ClockGoesForward(obs) && FrozenTick(c, obs, j, r, p) && j < n <= |obs|
    requires c.progressSeconds >= 0.0
    ensures g[n].exited || FrozenSince(g[n].watch, r, p, obs[j].now)
  {
    if n == j + 1 {
      WatchIsNotFromTheFuture(c, g, obs, j);
      if !g[j].exited { FrozenStep(c, g[j], obs[j], r, p, obs[j].now); }
    } else {
      FrozenWatch(c, g, obs, j, n - 1, r, p);
      if !g[n - 1].exited { FrozenStep(c, g[n - 1], obs[n - 1], r, p, obs[j].now); }
    }
  }

  /** A tick that stops advancing is caught by the no-progress deadline, without the cap. */
  lemma FrozenTickDetected(c: Config, g: seq<Guard>, obs: seq<Observation>, j: nat, k: nat, r: RunId, p: Option<nat>)
    requires IsRun(c, g, obs) && ValidConfig(c) && c.kill && ClockGoesForward(obs) && FrozenTick(c, obs, j, r, p)
    requires j <= k && k + c.consecutiveChecks <= |obs|
    requires obs[k].now - obs[j].now > c.progressSeconds
    ensures g[k + c.consecutiveChecks].exited
  {
    forall i | k <= i < k + c.consecutiveChecks ensures Strikes(c, g, obs, i) || g[i].exited {
      FrozenWatch(c, g, obs, j, i, r, p);
      assert obs[k].now <= obs[i].now;
      if !g[i].exited { FrozenStep(c, g[i], obs[i], r, p, obs[j].now); }
    }
    StrikesForceExit(c, g, obs, k);
  }

  ghost predicate SchedulerDead(c: Config, obs: seq<Observation>, j: nat) {
    forall m :: j <= m < |obs| ==> StaleAge(c, obs[m]) && obs[m].probe.NoTick? && !obs[m].revive.NotOwner?
  }

  lemma {:induction false} NoSecondWithdrawal(c: Config, g: seq<Guard>, obs: seq<Observation>, j: nat, n: nat)
    requires IsRun(c, g, obs) && SchedulerDead(c, obs, j) && j < n <= |obs|
    ensures g[n].exited || g[n].revived || g[n].withdrawn
    ensures n >= j + 2 ==> Strikes(c, g, obs, n - 1) || g[n - 1].exited
  {
    if n > j + 1 {
      NoSecondWithdrawal(c, g, obs, j, n - 1);
    }
    assert StaleAge(c, obs[n - 1]) && g[n] == Step(c, g[n - 1], obs[n - 1]);
  }

  /** With no tick at all the guard exits within one check more than the strikes it needs. */
  lemma DeadSchedulerDetected(c: Config, g: seq<Guard>, obs: seq<Observation>, j: nat)
    requires IsRun(c, g, obs) && ValidConfig(c) && c.kill && SchedulerDead(c, obs, j)
    requires j + 1 + c.consecutiveChecks <= |obs|
    ensures g[j + 1 + c.consecutiveChecks].exited
  {
    forall i | j + 1 <= i < j + 1 + c.consecutiveChecks ensures Strikes(c, g, obs, i) || g[i].exited {
      NoSecondWithdrawal(c, g, obs, j, i + 1);
    }
    StrikesForceExit(c, g, obs, j + 1);
  }

  // ---------------------------------------------------------------- no wrong kill

  /** A progress value that never repeats and changes at least every `progressSeconds`. */
  ghost predicate KeepsAdvancing(c: Config, progress: real -> Option<nat>) {
    forall t, u :: t <= u && progress(t) == progress(u) ==> u - t <= c.progressSeconds
  }

  /** A probe that fails, or reports the progress of run `r`, whose id it may have lost. */
  predicate ReportsProgress(o: Observation, r: RunId, progress: real -> Option<nat>) {
    || o.probe.ProbeFails?
    || (o.probe.Tick? && o.probe.token.Tagged? && o.probe.token.progress == progress(o.now)
        && (o.probe.token.run == Some(r) || o.probe.token.run == None))
  }

  /** The check sees `r` for the first time: there is no watch yet, or it probes, and the id it gets
      displaces the watch on another run. */
  predicate FirstSight(c: Config, g: Guard, o: Observation, r: RunId) {
    g.watch.None? ||
    (g.watch.value.run != Some(r) && StaleAge(c, o) && o.probe.Tick? && RunIdOf(o.probe.token) == Some(r))
  }

  predicate FaithfulWatch(w: Option<Watch>, r: RunId, progress: real -> Option<nat>, since: real, now: real) {
    w.Some? ==>
      && (w.value.run == Some(r) || w.value.run == None)
      && since <= w.value.firstSeen && w.value.lastProgress <= now
      && (w.value.token.ProbeUnknown? || ProgressOf(w.value.token) == KnownProgress(progress(w.value.lastProgress)))
  }

  lemma FaithfulStep(c: Config, g: Guard, o: Observation, r: RunId, progress: real -> Option<nat>, since: real)
    requires ReportsProgress(o, r, progress) && since <= o.now
    requires FaithfulWatch(g.watch, r, progress, since, o.now) || FirstSight(c, g, o, r)
    ensures FaithfulWatch(WatchAfter(g, o), r, progress, since, o.now)
    ensures o.probe.Tick? ==> ProgressOf(WatchAfter(g, o).value.token) == KnownProgress(progress(o.now))
    ensures g.exited || FaithfulWatch(Step(c, g, o).watch, r, progress, since, o.now)
  {
  }

  lemma {:induction false} WatchStaysFaithful(c: Config, g: seq<Guard>, obs: seq<Observation>, j: nat, n: nat, r: RunId,
                                              progress: real -> Option<nat>)
    requires IsRun(c, g, obs) && ClockGoesForward(obs) && j < n < |obs|
    requires forall m :: j <= m < |obs| ==> ReportsProgress(obs[m], r, progress)
    requires FirstSight(c, g[j], obs[j], r)
    ensures g[n].exited || FaithfulWatch(g[n].watch, r, progress, obs[j].now, obs[n].now)
  {
    if n > j + 1 { WatchStaysFaithful(c, g, obs, j, n - 1, r, progress); }
    if g[n - 1].exited {
      ExitedSteps(c, g[n - 1], obs[n - 1]);
    } else {
      FaithfulStep(c, g[n - 1], obs[n - 1], r, progress, obs[j].now);
    }
  }

  /** No wrong kill: a run first seen at check `j`, still under the absolute cap and still advancing,
      is never struck by a check whose probe answers, even when its id is lost after first sight. */
  lemma HealthyRunIsNeverStruck(c: Config, g: seq<Guard>, obs: seq<Observation>, j: nat, k: nat, r: RunId,
                                progress: real -> Option<nat>)
    requires IsRun(c, g, obs) && ClockGoesForward(obs) && KeepsAdvancing(c, progress)
    requires forall m :: j <= m < |obs| ==> ReportsProgress(obs[m], r, progress)
    requires j <= k < |obs| && obs[k].probe.Tick? && FirstSight(c, g[j], obs[j], r)
    requires obs[k].now - obs[j].now <= TickMaxSeconds(c)
    ensures VerdictAt(c, g, obs, k) in {Waiting, AgeUnknown, Fresh, Gone}
  {
    if j < k { WatchStaysFaithful(c, g, obs, j, k, r, progress); }
    if !g[k].exited {
      FaithfulStep(c, g[k], obs[k], r, progress, obs[j].now);
      var w := WatchAfter(g[k], obs[k]).value;
      assert progress(w.lastProgress) == progress(obs[k].now);
      assert !Hung(c, w, obs[k].now);
    }
  }

  // ---------------------------------------------------------------- one-shot actions

  ghost predicate EpisodeEnds(c: Config, g: seq<Guard>, obs: seq<Observation>, k: int) {
    IsRun(c, g, obs) && 0 <= k < |obs| && (VerdictAt(c, g, obs, k) == Fresh || VerdictAt(c, g, obs, k) == AgeUnknown)
  }

  lemma {:induction false} WithdrawnLasts(c: Config, g: seq<Guard>, obs: seq<Observation>, i: nat, j: nat)
    requires IsRun(c, g, obs) && i <= j <= |obs| && g[i].withdrawn
    requires forall k :: i <= k < j ==> !EpisodeEnds(c, g, obs, k)
    ensures g[j].withdrawn
  {
    if i < j {
      WithdrawnLasts(c, g, obs, i, j - 1);
      assert !EpisodeEnds(c, g, obs, j - 1);
    }
  }

  /** Between two withdrawn strikes the age probe has answered fresh or unknown. */
  lemma OneWithdrawalPerEpisode(c: Config, g: seq<Guard>, obs: seq<Observation>, i: nat, j: nat)
    requires IsRun(c, g, obs) && i < j < |obs|
    requires VerdictAt(c, g, obs, i) == Withdrawn && VerdictAt(c, g, obs, j) == Withdrawn
    ensures exists k :: i < k < j && EpisodeEnds(c, g, obs, k)
  {
    if forall k :: i < k < j ==> !EpisodeEnds(c, g, obs, k) {
      WithdrawnLasts(c, g, obs, i + 1, j);
    }
  }

  /** Check `i` called the revive and it did more than report a running tick or another owner. */
  predicate Revives(c: Config, g: Guard, o: Observation)
  {
    VerdictOf(c, g, o) == Struck && !g.revived && o.revive.OtherRevive?
  }

  lemma {:induction false} RevivedLasts(c: Config, g: seq<Guard>, obs: seq<Observation>, i: nat, j: nat)
    requires IsRun(c, g, obs) && i <= j <= |obs| && g[i].revived
    ensures g[j].revived
  {
    if i < j {
      RevivedLasts(c, g, obs, i, j - 1);
    }
  }

  lemma ReviveAtMostOncePerProcess(c: Config, g: seq<Guard>, obs: seq<Observation>, i: nat, j: nat)
    requires IsRun(c, g, obs) && i < |obs| && j < |obs|
    requires Revives(c, g[i], obs[i]) && Revives(c, g[j], obs[j])
    ensures i == j
  {
    if i < j {
      RevivedLasts(c, g, obs, i + 1, j);
    } else if j < i {
      RevivedLasts(c, g, obs, j + 1, i);
    }
  }
}
