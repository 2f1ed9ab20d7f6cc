/**
 The loop stall guard: tick tokens, the watch on one scoring run, and one check of the guard loop.
 Each check is a function of the guard's state and of what the check observed; the classes update
 the same state in place.
 */
module StallGuard {
  import opened Prelude

  type RunId = nat

  // ---------------------------------------------------------------- configuration

  /** `progressSeconds` and `tickMaxBase` as read from the environment, already clamped. */
  datatype Config = Config(maxSnapshotAge: real, consecutiveChecks: nat, kill: bool,
                           progressSeconds: real, tickMaxBase: real)

  predicate ValidConfig(c: Config) { c.consecutiveChecks >= 1 && c.progressSeconds >= 60.0 }

  /** The no-progress deadline; None stands for an unreadable scheduler value. */
  function TickProgressSeconds(stuckThreshold: Option<int>, writeTimeout: Option<int>, override_: int): (d: int)
    ensures d >= 60
    ensures stuckThreshold.Some? ==> d >= stuckThreshold.value
    ensures stuckThreshold.None? ==> d >= 900
    ensures writeTimeout.Some? && writeTimeout.value > 0 ==> d >= writeTimeout.value + 60
    ensures d >= override_
    ensures
      || d == 60 || d == override_ || stuckThreshold == Some(d) || (stuckThreshold.None? && d == 900)
      || (writeTimeout == Some(d - 60) && d > 60)
  {
    var threshold := if stuckThreshold.Some? then stuckThreshold.value else 900;
    var atLeastOneMinute := if threshold < 60 then 60 else threshold;
    var withWrite :=
      if writeTimeout.Some? && writeTimeout.value > 0 && atLeastOneMinute < writeTimeout.value + 60
      then writeTimeout.value + 60 else atLeastOneMinute;
    if override_ != 0 && override_ < withWrite then withWrite
    else if override_ > withWrite then override_ else withWrite
  }

  /** The absolute cap: the configured one, but never below twice the no-progress deadline. */
  function TickMaxSeconds(c: Config): (cap: real)
    ensures cap >= c.tickMaxBase && cap >= 2.0 * c.progressSeconds
    ensures cap == c.tickMaxBase || cap == 2.0 * c.progressSeconds
  {
    MaxReal(c.tickMaxBase, 2.0 * c.progressSeconds)
  }

  // ---------------------------------------------------------------- tokens and watches

  /** `ProbeUnknown` is the placeholder of a watch that started while the probe was failing. */
  datatype Token = ProbeUnknown | Untagged | Tagged(run: Option<RunId>, progress: Option<nat>)

  datatype Progress = UnknownProgress | KnownProgress(value: Option<nat>)

  function RunIdOf(t: Token): Option<RunId> { if t.Tagged? then t.run else None }

  function ProgressOf(t: Token): Progress
  {
    match t
    case ProbeUnknown => UnknownProgress
    case Untagged => KnownProgress(None)
    case Tagged(_, p) => KnownProgress(p)
  }

  datatype Watch = Watch(token: Token, firstSeen: real, lastProgress: real, probeUnknown: bool,
                         run: Option<RunId>)

  function NewWatch(t: Token, now: real, probeUnknown: bool): Watch
  {
    Watch(t, now, now, probeUnknown, RunIdOf(t))
  }

  predicate TokensSameRun(w: Watch, t: Token)
  {
    var resumed := RunIdOf(t);
    if w.run.None? then resumed.None? else resumed == w.run || resumed.None?
  }

  function Observed(w: Watch, t: Token, now: real): Watch
  {
    w.(token := t, lastProgress := if ProgressOf(t) != ProgressOf(w.token) then now else w.lastProgress)
  }

  predicate PastAbsoluteCap(c: Config, w: Watch, now: real) { now - w.firstSeen > TickMaxSeconds(c) }

  predicate Hung(c: Config, w: Watch, now: real)
  {
    now - w.lastProgress > c.progressSeconds || PastAbsoluteCap(c, w, now)
  }

  /** `_watch_active_tick`: keep, refresh or replace the watch for an answered probe. */
  function WatchActive(w: Option<Watch>, t: Token, now: real): Watch
  {
    if w.None? then NewWatch(t, now, false)
    else
      var v := w.value;
      var resumed := RunIdOf(t);
      if v.probeUnknown then
        if TokensSameRun(v, t) then
          Observed(v, t, now).(probeUnknown := false, run := if resumed.Some? then resumed else v.run)
        else NewWatch(t, now, false)
      else if v.run.Some? && resumed.Some? && resumed != v.run then NewWatch(t, now, false)
      else if v.run.None? && resumed.Some? then NewWatch(t, now, false)
      else Observed(v, t, now)
  }

  // ---------------------------------------------------------------- one check

  datatype Probe = ProbeFails | NoTick | Tick(token: Token)

  datatype Revive = TickInProgress | NotOwner | OtherRevive

  /** What one check past the boot grace observes; `revive` is what a revive would answer. */
  datatype Observation = Observation(now: real, age: Option<real>, probe: Probe, revive: Revive)

  datatype Guard = Guard(stale: nat, revived: bool, watch: Option<Watch>, withdrawn: bool, exited: bool)

  const STARTED := Guard(0, false, None, false, false)

  datatype Verdict =
    | AgeUnknown          // age probe has no answer
    | Fresh               // output young enough
    | Waiting             // stale, but a tick advances or the probe is briefly away
    | Withdrawn           // strike taken back: a tick started after the check
    | Idle                // revive says this process is not the owner
    | Struck              // strike stands
    | Gone                // the process has exited

  function WatchAfter(g: Guard, o: Observation): Option<Watch>
  {
    match o.probe
    case ProbeFails =>
      if g.watch.None? then Some(NewWatch(ProbeUnknown, o.now, true))
      else Some(g.watch.value.(probeUnknown := true))
    case NoTick => None
    case Tick(t) => Some(WatchActive(g.watch, t, o.now))
  }

  /** Whether the check finds the tick still excusable. */
  predicate Excused(c: Config, w: Option<Watch>, o: Observation)
  {
    match o.probe
    case ProbeFails => w.Some? && !PastAbsoluteCap(c, w.value, o.now)
    case NoTick => false
    case Tick(_) => w.Some? && !Hung(c, w.value, o.now)
  }

  function VerdictOf(c: Config, g: Guard, o: Observation): Verdict
  {
    if g.exited then Gone
    else if o.age.None? then AgeUnknown
    else if o.age.value <= c.maxSnapshotAge then Fresh
    else if Excused(c, WatchAfter(g, o), o) then Waiting
    else if g.revived then Struck
    else if o.revive.TickInProgress? then
      if WatchAfter(g, o).None? && !g.withdrawn then Withdrawn else Struck
    else if o.revive.NotOwner? then Idle
    else Struck
  }

  /** One pass of the loop body after the sleep and the boot grace. */
  function Step(c: Config, g: Guard, o: Observation): Guard
  {
    match VerdictOf(c, g, o)
    case Gone => g
    case AgeUnknown => g.(stale := 0, withdrawn := false)
    case Fresh => g.(stale := 0, watch := None, withdrawn := false)
    case Waiting => g.(stale := 0, watch := WatchAfter(g, o))
    case Withdrawn => g.(stale := 0, watch := WatchAfter(g, o), withdrawn := true)
    case Idle => g.(stale := 0, watch := WatchAfter(g, o))
    case Struck =>
      g.(stale := g.stale + 1, watch := WatchAfter(g, o),
         revived := g.revived || o.revive.OtherRevive?,
         exited := g.stale + 1 >= c.consecutiveChecks && c.kill)
  }

  function Run(c: Config, g: Guard, obs: seq<Observation>): Guard
  {
    if obs == [] then g else Step(c, Run(c, g, obs[..|obs| - 1]), obs[|obs| - 1])
  }

  // ---------------------------------------------------------------- the classes

  /** What the guard has seen of one running tick, updated as probes come in. */
  class TickWatch {
    var token: Token
    var firstSeen: real
    var lastProgress: real
    var probeUnknown: bool
    var run: Option<RunId>

    function View(): Watch
      reads this
    {
      Watch(token, firstSeen, lastProgress, probeUnknown, run)
    }

    constructor (t: Token, now: real, unknown: bool)
      ensures View() == NewWatch(t, now, unknown)
    {
      token, firstSeen, lastProgress, probeUnknown, run := t, now, now, unknown, RunIdOf(t);
    }

    method Observe(t: Token, now: real)
      modifies this
      ensures View() == Observed(old(View()), t, now)
    {
      if ProgressOf(t) != ProgressOf(token) { lastProgress := now; }
      token := t;
    }
  }

  method WatchActiveTick(watch: TickWatch?, t: Token, now: real) returns (w: TickWatch)
    modifies watch
    ensures w == watch || fresh(w)
    ensures w.View() == WatchActive(if watch == null then None else Some(old(watch.View())), t, now)
  {
    if watch == null {
      w := new TickWatch(t, now, false);
      return;
    }
    var resumed := RunIdOf(t);
    if watch.probeUnknown {
      if TokensSameRun(watch.View(), t) {
        watch.probeUnknown := false;
        if ProgressOf(t) != ProgressOf(watch.token) { watch.lastProgress := now; }
        watch.token := t;
        if resumed.Some? { watch.run := resumed; }
        return watch;
      }
      w := new TickWatch(t, now, false);
      return;
    }
    if watch.run.Some? && resumed.Some? && resumed != watch.run {
      w := new TickWatch(t, now, false);
      return;
    }
    if watch.run.None? && resumed.Some? {
      w := new TickWatch(t, now, false);
      return;
    }
    watch.Observe(t, now);
    return watch;
  }

  /** The locals of `_guard_loop`. */
  class GuardLoop {
    const c: Config
    var stale: nat
    var revived: bool
    var watch: TickWatch?
    var withdrawn: bool
    var exited: bool

    function View(): Guard
      reads this, watch
    {
      Guard(stale, revived, if watch == null then None else Some(watch.View()), withdrawn, exited)
    }

    constructor (config: Config)
      ensures c == config && View() == STARTED && watch == null
    {
      c := config;
      stale, revived, watch, withdrawn, exited := 0, false, null, false, false;
    }

    method Check(o: Observation)
      modifies this, watch
      ensures View() == Step(c, old(View()), o)
      ensures watch == null || watch == old(watch) || fresh(watch)
    {
      if exited { return; }
      if o.age.None? {
        stale, withdrawn := 0, false;
        return;
      }
      if o.age.value <= c.maxSnapshotAge {
        stale, watch, withdrawn := 0, null, false;
        return;
      }
      match o.probe {
        case ProbeFails =>
          if watch == null {
            watch := new TickWatch(ProbeUnknown, o.now, true);
          } else {
            watch.probeUnknown := true;
          }
          if !PastAbsoluteCap(c, watch.View(), o.now) {
            stale := 0;
            return;
          }
        case NoTick =>
          watch := null;
        case Tick(t) =>
          watch := WatchActiveTick(watch, t, o.now);
          if !Hung(c, watch.View(), o.now) {
            stale := 0;
            return;
          }
      }
      stale := stale + 1;
      if !revived {
        if o.revive.TickInProgress? {
          if watch == null && !withdrawn {
            withdrawn, stale := true, 0;
            return;
          }
        } else if o.revive.NotOwner? {
          stale := 0;
          return;
        } else {
          revived := true;
        }
      }
      if stale >= c.consecutiveChecks && c.kill { exited := true; }
    }

    /** The loop over a whole run of checks. */
    method Loop(obs: seq<Observation>)
      requires View() == STARTED && watch == null
      modifies this
      ensures View() == Run(c, STARTED, obs)
    {
      var i := 0;
      while i < |obs|
        invariant 0 <= i <= |obs|
        invariant watch == null || fresh(watch)
        invariant View() == Run(c, STARTED, obs[..i])
      {
        Check(obs[i]);
        assert obs[..i + 1][..|obs[..i + 1]| - 1] == obs[..i];
        i := i + 1;
      }
      assert obs[..i] == obs;
    }
  }
}
