/**
 Single-writer ownership as a step system: any number of processes acquire, publish, check,
 release, fork and die, one system call or one assignment at a time, while the environment
 rebinds the lock path and the marker at will. A process may run an acquisition and a release at
 once, in different threads. `flock` locks belong to open file descriptions, so a forked child
 shares its parent's descriptions until it has closed them.
 */
module OwnerProtocol {
  import opened Prelude
  import opened OwnerGuard

  /** How far a process is inside `try_acquire_write_owner_lock`, with its locals. */
  datatype Phase =
    | Idle
    | Opened(fd: Fd)
    | LockOpened(fd: Fd)
    | LockTaken(fd: Fd)
    | PendingCleared(fd: Fd)
    | MarkerChecked(fd: Fd)
    | LockStatSeen(fd: Fd, lockInode: Inode)
    | MarkerStatSeen(fd: Fd, lockInode: Inode, marker: MarkerStat)
    | Retreating(fd: Fd)
    | Retreated
    | FdPublished(lockInode: Inode, marker: MarkerStat)
    | HeldPublished(lockInode: Inode, marker: MarkerStat)
    | PidPublished(lockInode: Inode, marker: MarkerStat)
    | InodePublished(marker: MarkerStat)

  datatype Stage =
    | FdRead | PidRead | FdCleared | HeldCleared | PidCleared | MarkerCleared | AllCleared | LockGone

  /** How far a process is inside `_release_write_owner_lock`, with its locals. */
  datatype Leaving = Staying | Leave(at: Stage, fd: Option<Fd>, pid: Option<Pid>)

  /** A process; `inHook` marks a child between `fork` and the end of its after-fork hook. */
  datatype Proc = Proc(inHook: bool, fds: set<Fd>, g: Globals, phase: Phase, leaving: Leaving)

  /** `links` counts hard links of an inode other than the lock path itself. */
  datatype Sys = Sys(
    lockPath: Option<Inode>, marker: Option<MarkerStat>, links: map<Inode, nat>,
    inodeOf: map<Fd, Inode>, flock: map<Inode, Fd>, procs: map<Pid, Proc>)

  // ---------------------------------------------------------------- kernel rules

  ghost predicate InUse(s: Sys, fd: Fd) {
    exists p :: p in s.procs && fd in s.procs[p].fds
  }

  /** An open file description dies with its last descriptor, and its lock with it. */
  ghost function Reaped(s: Sys): Sys {
    s.(inodeOf := map fd | fd in s.inodeOf && InUse(s, fd) :: s.inodeOf[fd],
       flock := map i | i in s.flock && InUse(s, s.flock[i]) :: s.flock[i])
  }

  function WithoutLock(s: Sys, fd: Fd): Sys {
    s.(flock := map i | i in s.flock && s.flock[i] != fd :: s.flock[i])
  }

  function LinkCount(s: Sys, i: Inode): nat {
    (if s.lockPath == Some(i) then 1 else 0) + (if i in s.links then s.links[i] else 0)
  }

  /** What `os.fstat` of the recorded descriptor would answer to process `p` now. */
  function OwnerStat(s: Sys, p: Pid): Option<FdStat>
    requires p in s.procs
  {
    var fd := s.procs[p].g.ownerFd;
    if fd.Some? && fd.value in s.inodeOf && fd.value in s.procs[p].fds
    then Some(FdStat(s.inodeOf[fd.value], LinkCount(s, s.inodeOf[fd.value])))
    else None
  }

  /** What the guard's three stat calls would answer to process `p` now. */
  function Facts(s: Sys, p: Pid): StatFacts
    requires p in s.procs
  {
    StatFacts(s.lockPath, OwnerStat(s, p), s.marker)
  }

  /** `owner_guard()` called now by `p` would let the write through. */
  predicate WouldPass(s: Sys, p: Pid) {
    p in s.procs && s.procs[p].g.held && Refusal(s.procs[p].g, p, Facts(s, p)).None?
  }

  /** Until its hook has ended, a child runs nothing else. */
  predicate Running(s: Sys, p: Pid) { p in s.procs && !s.procs[p].inHook }

  predicate Passes(s: Sys, p: Pid) { Running(s, p) && WouldPass(s, p) }

  // ---------------------------------------------------------------- steps

  datatype Action =
    | Rebind(path: Option<Inode>, marker: Option<MarkerStat>, links: map<Inode, nat>)
    | Spawn(p: Pid)
    | Fork(p: Pid, child: Pid)
    | ChildHook(p: Pid)
    | Die(p: Pid)
    | OpenLock(p: Pid, fd: Fd, inode: Inode)
    | NotePending(p: Pid)
    | TakeFlock(p: Pid)
    | GiveUp(p: Pid)
    | ClearPending(p: Pid)
    | AcceptMarker(p: Pid)
    | StatLock(p: Pid)
    | StatMarker(p: Pid)
    | Publish(p: Pid)
    | Release(p: Pid)
    | Check(p: Pid)

  function Put(s: Sys, p: Pid, proc: Proc): Sys { s.(procs := s.procs[p := proc]) }

  /** The acquisition has its lock file open in a local variable. */
  predicate InHand(ph: Phase) { ph.Opened? || ph.LockOpened? || Locked(ph) || ph.Retreating? }

  /** It also holds the lock. */
  predicate Locked(ph: Phase) {
    ph.LockTaken? || ph.PendingCleared? || ph.MarkerChecked? || ph.LockStatSeen? || ph.MarkerStatSeen?
  }

  predicate Publishing(ph: Phase) {
    ph.FdPublished? || ph.HeldPublished? || ph.PidPublished? || ph.InodePublished?
  }

  predicate Enabled(s: Sys, a: Action)
  {
    match a
    case Rebind(_, _, _) => true
    case Spawn(p) => p !in s.procs
    // the before-fork hook takes the acquire lock, which is reentrant: during an acquisition only
    // the acquiring thread itself can fork, at any point; a release never stands in the way
    case Fork(p, child) => Running(s, p) && child !in s.procs
    case ChildHook(p) => p in s.procs && s.procs[p].inHook
    case Die(p) => p in s.procs
    // O_CREAT makes a new inode when the path is unbound; a live inode's number is not reused
    case OpenLock(p, fd, inode) =>
      && Running(s, p) && s.procs[p].phase.Idle? && !s.procs[p].g.held && fd !in s.inodeOf
      && (if s.lockPath.Some? then inode == s.lockPath.value else inode !in s.inodeOf.Values)
    case NotePending(p) => Running(s, p) && s.procs[p].phase.Opened?
    case TakeFlock(p) =>
      && Running(s, p) && s.procs[p].phase.LockOpened? && s.procs[p].phase.fd in s.inodeOf
      && s.inodeOf[s.procs[p].phase.fd] !in s.flock
    case GiveUp(p) => Running(s, p) && (InHand(s.procs[p].phase) || s.procs[p].phase.Retreated?)
    case ClearPending(p) => Running(s, p) && s.procs[p].phase.LockTaken?
    case AcceptMarker(p) => Running(s, p) && s.procs[p].phase.PendingCleared?
    case StatLock(p) => Running(s, p) && s.procs[p].phase.MarkerChecked? && s.lockPath.Some?
    case StatMarker(p) => Running(s, p) && s.procs[p].phase.LockStatSeen? && s.marker.Some?
    case Publish(p) => Running(s, p) && (s.procs[p].phase.MarkerStatSeen? || Publishing(s.procs[p].phase))
    case Release(p) => Running(s, p)
    case Check(p) => Running(s, p)
  }

  function PublishStep(proc: Proc, p: Pid): Proc
  {
    var g := proc.g;
    match proc.phase
    case MarkerStatSeen(fd, i, m) => proc.(g := g.(ownerFd := Some(fd)), phase := FdPublished(i, m))
    case FdPublished(i, m) => proc.(g := g.(held := true), phase := HeldPublished(i, m))
    case HeldPublished(i, m) => proc.(g := g.(ownerPid := Some(p)), phase := PidPublished(i, m))
    case PidPublished(i, m) => proc.(g := g.(lockInode := Some(i)), phase := InodePublished(m))
    case InodePublished(m) => proc.(g := g.(markerStat := Some(m)), phase := Idle)
    case _ => proc
  }

  /** The reads and assignments of a release; its system calls are in `Next`. */
  function LeaveStep(proc: Proc): Proc
  {
    var g := proc.g;
    match proc.leaving
    case Staying => proc.(leaving := Leave(FdRead, g.ownerFd, None))
    case Leave(FdRead, fd, _) => proc.(leaving := Leave(PidRead, fd, g.ownerPid))
    case Leave(PidRead, fd, pid) => proc.(g := g.(ownerFd := None), leaving := Leave(FdCleared, fd, pid))
    case Leave(FdCleared, fd, pid) => proc.(g := g.(held := false), leaving := Leave(HeldCleared, fd, pid))
    case Leave(HeldCleared, fd, pid) => proc.(g := g.(ownerPid := None), leaving := Leave(PidCleared, fd, pid))
    case Leave(PidCleared, fd, pid) => proc.(g := g.(markerStat := None), leaving := Leave(MarkerCleared, fd, pid))
    case Leave(MarkerCleared, fd, pid) => proc.(g := g.(lockInode := None), leaving := Leave(AllCleared, fd, pid))
    case Leave(AllCleared, None, _) => proc.(leaving := Staying)
    case _ => proc
  }

  /** The release is about to unlock, which it does for a descriptor that is not another process's. */
  predicate Unlocks(proc: Proc, p: Pid) {
    var l := proc.leaving;
    l.Leave? && l.at.AllCleared? && l.fd.Some? && (l.pid.None? || l.pid.value == p)
  }

  /** The release is about to close. */
  predicate Closes(proc: Proc, p: Pid) {
    var l := proc.leaving;
    l.Leave? && l.fd.Some? && (l.at.LockGone? || (l.at.AllCleared? && !Unlocks(proc, p)))
  }

  /** The descriptors the after-fork hook closes. */
  function Noted(g: Globals): set<Fd> {
    (if g.ownerFd.Some? then {g.ownerFd.value} else {}) +
    (if g.pendingFd.Some? then {g.pendingFd.value} else {})
  }

  /** A child inherits the descriptors and the globals; the thread that forked goes on elsewhere. */
  function Child(parent: Proc): Proc { parent.(inHook := true, phase := Idle, leaving := Staying) }

  function Hooked(proc: Proc): Proc {
    Proc(false, proc.fds - Noted(proc.g), Forgotten(proc.g), Idle, Staying)
  }

  /** The steps a running process takes for itself. */
  predicate Own(a: Action) {
    !(a.Rebind? || a.Spawn? || a.Fork? || a.ChildHook? || a.Die?)
  }

  /** The descriptor such a step unlocks. */
  function Freed(s: Sys, a: Action): Option<Fd>
    requires Own(a) && a.p in s.procs
  {
    var proc := s.procs[a.p];
    if a.Release? && Unlocks(proc, a.p) then proc.leaving.fd
    else if a.GiveUp? && Locked(proc.phase) then Some(proc.phase.fd)
    else None
  }

  /** What such a step does to the kernel's tables, closing aside. */
  function Kernel(s: Sys, a: Action): Sys
    requires Own(a) && a.p in s.procs
  {
    if a.OpenLock? then s.(lockPath := Some(a.inode), inodeOf := s.inodeOf[a.fd := a.inode])
    else if a.TakeFlock? && s.procs[a.p].phase.LockOpened? && s.procs[a.p].phase.fd in s.inodeOf then
      s.(flock := s.flock[s.inodeOf[s.procs[a.p].phase.fd] := s.procs[a.p].phase.fd])
    else if Freed(s, a).Some? then WithoutLock(s, Freed(s, a).value)
    else s
  }

  function GiveUpStep(proc: Proc): Proc
  {
    if proc.phase.Retreated? then proc.(phase := Idle, g := proc.g.(pendingFd := None))
    else if Locked(proc.phase) then proc.(phase := Retreating(proc.phase.fd))
    else if InHand(proc.phase) then proc.(fds := proc.fds - {proc.phase.fd}, phase := Retreated)
    else proc
  }

  function ReleaseStep(proc: Proc, p: Pid): Proc
  {
    var l := proc.leaving;
    if Unlocks(proc, p) then proc.(leaving := l.(at := LockGone))
    else if Closes(proc, p) then proc.(fds := proc.fds - {l.fd.value}, leaving := Staying)
    else LeaveStep(proc)
  }

  /** The record of the process after such a step. */
  function OwnStep(s: Sys, a: Action): Proc
    requires Own(a) && Enabled(s, a)
  {
    var proc := s.procs[a.p];
    var ph := proc.phase;
    match a
    case OpenLock(_, fd, _) => proc.(fds := proc.fds + {fd}, phase := Opened(fd))
    case NotePending(_) => proc.(phase := LockOpened(ph.fd), g := proc.g.(pendingFd := Some(ph.fd)))
    case TakeFlock(_) => proc.(phase := LockTaken(ph.fd))
    case GiveUp(_) => GiveUpStep(proc)
    case ClearPending(_) => proc.(phase := PendingCleared(ph.fd), g := proc.g.(pendingFd := None))
    case AcceptMarker(_) => proc.(phase := MarkerChecked(ph.fd))
    case StatLock(_) => proc.(phase := LockStatSeen(ph.fd, s.lockPath.value))
    case StatMarker(_) => proc.(phase := MarkerStatSeen(ph.fd, ph.lockInode, s.marker.value))
    case Publish(p) => PublishStep(proc, p)
    case Release(p) => ReleaseStep(proc, p)
    case Check(p) => if proc.g.held then proc.(g := AfterRefusal(proc.g, p, Facts(s, p))) else proc
    case _ => proc
  }

  ghost function Next(s: Sys, a: Action): Sys
    requires Enabled(s, a)
  {
    match a
    case Rebind(path, marker, links) => s.(lockPath := path, marker := marker, links := links)
    case Spawn(p) => Put(s, p, Proc(false, {}, FRESH_GLOBALS, Idle, Staying))
    case Fork(p, child) => Put(s, child, Child(s.procs[p]))
    case ChildHook(p) => Reaped(Put(s, p, Hooked(s.procs[p])))
    case Die(p) => Reaped(s.(procs := s.procs - {p}))
    case _ => Reaped(Put(Kernel(s, a), a.p, OwnStep(s, a)))
  }

  // ---------------------------------------------------------------- runs

  /** No process, any lock path, any marker, any hard links. */
  ghost predicate Initial(s: Sys) {
    s.procs == map[] && s.inodeOf == map[] && s.flock == map[]
  }

  ghost predicate Leads(s: Sys, a: Action, s': Sys) { Enabled(s, a) && s' == Next(s, a) }

  ghost predicate StepAt(states: seq<Sys>, acts: seq<Action>, i: int) {
    0 <= i < |acts| && i + 1 < |states| && Leads(states[i], acts[i], states[i + 1])
  }

  ghost predicate IsRun(states: seq<Sys>, acts: seq<Action>) {
    && |states| == |acts| + 1
    && Initial(states[0])
    && forall i :: 0 <= i < |acts| ==> StepAt(states, acts, i)
  }

  // ---------------------------------------------------------------- invariant

  predicate IsHeldBy(l: Leaving, fd: Fd) { l.Leave? && l.fd == Some(fd) }

  /** The descriptors a running process can still act on. */
  predicate ActsOn(proc: Proc, fd: Fd) {
    || proc.g.ownerFd == Some(fd) || (InHand(proc.phase) && proc.phase.fd == fd) || IsHeldBy(proc.leaving, fd)
  }

  /** Those of them on which it has taken the exclusive lock and not yet given it up. */
  predicate HasLocked(proc: Proc, fd: Fd) {
    || proc.g.ownerFd == Some(fd) || (Locked(proc.phase) && proc.phase.fd == fd)
    || (IsHeldBy(proc.leaving, fd) && !proc.leaving.at.LockGone?)
  }

  ghost predicate KernelOk(s: Sys) {
    && (forall p, fd :: p in s.procs && fd in s.procs[p].fds ==> fd in s.inodeOf)
    && (forall i :: i in s.flock ==> s.flock[i] in s.inodeOf && s.inodeOf[s.flock[i]] == i)
  }

  ghost predicate HoldsFlock(s: Sys, fd: Fd) {
    && fd in s.inodeOf && s.inodeOf[fd] in s.flock && s.flock[s.inodeOf[fd]] == fd
  }

  predicate PastClearing(l: Leaving) { l.Leave? && !l.at.FdRead? && !l.at.PidRead? }

  /** How the globals and the locals of one running process fit together. */
  ghost predicate GlobalsOk(p: Pid, proc: Proc) {
    var g, ph, l := proc.g, proc.phase, proc.leaving;
    && (forall fd :: ActsOn(proc, fd) ==> fd in proc.fds)
    && (InHand(ph) ==> g.ownerFd != Some(ph.fd) && !IsHeldBy(l, ph.fd))
    && (PastClearing(l) && l.fd.Some? ==> g.ownerFd != l.fd)
    && (g.ownerPid.Some? ==> g.ownerPid.value == p)
    && (l.Leave? && l.pid.Some? ==> l.pid.value == p)
    && (InHand(ph) || ph.FdPublished? || ph.Retreated? ==> !g.held)
    && (ph.LockOpened? || ph.LockTaken? ==> g.pendingFd == Some(ph.fd))
    && (ph.Retreating? ==> g.pendingFd.None? || g.pendingFd == Some(ph.fd))
    && (ph.Retreated? && g.pendingFd.Some? ==> g.pendingFd.value !in proc.fds)
    && (g.pendingFd.Some? ==> ph.LockOpened? || ph.LockTaken? || ph.Retreating? || ph.Retreated?)
  }

  ghost predicate RunningOk(s: Sys, p: Pid)
    requires p in s.procs
  {
    && GlobalsOk(p, s.procs[p])
    && forall fd :: HasLocked(s.procs[p], fd) ==> HoldsFlock(s, fd)
  }

  /** Between `fork` and the end of the hook the child carries its parent's globals. */
  predicate HookOk(s: Sys, p: Pid)
    requires p in s.procs
  {
    s.procs[p].g.ownerPid.Some? ==> s.procs[p].g.ownerPid.value != p
  }

  ghost predicate ProcOk(s: Sys, p: Pid)
    requires p in s.procs
  {
    if s.procs[p].inHook then HookOk(s, p) else RunningOk(s, p)
  }

  ghost predicate AllProcsOk(s: Sys) { forall p :: p in s.procs ==> ProcOk(s, p) }

  /** No two running processes can act on the same open file description. */
  ghost predicate Separate(s: Sys) {
    forall p, q, fd ::
      Running(s, p) && Running(s, q) && ActsOn(s.procs[p], fd) && ActsOn(s.procs[q], fd) ==> p == q
  }

  ghost predicate NoGarbage(s: Sys) { forall fd :: fd in s.inodeOf ==> InUse(s, fd) }

  /** The invariant up to descriptions that nothing refers to any more. */
  ghost predicate Sound(s: Sys) { KernelOk(s) && AllProcsOk(s) && Separate(s) }

  ghost predicate Inv(s: Sys) { Sound(s) && NoGarbage(s) }

  // ---------------------------------------------------------------- preservation

  lemma ReapingKeeps(s: Sys)
    requires Sound(s)
    ensures Inv(Reaped(s))
  {
    var r := Reaped(s);
    forall fd | fd in r.inodeOf ensures InUse(r, fd) {
      var p :| p in s.procs && fd in s.procs[p].fds;
      assert p in r.procs && fd in r.procs[p].fds;
    }
    assert forall p, fd :: p in r.procs && fd in r.procs[p].fds ==> InUse(s, fd);
    forall p | p in r.procs ensures ProcOk(r, p) {
      ReapingKeepsProc(s, p);
    }
  }

  lemma ReapingKeepsProc(s: Sys, p: Pid)
    requires KernelOk(s) && p in s.procs && ProcOk(s, p)
    ensures ProcOk(Reaped(s), p)
  {
    forall fd | fd in s.procs[p].fds && HoldsFlock(s, fd) ensures HoldsFlock(Reaped(s), fd) {
      assert InUse(s, fd);
    }
  }

  /** A process that keeps its record keeps its obligations while its locks stand. */
  lemma UntouchedProc(s: Sys, s': Sys, q: Pid)
    requires q in s.procs && q in s'.procs && s'.procs[q] == s.procs[q] && ProcOk(s, q)
    requires Running(s, q) ==> forall fd :: HasLocked(s.procs[q], fd) ==> HoldsFlock(s', fd)
    ensures ProcOk(s', q)
  {
  }

  lemma LockedIsActedOn(proc: Proc, fd: Fd)
    requires HasLocked(proc, fd)
    ensures ActsOn(proc, fd)
  {
  }

  lemma OwnFds(s: Sys, p: Pid)
    requires KernelOk(s) && Running(s, p) && ProcOk(s, p)
    ensures forall fd :: ActsOn(s.procs[p], fd) ==> fd in s.procs[p].fds && fd in s.inodeOf
    ensures forall fd :: HasLocked(s.procs[p], fd) ==> ActsOn(s.procs[p], fd) && HoldsFlock(s, fd)
  {
  }

  lemma SoundProc(s: Sys, p: Pid)
    requires Sound(s) && p in s.procs
    ensures ProcOk(s, p)
  {
  }

  /** A newcomer that acts on no descriptor, with descriptors that are open. */
  lemma NewcomerKeeps(s: Sys, p: Pid, proc: Proc, mid: Sys)
    requires Sound(s) && !Running(s, p) && mid == Put(s, p, proc) && ProcOk(mid, p)
    requires forall fd :: fd in proc.fds ==> fd in s.inodeOf
    requires !proc.inHook ==> forall fd :: !ActsOn(proc, fd)
    ensures Sound(mid)
  {
    hide GlobalsOk, ActsOn, HasLocked;
    forall q | q in mid.procs ensures ProcOk(mid, q) {
      if q != p {
        assert ProcOk(s, q);
        UntouchedProc(s, mid, q);
      }
    }
    forall q, r, fd | Running(mid, q) && Running(mid, r) && ActsOn(mid.procs[q], fd) && ActsOn(mid.procs[r], fd)
      ensures q == r
    {
      assert q != p && r != p && Running(s, q) && Running(s, r);
    }
  }

  lemma SpawnAndForkKeep(s: Sys, a: Action)
    requires Inv(s) && Enabled(s, a) && (a.Spawn? || a.Fork?)
    ensures Inv(Next(s, a))
  {
    var s' := Next(s, a);
    var newcomer := if a.Spawn? then a.p else a.child;
    assert ProcOk(s', newcomer) by {
      if a.Fork? { assert ProcOk(s, a.p); }
    }
    NewcomerKeeps(s, newcomer, s'.procs[newcomer], s');
    forall fd | fd in s'.inodeOf ensures InUse(s', fd) {
      assert InUse(s, fd);
      var q :| q in s.procs && fd in s.procs[q].fds;
      assert q in s'.procs && fd in s'.procs[q].fds;
    }
  }

  lemma ChildHookKeeps(s: Sys, a: Action)
    requires Inv(s) && Enabled(s, a) && a.ChildHook?
    ensures Inv(Next(s, a))
  {
    var mid := Put(s, a.p, Hooked(s.procs[a.p]));
    NewcomerKeeps(s, a.p, Hooked(s.procs[a.p]), mid);
    ReapingKeeps(mid);
  }

  lemma DieKeeps(s: Sys, a: Action)
    requires Inv(s) && Enabled(s, a) && a.Die?
    ensures Inv(Next(s, a))
  {
    hide GlobalsOk, ActsOn, HasLocked;
    var mid := s.(procs := s.procs - {a.p});
    forall q | q in mid.procs ensures ProcOk(mid, q) { assert ProcOk(s, q); }
    ReapingKeeps(mid);
  }

  /** How a step of a process's own changes what it acts on and what it has locked. */
  ghost predicate OwnStepFits(s: Sys, a: Action, was: Proc, now: Proc)
    requires Own(a) && a.p in s.procs
  {
    && !now.inHook && GlobalsOk(a.p, now)
    && now.fds <= was.fds + (if a.OpenLock? then {a.fd} else {})
    && (forall fd :: ActsOn(now, fd) ==> ActsOn(was, fd) || (a.OpenLock? && fd == a.fd))
    && (forall fd :: HasLocked(now, fd) ==>
          (HasLocked(was, fd) && Freed(s, a) != Some(fd)) || (a.TakeFlock? && InHand(was.phase) && fd == was.phase.fd))
    && (forall fd: Fd :: HasLocked(was, fd) && Freed(s, a) != Some(fd) ==> fd in now.fds)
    && (Freed(s, a).Some? ==> HasLocked(was, Freed(s, a).value))
  }

  lemma GiveUpFits(s: Sys, a: Action)
    requires a.GiveUp? && Enabled(s, a) && GlobalsOk(a.p, s.procs[a.p])
    ensures OwnStepFits(s, a, s.procs[a.p], GiveUpStep(s.procs[a.p]))
  {
  }

  lemma ReleaseFits(s: Sys, a: Action)
    requires a.Release? && Enabled(s, a) && GlobalsOk(a.p, s.procs[a.p])
    ensures OwnStepFits(s, a, s.procs[a.p], ReleaseStep(s.procs[a.p], a.p))
  {
    var proc := s.procs[a.p];
    if !Unlocks(proc, a.p) && !Closes(proc, a.p) {
      LeaveStepFits(a.p, proc);
      hide LeaveStep, GlobalsOk;
    }
  }

  lemma LeaveStepFits(p: Pid, proc: Proc)
    requires GlobalsOk(p, proc) && !Unlocks(proc, p) && !Closes(proc, p) && !proc.inHook
    ensures GlobalsOk(p, LeaveStep(proc)) && LeaveStep(proc).fds == proc.fds && !LeaveStep(proc).inHook
    ensures forall fd :: ActsOn(LeaveStep(proc), fd) ==> ActsOn(proc, fd)
    ensures forall fd :: HasLocked(LeaveStep(proc), fd) ==> HasLocked(proc, fd)
    ensures forall fd :: HasLocked(proc, fd) ==> fd in proc.fds
  {
  }

  lemma OpenFits(s: Sys, a: Action)
    requires a.OpenLock? && Enabled(s, a) && KernelOk(s) && GlobalsOk(a.p, s.procs[a.p])
    ensures OwnStepFits(s, a, s.procs[a.p], OwnStep(s, a))
  {
  }

  lemma OtherStepFits(s: Sys, a: Action)
    requires Own(a) && !(a.OpenLock? || a.GiveUp? || a.Release? || a.Publish?)
    requires Enabled(s, a) && GlobalsOk(a.p, s.procs[a.p])
    ensures OwnStepFits(s, a, s.procs[a.p], OwnStep(s, a))
  {
    hide Refusal, Facts;
  }

  lemma PublishFits(s: Sys, a: Action)
    requires a.Publish? && Enabled(s, a) && GlobalsOk(a.p, s.procs[a.p])
    ensures OwnStepFits(s, a, s.procs[a.p], PublishStep(s.procs[a.p], a.p))
  {
  }

  lemma StepFits(s: Sys, a: Action)
    requires Own(a) && Enabled(s, a) && KernelOk(s) && GlobalsOk(a.p, s.procs[a.p])
    ensures OwnStepFits(s, a, s.procs[a.p], OwnStep(s, a))
  {
    hide OwnStepFits, GlobalsOk, KernelOk, GiveUpStep, ReleaseStep, PublishStep, Refusal, Facts;
    if a.OpenLock? { OpenFits(s, a); }
    else if a.GiveUp? { GiveUpFits(s, a); }
    else if a.Release? { ReleaseFits(s, a); }
    else if a.Publish? { PublishFits(s, a); }
    else { OtherStepFits(s, a); }
  }

  lemma KernelKeepsLocks(s: Sys, a: Action)
    requires KernelOk(s) && Own(a) && Enabled(s, a)
    ensures KernelOk(Kernel(s, a))
    ensures forall fd: Fd :: HoldsFlock(s, fd) && Freed(s, a) != Some(fd) ==> HoldsFlock(Kernel(s, a), fd)
    ensures a.TakeFlock? ==> HoldsFlock(Kernel(s, a), s.procs[a.p].phase.fd)
    ensures forall fd :: fd in s.inodeOf ==> fd in Kernel(s, a).inodeOf && Kernel(s, a).inodeOf[fd] == s.inodeOf[fd]
    ensures a.OpenLock? ==> a.fd in Kernel(s, a).inodeOf
    ensures Kernel(s, a).procs == s.procs
  {
  }

  lemma OwnStepKeeps(s: Sys, a: Action)
    requires Inv(s) && Own(a) && Enabled(s, a)
    ensures Inv(Next(s, a))
  {
    hide GlobalsOk, HasLocked, ActsOn, HoldsFlock, OwnStep, Kernel, Freed;
    var proc, kernel := OwnStep(s, a), Kernel(s, a);
    var mid := Put(kernel, a.p, proc);
    SoundProc(s, a.p);
    StepFits(s, a);
    KernelKeepsLocks(s, a);
    OwnFds(s, a.p);
    PuttingKeepsLocks(kernel, a.p, proc);
    forall q | q in mid.procs && q != a.p ensures ProcOk(mid, q) {
      SoundProc(s, q);
      forall fd | Running(s, q) && HasLocked(s.procs[q], fd) ensures HoldsFlock(mid, fd) {
        OwnFds(s, q);
        assert ActsOn(s.procs[q], fd) && !ActsOn(s.procs[a.p], fd);
      }
      UntouchedProc(s, mid, q);
    }
    StillSeparate(s, a, mid);
    ReapingKeeps(mid);
  }

  lemma PuttingKeepsLocks(s: Sys, p: Pid, proc: Proc)
    ensures forall fd :: HoldsFlock(Put(s, p, proc), fd) == HoldsFlock(s, fd)
  {
  }

  lemma StillSeparate(s: Sys, a: Action, mid: Sys)
    requires Sound(s) && Own(a) && Enabled(s, a) && OwnStepFits(s, a, s.procs[a.p], OwnStep(s, a))
    requires mid.procs == s.procs[a.p := OwnStep(s, a)]
    ensures Separate(mid)
  {
    hide GlobalsOk, HasLocked, ActsOn, OwnStep;
    forall q, r, fd | Running(mid, q) && Running(mid, r) && ActsOn(mid.procs[q], fd) && ActsOn(mid.procs[r], fd)
      ensures q == r
    {
      SoundProc(s, q);
      SoundProc(s, r);
      OwnFds(s, q);
      OwnFds(s, r);
    }
  }

  lemma RebindKeeps(s: Sys, a: Action)
    requires Inv(s) && a.Rebind?
    ensures Inv(Next(s, a))
  {
    hide GlobalsOk, ActsOn, HasLocked;
    var s' := Next(s, a);
    assert forall p :: Running(s', p) ==> Running(s, p);
    assert forall fd :: InUse(s', fd) == InUse(s, fd);
    forall q | q in s'.procs ensures ProcOk(s', q) { assert ProcOk(s, q); }
  }

  lemma StepKeepsInv(s: Sys, a: Action)
    requires Inv(s) && Enabled(s, a)
    ensures Inv(Next(s, a))
  {
    hide Next, Sound, NoGarbage;
    match a {
      case Rebind(_, _, _) => RebindKeeps(s, a);
      case Spawn(_) => SpawnAndForkKeep(s, a);
      case Fork(_, _) => SpawnAndForkKeep(s, a);
      case Die(_) => DieKeeps(s, a);
      case ChildHook(_) => ChildHookKeeps(s, a);
      case _ => OwnStepKeeps(s, a);
    }
  }

  lemma {:induction false} RunsKeepInv(states: seq<Sys>, acts: seq<Action>, n: nat)
    requires IsRun(states, acts) && n <= |acts|
    ensures Inv(states[n])
  {
    if n > 0 {
      hide Sound, NoGarbage, Next, Enabled;
      RunsKeepInv(states, acts, n - 1);
      assert StepAt(states, acts, n - 1);
      StepKeepsInv(states[n - 1], acts[n - 1]);
    }
  }

  /** The five assignments of a publication, run without interruption, record what the sequential
      method records. */
  lemma PublicationAddsUp(p: Pid, proc: Proc)
    requires proc.phase.MarkerStatSeen? && proc.g.pendingFd.None?
    ensures
      var last := PublishStep(PublishStep(PublishStep(PublishStep(PublishStep(proc, p), p), p), p), p);
      && last.phase == Idle
      && last.g == Published(proc.g, proc.phase.fd, p, proc.phase.lockInode, proc.phase.marker)
  {
    var one := PublishStep(proc, p);
    var two := PublishStep(one, p);
    var three := PublishStep(two, p);
    var four := PublishStep(three, p);
    assert four.phase.InodePublished?;
  }

  /** The seven reads and assignments of a release, run without interruption, leave the globals
      the sequential method leaves and go on to unlock and close what was recorded. */
  lemma ReleaseAddsUp(p: Pid, proc: Proc)
    requires proc.leaving.Staying?
    ensures
      var three := LeaveStep(LeaveStep(LeaveStep(proc)));
      var last := LeaveStep(LeaveStep(LeaveStep(LeaveStep(three))));
      && last.g == Released(proc.g) && last.leaving == Leave(AllCleared, proc.g.ownerFd, proc.g.ownerPid)
      && (Unlocks(last, p) <==> proc.g.ownerFd.Some? && (proc.g.ownerPid.None? || proc.g.ownerPid.value == p))
  {
    var two := LeaveStep(LeaveStep(proc));
    var four := LeaveStep(LeaveStep(two));
    var six := LeaveStep(LeaveStep(four));
    assert two.leaving.at == PidRead && four.leaving.at == HeldCleared && six.leaving.at == MarkerCleared;
  }

  // ---------------------------------------------------------------- theorems

  /** Letting a write through means holding the lock that the path names right now. */
  lemma PassingMeansHolding(s: Sys, p: Pid)
    requires Inv(s) && Passes(s, p)
    ensures s.procs[p].g.ownerFd.Some? && s.procs[p].g.ownerFd.value in s.inodeOf
    ensures s.lockPath == Some(s.inodeOf[s.procs[p].g.ownerFd.value])
    ensures HoldsFlock(s, s.procs[p].g.ownerFd.value)
  {
    assert ProcOk(s, p);
    OwnFds(s, p);
    assert HasLocked(s.procs[p], s.procs[p].g.ownerFd.value);
  }

  lemma WriterIsUnique(s: Sys, p: Pid, q: Pid)
    requires Inv(s) && Passes(s, p) && Passes(s, q)
    ensures p == q
  {
    PassingMeansHolding(s, p);
    PassingMeansHolding(s, q);
    assert ActsOn(s.procs[p], s.procs[p].g.ownerFd.value) && ActsOn(s.procs[q], s.procs[q].g.ownerFd.value);
  }

  /** In every reachable state at most one process passes the guard, and no other running process
      can act on the descriptor it passes on. */
  lemma AtMostOneWriter(states: seq<Sys>, acts: seq<Action>, n: nat, p: Pid, q: Pid)
    requires IsRun(states, acts) && n <= |acts|
    requires Passes(states[n], p) && q != p
    ensures !Passes(states[n], q)
    ensures Running(states[n], q) ==> !ActsOn(states[n].procs[q], states[n].procs[p].g.ownerFd.value)
  {
    var s := states[n];
    hide Next, Enabled, Refusal, Facts;
    RunsKeepInv(states, acts, n);
    PassingMeansHolding(s, p);
    assert ActsOn(s.procs[p], s.procs[p].g.ownerFd.value);
    if Passes(s, q) { WriterIsUnique(s, p, q); }
  }

  // ---------------------------------------------------------------- a check spread over time

  /** The guard asks its three stat calls at three instants of a run, `i` before `j` before `k`. */
  ghost function FactsOver(states: seq<Sys>, p: Pid, i: nat, j: nat, k: nat): StatFacts
    requires i <= j <= k < |states| && p in states[j].procs
  {
    StatFacts(states[i].lockPath, OwnerStat(states[j], p), states[k].marker)
  }

  lemma DescriptionStays(s: Sys, a: Action, fd: Fd)
    requires Enabled(s, a) && fd in s.inodeOf && fd in Next(s, a).inodeOf
    ensures Next(s, a).inodeOf[fd] == s.inodeOf[fd]
  {
    hide OwnStep, Freed;
  }

  lemma {:induction false} DescriptionLasts(states: seq<Sys>, acts: seq<Action>, p: Pid, fd: Fd, i: nat, j: nat)
    requires IsRun(states, acts) && i <= j <= |acts|
    requires forall k :: i <= k <= j ==> Running(states[k], p) && states[k].procs[p].g.ownerFd == Some(fd)
    ensures fd in states[i].inodeOf && fd in states[j].inodeOf && states[j].inodeOf[fd] == states[i].inodeOf[fd]
    decreases j
  {
    hide Next, Enabled, Sound, NoGarbage;
    if i < j {
      DescriptionLasts(states, acts, p, fd, i, j - 1);
      assert StepAt(states, acts, j - 1);
    }
    RunsKeepInv(states, acts, j);
    OwnerIsLocked(states[j], p, fd);
    if i < j { DescriptionStays(states[j - 1], acts[j - 1], fd); }
  }

  lemma OwnerIsLocked(s: Sys, p: Pid, fd: Fd)
    requires Inv(s) && Running(s, p) && s.procs[p].g.ownerFd == Some(fd)
    ensures fd in s.inodeOf && HoldsFlock(s, fd)
  {
    assert ProcOk(s, p);
    OwnFds(s, p);
    assert HasLocked(s.procs[p], fd);
  }

  /** A guard call that lets the write through, however its three stat calls lie in time: at the
      instant of the first, the path named the descriptor's inode and the process held the exclusive
      lock on it, so no other process would have passed at that instant. */
  lemma SpreadCheckHeldTheLock(states: seq<Sys>, acts: seq<Action>, p: Pid, fd: Fd, i: nat, j: nat, k: nat, q: Pid)
    requires IsRun(states, acts) && i <= j <= k <= |acts| && q != p
    requires forall n :: i <= n <= j ==> Running(states[n], p) && states[n].procs[p].g.ownerFd == Some(fd)
    requires p in states[i].procs && p in states[j].procs
    requires Refusal(states[i].procs[p].g, p, FactsOver(states, p, i, j, k)).None?
    ensures fd in states[i].inodeOf && states[i].lockPath == Some(states[i].inodeOf[fd]) && HoldsFlock(states[i], fd)
    ensures !Passes(states[i], q)
  {
    hide Next, Enabled, Sound, NoGarbage;
    RunsKeepInv(states, acts, i);
    DescriptionLasts(states, acts, p, fd, i, j);
    OwnerIsLocked(states[i], p, fd);
    if Passes(states[i], q) { PathOwnerIsTheWriter(states[i], p, fd, q); }
  }

  // ---------------------------------------------------------------- who lets a lock go

  /** The three steps that give up a lock: an unlock in a release, one in a retreat, and death. */
  predicate LetsGo(s: Sys, a: Action, p: Pid, fd: Fd)
    requires p in s.procs
  {
    a == Die(p) || (Own(a) && a.p == p && Freed(s, a) == Some(fd))
  }

  lemma ReapingSparesLock(mid: Sys, p: Pid, fd: Fd)
    requires HoldsFlock(mid, fd) && p in mid.procs && fd in mid.procs[p].fds
    ensures HoldsFlock(Reaped(mid), fd)
  {
  }

  /** The process whose record a step changes. */
  function Subject(a: Action): Option<Pid> {
    if a.Rebind? then None else if a.Fork? then Some(a.child) else Some(a.p)
  }

  lemma OthersStay(s: Sys, a: Action, q: Pid)
    requires Enabled(s, a) && q in s.procs && Subject(a) != Some(q)
    ensures q in Next(s, a).procs && Next(s, a).procs[q] == s.procs[q]
  {
    hide OwnStep, Freed;
  }

  lemma SubjectsRecord(s: Sys, a: Action)
    requires Enabled(s, a) && Own(a)
    ensures a.p in Next(s, a).procs && Next(s, a).procs[a.p] == OwnStep(s, a)
  {
    hide OwnStep, Freed;
  }

  lemma RunningLasts(s: Sys, a: Action, p: Pid)
    requires Enabled(s, a) && Running(s, p) && a != Die(p)
    ensures Running(Next(s, a), p)
  {
    if Subject(a) == Some(p) {
      SubjectsRecord(s, a);
      StaysOutOfHook(s, a);
    } else {
      OthersStay(s, a, p);
    }
    hide OwnStep, Next;
  }

  lemma StaysOutOfHook(s: Sys, a: Action)
    requires Own(a) && Enabled(s, a)
    ensures !OwnStep(s, a).inHook
  {
    hide Refusal, Facts;
  }

  lemma OwnStepSparesLock(s: Sys, a: Action, p: Pid, fd: Fd)
    requires Inv(s) && Own(a) && Enabled(s, a) && Running(s, p) && HasLocked(s.procs[p], fd) && !LetsGo(s, a, p, fd)
    ensures HoldsFlock(Next(s, a), fd)
  {
    hide GlobalsOk, OwnStep, Freed, Kernel, HoldsFlock, NoGarbage, HasLocked;
    SoundProc(s, p);
    SoundProc(s, a.p);
    OwnFds(s, p);
    StepFits(s, a);
    KernelKeepsLocks(s, a);
    if Freed(s, a) == Some(fd) { LockedIsActedOn(s.procs[a.p], fd); }
    var mid := Put(Kernel(s, a), a.p, OwnStep(s, a));
    PuttingKeepsLocks(Kernel(s, a), a.p, OwnStep(s, a));
    ReapingSparesLock(mid, p, fd);
  }

  lemma BystandingSparesLock(s: Sys, a: Action, fd: Fd)
    requires Enabled(s, a) && HoldsFlock(s, fd) && (a.Rebind? || a.Spawn? || a.Fork?)
    ensures HoldsFlock(Next(s, a), fd)
  {
  }

  lemma HookAndDeathSpareLock(s: Sys, a: Action, p: Pid, fd: Fd)
    requires Enabled(s, a) && Running(s, p) && HoldsFlock(s, fd) && fd in s.procs[p].fds
    requires a.ChildHook? || a.Die?
    requires a != Die(p)
    ensures HoldsFlock(Next(s, a), fd)
  {
    if a.ChildHook? {
      ReapingSparesLock(Put(s, a.p, Hooked(s.procs[a.p])), p, fd);
    } else {
      ReapingSparesLock(s.(procs := s.procs - {a.p}), p, fd);
    }
  }

  /** A lock once taken is given up by its own process's unlock or death, and by no step of a child,
      of another process or of the environment, nor by any other step of its own. */
  lemma OnlyTheHolderLetsGo(s: Sys, a: Action, p: Pid, fd: Fd)
    requires Inv(s) && Enabled(s, a) && Running(s, p) && HasLocked(s.procs[p], fd) && !LetsGo(s, a, p, fd)
    ensures Running(Next(s, a), p) && HoldsFlock(Next(s, a), fd)
  {
    SoundProc(s, p);
    OwnFds(s, p);
    RunningLasts(s, a, p);
    hide Next, Sound, NoGarbage, Enabled;
    if Own(a) {
      OwnStepSparesLock(s, a, p, fd);
    } else if a.ChildHook? || a.Die? {
      HookAndDeathSpareLock(s, a, p, fd);
    } else {
      BystandingSparesLock(s, a, fd);
    }
  }

  // ---------------------------------------------------------------- forks

  /** A forked child never writes on its parent's lock: before its hook it would be refused if its
      parent's pid was on record, and its hook leaves it nothing to act on or to write with, while
      every lock of every process stays where it was. */
  lemma ForkedChildIsHarmless(states: seq<Sys>, acts: seq<Action>, n: nat, child: Pid)
    requires IsRun(states, acts) && n <= |acts|
    requires child in states[n].procs && states[n].procs[child].inHook
    ensures !Passes(states[n], child)
    ensures states[n].procs[child].g.ownerPid.Some? ==> !WouldPass(states[n], child)
    ensures
      var s, s' := states[n], Next(states[n], ChildHook(child));
      && s'.procs[child].fds == s.procs[child].fds - Noted(s.procs[child].g)
      && s'.procs[child].g == Globals(None, None, false, None, None, None, s.procs[child].g.terminal)
      && !Passes(s', child) && (forall fd :: !ActsOn(s'.procs[child], fd))
      && (forall p, fd :: Running(s, p) && HasLocked(s.procs[p], fd) ==> HoldsFlock(s', fd))
  {
    hide StepAt, Sound, NoGarbage;
    RunsKeepInv(states, acts, n);
    var s := states[n];
    SoundProc(s, child);
    forall p, fd | Running(s, p) && HasLocked(s.procs[p], fd) ensures HoldsFlock(Next(s, ChildHook(child)), fd) {
      OnlyTheHolderLetsGo(s, ChildHook(child), p, fd);
    }
  }

  /** Before its hook a child takes no other step. */
  lemma NotInHook(s: Sys, a: Action, c: Pid)
    requires Enabled(s, a) && c in s.procs && s.procs[c].inHook && a != ChildHook(c) && a != Die(c)
    ensures Subject(a) != Some(c)
  {
  }

  lemma {:induction false} InHookStaysFrozen(states: seq<Sys>, acts: seq<Action>, c: Pid, i: nat, j: nat)
    requires IsRun(states, acts) && i <= j <= |acts| && c in states[i].procs && states[i].procs[c].inHook
    requires forall k :: i <= k < j ==> acts[k] != ChildHook(c) && acts[k] != Die(c)
    ensures c in states[j].procs && states[j].procs[c] == states[i].procs[c]
    decreases j
  {
    if i < j {
      hide Next, Enabled;
      InHookStaysFrozen(states, acts, c, i, j - 1);
      assert StepAt(states, acts, j - 1);
      NotInHook(states[j - 1], acts[j - 1], c);
      OthersStay(states[j - 1], acts[j - 1], c);
    }
  }

  /** An acquisition under way has its lock file open but not, or no longer, noted as pending. */
  predicate AcquiresUnnoted(proc: Proc) { InHand(proc.phase) && proc.g.pendingFd != Some(proc.phase.fd) }

  /** A release under way has a descriptor in its local variable that the globals no longer name. */
  predicate ReleasesUnnoted(proc: Proc) {
    proc.leaving.Leave? && proc.leaving.fd.Some? && proc.leaving.fd != proc.g.ownerFd
  }

  /** The process has lost track of no descriptor. */
  ghost predicate Tidy(proc: Proc) {
    forall fd :: fd in proc.fds ==> fd in Noted(proc.g) || ActsOn(proc, fd)
  }

  /** The hook leaves a child exactly the descriptors its parent had open at the fork without noting
      them; and from a parent that has lost track of none, exactly when at the fork it was not inside
      a release past the clearing of `_owner_lock_fd`, nor inside an acquisition with an open lock
      file that `_pending_lock_fd` does not name, none at all. */
  lemma HookLeavesTheUnnoted(states: seq<Sys>, acts: seq<Action>, i: nat, j: nat, p: Pid, child: Pid)
    requires IsRun(states, acts) && i < j < |acts| && acts[i] == Fork(p, child) && acts[j] == ChildHook(child)
    requires forall k :: i < k < j ==> acts[k] != ChildHook(child) && acts[k] != Die(child)
    ensures p in states[i].procs && child in states[j + 1].procs
    ensures states[j + 1].procs[child].fds == states[i].procs[p].fds - Noted(states[i].procs[p].g)
    ensures Tidy(states[i].procs[p]) ==>
            (states[j + 1].procs[child].fds == {} <==>
             !AcquiresUnnoted(states[i].procs[p]) && !ReleasesUnnoted(states[i].procs[p]))
  {
    RunsKeepInv(states, acts, i);
    assert StepAt(states, acts, i) && StepAt(states, acts, j);
    assert Running(states[i], p) && states[i + 1].procs[child] == Child(states[i].procs[p]);
    InHookStaysFrozen(states, acts, child, i + 1, j);
    assert states[j + 1].procs[child] == Hooked(states[j].procs[child]);
    SoundProc(states[i], p);
    hide IsRun, Next, Enabled, Inv;
    if Tidy(states[i].procs[p]) { UnnotedIff(p, states[i].procs[p]); }
  }

  lemma UnnotedIff(p: Pid, proc: Proc)
    requires GlobalsOk(p, proc) && Tidy(proc)
    ensures proc.fds - Noted(proc.g) == {} <==> !AcquiresUnnoted(proc) && !ReleasesUnnoted(proc)
  {
    if AcquiresUnnoted(proc) {
      assert ActsOn(proc, proc.phase.fd) && proc.phase.fd in proc.fds - Noted(proc.g);
    }
    if ReleasesUnnoted(proc) {
      assert ActsOn(proc, proc.leaving.fd.value) && proc.leaving.fd.value in proc.fds - Noted(proc.g);
    }
  }

  /** A release and an acquisition of one process overlap in time. */
  predicate Overlaps(s: Sys, a: Action)
    requires Own(a) && a.p in s.procs
  {
    || (a.Release? && !s.procs[a.p].phase.Idle?)
    || (a.OpenLock? && !s.procs[a.p].leaving.Staying?)
  }

  /** What holds of a process whose releases and acquisitions have not overlapped. */
  ghost predicate Orderly(proc: Proc) {
    var g, ph, l := proc.g, proc.phase, proc.leaving;
    && Tidy(proc)
    && (ph.Idle? || l.Staying?)
    && (InHand(ph) || ph.Retreated? ==> g.ownerFd.None?)
    && (l.Leave? && !PastClearing(l) ==> g.ownerFd == l.fd)
    && (PastClearing(l) ==> g.ownerFd.None?)
    && (l.Staying? && g.ownerFd.Some? ==>
          && (g.held || ph.FdPublished?)
          && (g.ownerPid.Some? || ph.FdPublished? || ph.HeldPublished?)
          && (g.lockInode.Some? || (Publishing(ph) && !ph.InodePublished?))
          && (g.markerStat.Some? || Publishing(ph)))
  }

  lemma OwnStepIsOrderly(s: Sys, a: Action)
    requires Own(a) && Enabled(s, a) && GlobalsOk(a.p, s.procs[a.p]) && Orderly(s.procs[a.p]) && !Overlaps(s, a)
    ensures Orderly(OwnStep(s, a))
  {
    hide Refusal, Facts, Orderly, GlobalsOk, ReleaseStep;
    if a.Release? { ReleaseIsOrderly(s.procs[a.p], a.p); } else { AcquiringIsOrderly(s, a); }
  }

  lemma ReleaseIsOrderly(proc: Proc, p: Pid)
    requires GlobalsOk(p, proc) && Orderly(proc) && proc.phase.Idle?
    ensures Orderly(ReleaseStep(proc, p))
  {
  }

  lemma AcquiringIsOrderly(s: Sys, a: Action)
    requires Own(a) && Enabled(s, a) && GlobalsOk(a.p, s.procs[a.p]) && Orderly(s.procs[a.p]) && !a.Release?
    requires a.OpenLock? ==> s.procs[a.p].leaving.Staying?
    ensures Orderly(OwnStep(s, a))
  {
    hide Refusal, Facts;
  }

  lemma OrderlyStep(s: Sys, a: Action, p: Pid)
    requires Enabled(s, a) && Running(s, p) && ProcOk(s, p) && Orderly(s.procs[p]) && a != Die(p)
    requires Own(a) && a.p == p ==> !Overlaps(s, a)
    ensures Running(Next(s, a), p) && Orderly(Next(s, a).procs[p])
  {
    hide Orderly, GlobalsOk, OwnStep, Next;
    RunningLasts(s, a, p);
    if Subject(a) == Some(p) {
      SubjectsRecord(s, a);
      OwnStepIsOrderly(s, a);
    } else {
      OthersStay(s, a, p);
    }
  }

  /** A process that starts with no descriptor, and whose releases and acquisitions never overlap,
      loses track of none. */
  lemma {:induction false} TidyLasts(states: seq<Sys>, acts: seq<Action>, p: Pid, i: nat, j: nat)
    requires IsRun(states, acts) && i < j <= |acts| && acts[i] == Spawn(p)
    requires forall k :: i < k < j ==> acts[k] != Die(p)
    requires forall k :: i < k < j && Own(acts[k]) && acts[k].p == p && p in states[k].procs ==>
               !Overlaps(states[k], acts[k])
    ensures Running(states[j], p) && Orderly(states[j].procs[p])
    decreases j
  {
    hide Enabled, Sound, NoGarbage, Orderly;
    assert StepAt(states, acts, j - 1);
    if i < j - 1 {
      hide Next;
      TidyLasts(states, acts, p, i, j - 1);
      RunsKeepInv(states, acts, j - 1);
      SoundProc(states[j - 1], p);
      OrderlyStep(states[j - 1], acts[j - 1], p);
    } else {
      FreshIsOrderly();
    }
  }

  lemma FreshIsOrderly()
    ensures Orderly(Proc(false, {}, FRESH_GLOBALS, Idle, Staying))
  {
  }

  /** Such a fork is possible wherever an owner can be: three steps into its release, a child keeps
      the lock file open after its hook, and so does the parent. */
  lemma ForkInsideRelease(s: Sys, p: Pid, child: Pid, fd: Fd) returns (s1: Sys, s2: Sys, s3: Sys, s4: Sys, s5: Sys)
    requires Inv(s) && Running(s, p) && s.procs[p].leaving.Staying? && s.procs[p].g.ownerFd == Some(fd)
    requires s.procs[p].g.pendingFd.None? && child !in s.procs
    ensures Leads(s, Release(p), s1) && Leads(s1, Release(p), s2) && Leads(s2, Release(p), s3)
    ensures Leads(s3, Fork(p, child), s4) && Leads(s4, ChildHook(child), s5)
    ensures p in s5.procs && child in s5.procs && fd in s5.procs[p].fds && fd in s5.procs[child].fds
  {
    OwnerHasItOpen(s, p, fd);
    ThreeStepsIn(s.procs[p], p);
    hide Inv, Next, ReleaseStep;
    s1 := Next(s, Release(p));
    ReleaseRecord(s, p);
    s2 := Next(s1, Release(p));
    ReleaseRecord(s1, p);
    s3 := Next(s2, Release(p));
    ReleaseRecord(s2, p);
    ForkAndHook(s3, p, child);
    s4 := Next(s3, Fork(p, child));
    s5 := Next(s4, ChildHook(child));
  }

  lemma OwnerHasItOpen(s: Sys, p: Pid, fd: Fd)
    requires Inv(s) && Running(s, p) && s.procs[p].g.ownerFd == Some(fd) && s.procs[p].leaving.Staying?
    ensures fd in s.procs[p].fds
  {
    SoundProc(s, p);
    OwnFds(s, p);
    assert ActsOn(s.procs[p], fd);
    hide Inv, ProcOk;
  }

  lemma ThreeStepsIn(proc: Proc, p: Pid)
    requires proc.leaving.Staying?
    ensures
      var one := ReleaseStep(proc, p);
      var two := ReleaseStep(one, p);
      var three := ReleaseStep(two, p);
      && !(one.inHook || two.inHook || three.inHook) == !proc.inHook && three.fds == proc.fds
      && three.g == proc.g.(ownerFd := None)
  {
    assert ReleaseStep(ReleaseStep(proc, p), p).leaving.at == PidRead;
  }

  lemma ForkAndHook(s: Sys, p: Pid, child: Pid)
    requires Running(s, p) && child !in s.procs
    ensures Enabled(s, Fork(p, child)) && Enabled(Next(s, Fork(p, child)), ChildHook(child))
    ensures Next(Next(s, Fork(p, child)), ChildHook(child)).procs == s.procs[child := Hooked(Child(s.procs[p]))]
  {
  }

  lemma ReleaseRecord(s: Sys, p: Pid)
    requires Running(s, p)
    ensures Next(s, Release(p)).procs == s.procs[p := ReleaseStep(s.procs[p], p)]
  {
    hide ReleaseStep, Freed;
  }

  /** A child that went on with the acquisition it was forked from, which is no step of this system,
      and published it: it would pass like its parent, on the lock they share, exactly if at the fork
      the open lock file was not noted as pending. */
  lemma ReturningChildPassesIff(parent: Proc, p: Pid, t: Sys, child: Pid, i: Inode, m: MarkerStat)
    requires GlobalsOk(p, parent) && Locked(parent.phase) && !parent.g.terminal
    requires child in t.procs
    requires
      var left := Hooked(Child(parent));
      t.procs[child] == left.(g := Published(left.g, parent.phase.fd, child, i, m))
    requires t.lockPath == Some(i) && t.marker == Some(m)
    requires parent.phase.fd in t.inodeOf && t.inodeOf[parent.phase.fd] == i
    ensures WouldPass(t, child) <==> AcquiresUnnoted(parent)
  {
    assert ActsOn(parent, parent.phase.fd);
  }

  // ---------------------------------------------------------------- what passing takes

  /** In terms of the system alone: what a running process must find, in itself, at the lock path and at
      the marker path, for a write to go through. */
  lemma PassesIff(s: Sys, p: Pid)
    requires Running(s, p)
    ensures
      var g := s.procs[p].g;
      Passes(s, p) <==>
      && !g.terminal && g.held && (g.ownerPid.None? || g.ownerPid.value == p)
      && g.ownerFd.Some? && g.ownerFd.value in s.procs[p].fds && g.ownerFd.value in s.inodeOf
      && s.lockPath == Some(s.inodeOf[g.ownerFd.value]) && (g.lockInode.None? || g.lockInode == s.lockPath)
      && s.marker.Some? && (g.markerStat.None? || g.markerStat == s.marker)
  {
  }

  /** The process has stat'ed this marker at the marker path, in an acquisition. */
  ghost predicate SawMarker(states: seq<Sys>, acts: seq<Action>, n: nat, p: Pid, m: MarkerStat)
    requires |states| == |acts| + 1 && n <= |acts|
  {
    exists k :: 0 <= k < n && acts[k] == StatMarker(p) && states[k].marker == Some(m)
  }

  /** The markers a process has recorded or is about to. */
  predicate Carries(proc: Proc, m: MarkerStat) {
    || proc.g.markerStat == Some(m)
    || ((proc.phase.MarkerStatSeen? || Publishing(proc.phase)) && proc.phase.marker == m)
  }

  lemma OwnStepCarries(s: Sys, a: Action, m: MarkerStat)
    requires Own(a) && Enabled(s, a) && Carries(OwnStep(s, a), m)
    ensures Carries(s.procs[a.p], m) || (a.StatMarker? && s.marker == Some(m))
  {
    hide Refusal, Facts;
  }

  lemma {:induction false} CarriedWasSeen(states: seq<Sys>, acts: seq<Action>, n: nat, p: Pid, m: MarkerStat)
    requires IsRun(states, acts) && n <= |acts| && Running(states[n], p) && Carries(states[n].procs[p], m)
    ensures SawMarker(states, acts, n, p, m)
  {
    if n > 0 {
      var s, a := states[n - 1], acts[n - 1];
      assert StepAt(states, acts, n - 1);
      if Subject(a) == Some(p) && Own(a) {
        SubjectsRecord(s, a);
        OwnStepCarries(s, a, m);
        assert Running(s, p);
        hide Next, OwnStep, Enabled;
        if Carries(s.procs[p], m) { CarriedWasSeen(states, acts, n - 1, p, m); }
      } else if Subject(a) != Some(p) {
        OnlySubjectsChange(s, a, p);
        hide Next, Enabled;
        CarriedWasSeen(states, acts, n - 1, p, m);
      }
    }
  }

  lemma OnlySubjectsChange(s: Sys, a: Action, p: Pid)
    requires Enabled(s, a) && Subject(a) != Some(p) && p in Next(s, a).procs
    ensures p in s.procs && Next(s, a).procs[p] == s.procs[p]
  {
    hide OwnStep, Freed;
  }

  /** A process that passes with a marker on record finds at the marker path exactly that marker, and it
      is one that stood there when the process acquired. */
  lemma PassingFindsItsMarker(states: seq<Sys>, acts: seq<Action>, n: nat, p: Pid)
    requires IsRun(states, acts) && n <= |acts| && Passes(states[n], p) && states[n].procs[p].g.markerStat.Some?
    ensures states[n].marker == states[n].procs[p].g.markerStat
    ensures SawMarker(states, acts, n, p, states[n].marker.value)
  {
    PassesIff(states[n], p);
    CarriedWasSeen(states, acts, n, p, states[n].procs[p].g.markerStat.value);
  }

  /** That is every owner whose publication is complete, if its releases and acquisitions have not
      overlapped. */
  lemma OwnerFindsItsMarker(states: seq<Sys>, acts: seq<Action>, p: Pid, i: nat, n: nat)
    requires IsRun(states, acts) && i < n <= |acts| && acts[i] == Spawn(p)
    requires forall k :: i < k < n ==> acts[k] != Die(p)
    requires forall k :: i < k < n && Own(acts[k]) && acts[k].p == p && p in states[k].procs ==>
               !Overlaps(states[k], acts[k])
    requires Passes(states[n], p) && states[n].procs[p].phase.Idle? && states[n].procs[p].leaving.Staying?
    ensures states[n].marker.Some? && states[n].marker == states[n].procs[p].g.markerStat
    ensures SawMarker(states, acts, n, p, states[n].marker.value)
  {
    TidyLasts(states, acts, p, i, n);
    PassesIff(states[n], p);
    hide IsRun, SawMarker, Refusal, Facts, Tidy;
    PassingFindsItsMarker(states, acts, n, p);
  }

  /** An owner looks at a lock path or a marker path that no longer shows what it recorded. */
  predicate Disowned(s: Sys, p: Pid)
    requires Running(s, p) && s.procs[p].g.ownerFd.Some?
  {
    var g := s.procs[p].g;
    || s.marker.None? || (g.markerStat.Some? && s.marker != g.markerStat)
    || s.lockPath.None? || (g.lockInode.Some? && s.lockPath != g.lockInode)
    || (g.ownerFd.value in s.inodeOf && s.lockPath != Some(s.inodeOf[g.ownerFd.value]))
  }

  lemma DisownedIsTerminal(s: Sys, p: Pid)
    requires Inv(s) && Running(s, p) && s.procs[p].g.held && s.procs[p].g.ownerFd.Some? && Disowned(s, p)
    ensures p in Next(s, Check(p)).procs && Next(s, Check(p)).procs[p].g.terminal
  {
    PassesIff(s, p);
    CheckLatchesLoss(s, p);
  }

  /** An owner that checks while the lock path or the marker path shows something else than it recorded,
      or nothing, never passes again, even after what it recorded has come back. */
  lemma DisownedNeverPassesAgain(states: seq<Sys>, acts: seq<Action>, p: Pid, i: nat, j: nat)
    requires IsRun(states, acts) && i < j <= |acts| && acts[i] == Check(p)
    requires Running(states[i], p) && states[i].procs[p].g.held && states[i].procs[p].g.ownerFd.Some?
    requires Disowned(states[i], p)
    requires forall k :: i < k < j ==> acts[k] != Die(p)
    ensures p in states[j].procs && states[j].procs[p].g.terminal && !Passes(states[j], p)
  {
    hide Next, Enabled, Sound, NoGarbage, Disowned;
    RunsKeepInv(states, acts, i);
    assert StepAt(states, acts, i);
    DisownedIsTerminal(states[i], p);
    TerminalStays(states, acts, p, i + 1, j);
    if Running(states[j], p) { PassesIff(states[j], p); }
  }

  // ---------------------------------------------------------------- loss and hand-over

  /** What one check decides: an owner that would be refused is terminally lost. */
  lemma CheckLatchesLoss(s: Sys, p: Pid)
    requires Inv(s) && Running(s, p) && s.procs[p].g.held && s.procs[p].g.ownerFd.Some?
    ensures p in Next(s, Check(p)).procs
    ensures Next(s, Check(p)).procs[p].g.terminal <==> !Passes(s, p)
  {
    assert ProcOk(s, p);
  }

  lemma TerminalStep(s: Sys, a: Action, p: Pid)
    requires Enabled(s, a) && a != Die(p) && p in s.procs && s.procs[p].g.terminal
    ensures p in Next(s, a).procs && Next(s, a).procs[p].g.terminal
  {
    if Subject(a) != Some(p) {
      OthersStay(s, a, p);
    } else if Own(a) {
      SubjectsRecord(s, a);
      OwnStepKeepsTerminal(s, a);
      hide Next, OwnStep;
    }
  }

  lemma OwnStepKeepsTerminal(s: Sys, a: Action)
    requires Own(a) && Enabled(s, a) && s.procs[a.p].g.terminal
    ensures OwnStep(s, a).g.terminal
  {
    hide Facts;
  }

  lemma {:induction false} TerminalStays(states: seq<Sys>, acts: seq<Action>, p: Pid, i: nat, j: nat)
    requires IsRun(states, acts) && i <= j <= |acts|
    requires p in states[i].procs && states[i].procs[p].g.terminal
    requires forall k :: i <= k < j ==> acts[k] != Die(p)
    ensures p in states[j].procs && states[j].procs[p].g.terminal
    decreases j
  {
    if i < j {
      hide Next, Enabled;
      TerminalStays(states, acts, p, i, j - 1);
      assert StepAt(states, acts, j - 1);
      TerminalStep(states[j - 1], acts[j - 1], p);
    }
  }

  /** Once an owner checks while some other process holds the lock path, it never writes again. */
  lemma SupersededOwnerStaysRefused(states: seq<Sys>, acts: seq<Action>, p: Pid, q: Pid, i: nat, j: nat)
    requires IsRun(states, acts) && i < j <= |acts| && acts[i] == Check(p)
    requires p != q && Passes(states[i], q)
    requires Running(states[i], p) && states[i].procs[p].g.held && states[i].procs[p].g.ownerFd.Some?
    requires forall k :: i < k < j ==> acts[k] != Die(p)
    ensures !Passes(states[j], p)
  {
    hide Next, Enabled, Sound, NoGarbage;
    RunsKeepInv(states, acts, i);
    AtMostOneWriter(states, acts, i, q, p);
    assert StepAt(states, acts, i);
    CheckLatchesLoss(states[i], p);
    TerminalStays(states, acts, p, i + 1, j);
  }

  /** `p` owns the lock that the path names, whether or not its markers still satisfy it. */
  ghost predicate OwnsPath(s: Sys, p: Pid, fd: Fd) {
    && Running(s, p) && s.procs[p].g.held && s.procs[p].g.ownerFd == Some(fd)
    && fd in s.inodeOf && s.lockPath == Some(s.inodeOf[fd])
  }

  lemma PathOwnerIsTheWriter(s: Sys, p: Pid, fd: Fd, q: Pid)
    requires Inv(s) && Passes(s, q) && Running(s, p) && s.procs[p].g.ownerFd == Some(fd)
    requires fd in s.inodeOf && s.lockPath == Some(s.inodeOf[fd])
    ensures p == q
  {
    PassingMeansHolding(s, q);
    OwnerIsLocked(s, p, fd);
    assert ActsOn(s.procs[p], fd) && ActsOn(s.procs[q], s.procs[q].g.ownerFd.value);
  }

  lemma OwnerRecordStep(s: Sys, a: Action, fd: Fd)
    requires Own(a) && !a.Release? && Enabled(s, a) && OwnsPath(s, a.p, fd) && GlobalsOk(a.p, s.procs[a.p])
    ensures OwnStep(s, a).g.held && OwnStep(s, a).g.ownerFd == Some(fd) && Freed(s, a) != Some(fd)
  {
    hide Refusal, Facts;
  }

  lemma PathStays(s: Sys, a: Action, p: Pid, fd: Fd)
    requires Enabled(s, a) && OwnsPath(s, p, fd) && !a.Rebind?
    ensures Next(s, a).lockPath == s.lockPath
    ensures fd in Next(s, a).inodeOf ==> Next(s, a).inodeOf[fd] == s.inodeOf[fd]
  {
    hide OwnStep, Freed;
  }

  lemma OwnershipStep(s: Sys, a: Action, p: Pid, fd: Fd)
    requires Inv(s) && Enabled(s, a) && OwnsPath(s, p, fd)
    requires a != Release(p) && a != Die(p) && !a.Rebind?
    ensures OwnsPath(Next(s, a), p, fd)
  {
    SoundProc(s, p);
    PathStays(s, a, p, fd);
    if Subject(a) == Some(p) {
      OwnerRecordStep(s, a, fd);
      SubjectsRecord(s, a);
    } else {
      OthersStay(s, a, p);
    }
    hide Next, Enabled, Sound, NoGarbage, GlobalsOk, OwnStep, Freed;
    OnlyTheHolderLetsGo(s, a, p, fd);
  }

  lemma {:induction false} OwnershipLasts(states: seq<Sys>, acts: seq<Action>, p: Pid, fd: Fd, i: nat, j: nat)
    requires IsRun(states, acts) && i <= j <= |acts| && OwnsPath(states[i], p, fd)
    requires forall k :: i <= k < j ==> acts[k] != Release(p) && acts[k] != Die(p) && !acts[k].Rebind?
    ensures OwnsPath(states[j], p, fd)
    decreases j
  {
    if i < j {
      hide Next, Enabled, Sound, NoGarbage, OwnsPath;
      OwnershipLasts(states, acts, p, fd, i, j - 1);
      RunsKeepInv(states, acts, j - 1);
      assert StepAt(states, acts, j - 1);
      OwnershipStep(states[j - 1], acts[j - 1], p, fd);
    }
  }

  /** Ownership passes from one process to another only across a step of a release or the death of
      the first, or a rebinding of the lock path from outside. */
  lemma HandOverNeedsReleaseOrRebind(states: seq<Sys>, acts: seq<Action>, p: Pid, q: Pid, i: nat, j: nat)
    requires IsRun(states, acts) && i <= j <= |acts| && p != q
    requires Passes(states[i], p) && Passes(states[j], q)
    ensures exists k :: i <= k < j && (acts[k] == Release(p) || acts[k] == Die(p) || acts[k].Rebind?)
  {
    hide Next, Enabled, Sound, NoGarbage;
    if forall k :: i <= k < j ==> acts[k] != Release(p) && acts[k] != Die(p) && !acts[k].Rebind? {
      RunsKeepInv(states, acts, i);
      PassingMeansHolding(states[i], p);
      var fd := states[i].procs[p].g.ownerFd.value;
      OwnershipLasts(states, acts, p, fd, i, j);
      RunsKeepInv(states, acts, j);
      PathOwnerIsTheWriter(states[j], p, fd, q);
    }
  }
}
