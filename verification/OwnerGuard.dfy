/**
 The process side of the single-writer guard: the volume marker, the module globals of one
 process, and the functions that set and clear them. Every answer of the operating system is a
 parameter, so each contract holds whatever the file system and the other processes do.
 */
module OwnerGuard {
  import opened Prelude

  // ---------------------------------------------------------------- volume marker

  datatype MarkerState = Absent | Unreadable | Corrupt | Mismatch | Valid

  /** `int(volume_id, 16)` accepts more than hex digits, so whether it parses is its own field. */
  datatype VolumeId = NotText | Text(length: nat, parses: bool)

  datatype Pin = NoPin | PinText(text: string) | PinNotText

  datatype Payload = Payload(version: int, volumeId: VolumeId, appName: Option<string>, pin: Pin,
                             machine: Option<string>)

  datatype MarkerFile =
    | Missing | StatFails | NotRegular | ReadFails | Blank | BadJson | NotObject
    | Object(payload: Payload)

  /** Stripped environment values; the empty string means unset. */
  datatype FlyEnv = FlyEnv(app: string, pin: string, machine: string)

  const MARKER_VERSION := 2
  const VOLUME_ID_LENGTH := 32

  function PinOf(p: Pin): string { if p.PinText? then p.text else "" }

  function ClassifyPayload(p: Payload, env: FlyEnv): MarkerState
  {
    if p.version != MARKER_VERSION then Corrupt
    else if p.volumeId.NotText? || p.volumeId.length != VOLUME_ID_LENGTH then Corrupt
    else if !p.volumeId.parses then Corrupt
    else if p.appName.None? then Corrupt
    else if p.pin.PinNotText? then Corrupt
    else if env.app != "" && p.appName.value != env.app then Mismatch
    else if env.pin != "" && PinOf(p.pin) != env.pin then Mismatch
    else if env.machine != "" && (p.machine.None? || p.machine.value == "") then Mismatch
    else if env.machine != "" && p.machine.value != env.machine then Mismatch
    else Valid
  }

  function ClassifyMarker(file: MarkerFile, env: FlyEnv): MarkerState
  {
    match file
    case Missing => Absent
    case StatFails => Unreadable
    case NotRegular => Corrupt
    case ReadFails => Unreadable
    case Blank => Corrupt
    case BadJson => Corrupt
    case NotObject => Corrupt
    case Object(p) => ClassifyPayload(p, env)
  }

  /** The payload a bootstrap writes; `uuid4().hex` is 32 hex digits. */
  function BootstrapPayload(env: FlyEnv): Payload
  {
    Payload(MARKER_VERSION, Text(VOLUME_ID_LENGTH, true), Some(env.app),
            if env.pin != "" then PinText(env.pin) else NoPin,
            if env.machine != "" then Some(env.machine) else None)
  }

  /** A marker is valid exactly when it is a readable object of this version with a proper volume id, an
      app name and no malformed pin, and everything the environment insists on is in it. */
  lemma ValidIff(file: MarkerFile, env: FlyEnv)
    ensures ClassifyMarker(file, env) == Valid <==>
            && file.Object? && file.payload.version == 2
            && file.payload.volumeId.Text? && file.payload.volumeId.length == 32 && file.payload.volumeId.parses
            && file.payload.appName.Some? && !file.payload.pin.PinNotText?
            && (env.app == "" || file.payload.appName.value == env.app)
            && (env.pin == "" || file.payload.pin == PinText(env.pin))
            && (env.machine == "" || file.payload.machine == Some(env.machine))
    ensures ClassifyMarker(file, env) == Absent <==> file.Missing?
    ensures ClassifyMarker(file, env) == Unreadable <==> file.StatFails? || file.ReadFails?
    ensures ClassifyMarker(file, env) == Mismatch <==>
            && file.Object? && ClassifyMarker(file, FlyEnv("", "", "")) == Valid
            && ClassifyMarker(file, env) != Valid
  {
  }

  /** A bootstrapped marker is accepted by a second environment exactly when every value that
      environment insists on is the one the bootstrapping environment had. */
  lemma BootstrapAcceptedIff(writer: FlyEnv, reader: FlyEnv)
    ensures ClassifyMarker(Object(BootstrapPayload(writer)), reader) == Valid <==>
            && (reader.app == "" || reader.app == writer.app)
            && (reader.pin == "" || reader.pin == writer.pin)
            && (reader.machine == "" || reader.machine == writer.machine)
    ensures ClassifyMarker(Object(BootstrapPayload(writer)), writer) == Valid
  {
  }

  /** No marker, however written, is valid on two different named machines. */
  lemma MarkerAdmitsOneMachine(file: MarkerFile, a: FlyEnv, b: FlyEnv)
    requires a.machine != "" && b.machine != "" && a.machine != b.machine
    ensures !(ClassifyMarker(file, a) == Valid && ClassifyMarker(file, b) == Valid)
  {
  }

  // ---------------------------------------------------------------- module globals

  type Pid = nat
  type Fd = nat
  type Inode = nat

  datatype MarkerStat = MarkerStat(inode: Inode, mtimeNs: int, size: nat)
  datatype FdStat = FdStat(inode: Inode, links: nat)

  /** What `os.stat(lock)`, `os.fstat(fd)` and `os.stat(marker)` answer; None is an OSError. */
  datatype StatFacts = StatFacts(lock: Option<Inode>, fd: Option<FdStat>, marker: Option<MarkerStat>)

  datatype Globals = Globals(
    ownerFd: Option<Fd>, pendingFd: Option<Fd>, held: bool, ownerPid: Option<Pid>,
    lockInode: Option<Inode>, markerStat: Option<MarkerStat>, terminal: bool)

  const FRESH_GLOBALS := Globals(None, None, false, None, None, None, false)

  datatype Reason =
    | Terminal | NotHeld | PidMismatch | LockStatFailed | LockUnlinked | LockReplaced
    | LockInodeMismatch | MarkerStatFailed | MarkerChanged

  /** The reasons that latch `_terminal_owner_lost`. */
  predicate IsLoss(r: Reason) { !(r.Terminal? || r.NotHeld? || r.PidMismatch?) }

  /** `_owner_invariants_reason` as a value; None means the owner may write. */
  function Refusal(g: Globals, pid: Pid, w: StatFacts): Option<Reason>
  {
    if g.terminal then Some(Terminal)
    else if !g.held || g.ownerFd.None? then Some(NotHeld)
    else if g.ownerPid.Some? && g.ownerPid.value != pid then Some(PidMismatch)
    else if w.lock.None? || w.fd.None? then Some(LockStatFailed)
    else if w.fd.value.links == 0 then Some(LockUnlinked)
    else if g.lockInode.Some? && w.lock.value != g.lockInode.value then Some(LockReplaced)
    else if w.lock.value != w.fd.value.inode then Some(LockInodeMismatch)
    else if w.marker.None? then Some(MarkerStatFailed)
    else if g.markerStat.Some? && g.markerStat != w.marker then Some(MarkerChanged)
    else None
  }

  /** What the guard names has happened. */
  lemma ReasonHappened(g: Globals, pid: Pid, w: StatFacts)
    ensures
      match Refusal(g, pid, w)
      case None => true
      case Some(r) =>
        match r
        case Terminal => g.terminal
        case NotHeld => !g.held || g.ownerFd.None?
        case PidMismatch => g.ownerPid.Some? && g.ownerPid != Some(pid)
        case LockStatFailed => w.lock.None? || w.fd.None?
        case LockUnlinked => w.fd.Some? && w.fd.value.links == 0
        case LockReplaced => w.lock.Some? && g.lockInode.Some? && w.lock != g.lockInode
        case LockInodeMismatch => w.lock.Some? && w.fd.Some? && w.lock.value != w.fd.value.inode
        case MarkerStatFailed => w.marker.None?
        case MarkerChanged => w.marker.Some? && g.markerStat.Some? && w.marker != g.markerStat
  {
  }

  function AfterRefusal(g: Globals, pid: Pid, w: StatFacts): Globals
  {
    var r := Refusal(g, pid, w);
    if r.Some? && IsLoss(r.value) then g.(terminal := true) else g
  }

  function Forgotten(g: Globals): Globals
  {
    FRESH_GLOBALS.(terminal := g.terminal)
  }

  function Released(g: Globals): Globals
  {
    Globals(None, g.pendingFd, false, None, None, None, g.terminal)
  }

  function Published(g: Globals, fd: Fd, pid: Pid, lockInode: Inode, marker: MarkerStat): Globals
  {
    Globals(Some(fd), None, true, Some(pid), Some(lockInode), Some(marker), g.terminal)
  }

  datatype Call = Open(fd: Fd) | Lock(fd: Fd) | Unlock(fd: Fd) | Close(fd: Fd)

  datatype FlockAnswer = Granted | Contended | FlockError

  datatype AcquireFailure =
    | Guard(reason: Reason) | DataDirMissing | OpenFailed | LockContended | LockError
    | MountUnproven | VolumePinMissing | MarkerAbsentNoData | BootstrapFailed | MarkerUnreadable
    | MarkerCorrupt | MarkerMismatch | BootstrapVerifyFailed | VolumeMarkerCheckError | VolumeCheckError

  /** Where an acquisition meets an exception that no check of its own expects: while it looks for the
      data directory or makes it, in the hook after the lock is taken, among the later checks, or once
      it has published, where only an exit handler is registered and a line logged. */
  datatype Raise = NoRaise | BeforeOpen | AfterFlock | AmongChecks | AfterPublication

  /** Every answer one acquisition can draw from its surroundings, in the order it asks. */
  datatype AcquireFacts = AcquireFacts(
    recheck: StatFacts, prodLike: bool, rootIsDir: bool, lockFd: Option<Fd>, flock: FlockAnswer,
    mountProven: bool, pinSet: bool, marker: MarkerState, hasVolumeData: bool, bootstrapped: bool,
    markerAgain: MarkerState, lockStat: Option<Inode>, markerStat: Option<MarkerStat>, raises: Raise)

  /** `_abort_lock_acquire`. */
  function Undo(fd: Fd): seq<Call> { [Unlock(fd), Close(fd)] }

  /** What an acquisition by a process that holds nothing must find, and nothing else. */
  predicate Acquirable(w: AcquireFacts)
  {
    && (w.prodLike ==> w.rootIsDir && w.mountProven && w.pinSet)
    && w.lockFd.Some? && w.flock.Granted?
    && (w.marker.Valid? ||
        (w.marker.Absent? && w.bootstrapped && (w.prodLike ==> w.hasVolumeData)))
    && w.markerAgain.Valid? && w.lockStat.Some? && w.markerStat.Some?
    && w.raises.NoRaise?
  }

  /** An acquisition that gets as far as recording its owner. */
  predicate Publishes(w: AcquireFacts) {
    Acquirable(w) || (w.raises.AfterPublication? && Acquirable(w.(raises := NoRaise)))
  }

  /** The first obstacle an acquisition meets, in the order it looks. */
  function FirstObstacle(w: AcquireFacts): Option<AcquireFailure>
  {
    if w.raises.BeforeOpen? then Some(VolumeCheckError)
    else if w.prodLike && !w.rootIsDir then Some(DataDirMissing)
    else if w.lockFd.None? then Some(OpenFailed)
    else if w.flock.Contended? then Some(LockContended)
    else if w.flock.FlockError? then Some(LockError)
    else if w.raises.AfterFlock? then Some(VolumeCheckError)
    else if w.prodLike && !w.mountProven then Some(MountUnproven)
    else if w.prodLike && !w.pinSet then Some(VolumePinMissing)
    else if w.marker.Absent? && w.prodLike && !w.hasVolumeData then Some(MarkerAbsentNoData)
    else if w.marker.Absent? && !w.bootstrapped then Some(BootstrapFailed)
    else if w.marker.Unreadable? then Some(MarkerUnreadable)
    else if w.marker.Corrupt? then Some(MarkerCorrupt)
    else if w.marker.Mismatch? then Some(MarkerMismatch)
    else if !w.markerAgain.Valid? then Some(BootstrapVerifyFailed)
    else if w.lockStat.None? || w.markerStat.None? then Some(VolumeMarkerCheckError)
    else if w.raises.AmongChecks? || w.raises.AfterPublication? then Some(VolumeCheckError)
    else None
  }

  /** What a refusal names has happened, and nothing that is looked at earlier. */
  predicate Happened(w: AcquireFacts, f: AcquireFailure) {
    match f
    case Guard(_) => false
    case DataDirMissing => w.prodLike && !w.rootIsDir && !w.raises.BeforeOpen?
    case OpenFailed => w.lockFd.None?
    case LockContended => w.lockFd.Some? && w.flock.Contended?
    case LockError => w.lockFd.Some? && w.flock.FlockError?
    case MountUnproven => w.flock.Granted? && w.prodLike && !w.mountProven
    case VolumePinMissing => w.flock.Granted? && w.prodLike && w.mountProven && !w.pinSet
    case MarkerAbsentNoData => w.flock.Granted? && w.marker.Absent? && w.prodLike && !w.hasVolumeData
    case BootstrapFailed => w.flock.Granted? && w.marker.Absent? && !w.bootstrapped
    case MarkerUnreadable => w.flock.Granted? && w.marker.Unreadable?
    case MarkerCorrupt => w.flock.Granted? && w.marker.Corrupt?
    case MarkerMismatch => w.flock.Granted? && w.marker.Mismatch?
    case BootstrapVerifyFailed => w.flock.Granted? && !w.markerAgain.Valid? && (w.marker.Valid? || w.bootstrapped)
    case VolumeMarkerCheckError => w.markerAgain.Valid? && (w.lockStat.None? || w.markerStat.None?)
    case VolumeCheckError => !w.raises.NoRaise?
  }

  lemma ObstacleHappened(w: AcquireFacts)
    ensures FirstObstacle(w).Some? ==> Happened(w, FirstObstacle(w).value)
    ensures FirstObstacle(w).None? <==> Acquirable(w)
  {
  }

  /** The module globals of one process, updated in place by the module's functions. */
  class OwnerModule {
    var ownerFd: Option<Fd>
    var pendingFd: Option<Fd>
    var held: bool
    var ownerPid: Option<Pid>
    var lockInode: Option<Inode>
    var markerStat: Option<MarkerStat>
    var terminal: bool

    function State(): Globals
      reads this
    {
      Globals(ownerFd, pendingFd, held, ownerPid, lockInode, markerStat, terminal)
    }

    constructor ()
      ensures State() == FRESH_GLOBALS
    {
      ownerFd, pendingFd, held, ownerPid := None, None, false, None;
      lockInode, markerStat, terminal := None, None, false;
    }

    method OwnerInvariantsReason(pid: Pid, w: StatFacts) returns (reason: Option<Reason>)
      modifies this`terminal
      ensures reason == Refusal(old(State()), pid, w)
      ensures State() == AfterRefusal(old(State()), pid, w)
    {
      if terminal { return Some(Terminal); }
      if !held || ownerFd.None? { return Some(NotHeld); }
      if ownerPid.Some? && ownerPid.value != pid { return Some(PidMismatch); }
      if w.lock.None? || w.fd.None? {
        terminal := true;
        return Some(LockStatFailed);
      }
      if w.fd.value.links == 0 {
        terminal := true;
        return Some(LockUnlinked);
      }
      if lockInode.Some? && w.lock.value != lockInode.value {
        terminal := true;
        return Some(LockReplaced);
      }
      if w.lock.value != w.fd.value.inode {
        terminal := true;
        return Some(LockInodeMismatch);
      }
      if w.marker.None? {
        terminal := true;
        return Some(MarkerStatFailed);
      }
      if markerStat.Some? && w.marker != markerStat {
        terminal := true;
        return Some(MarkerChanged);
      }
      return None;
    }

    /** The child's after-fork hook: it closes what it inherited and never unlocks it. */
    method ForgetInheritedOwner() returns (calls: seq<Call>)
      modifies this
      ensures State() == Forgotten(old(State()))
      ensures forall c :: c in calls <==>
              (exists fd: Fd :: c == Close(fd) && (old(pendingFd) == Some(fd) || old(ownerFd) == Some(fd)))
    {
      calls := [];
      if pendingFd.Some? { calls := calls + [Close(pendingFd.value)]; }
      if ownerFd.Some? { calls := calls + [Close(ownerFd.value)]; }
      ownerFd, pendingFd, held, ownerPid := None, None, false, None;
      lockInode, markerStat := None, None;
    }

    /** Only the process that recorded itself as owner unlocks; any other merely closes. */
    method ReleaseWriteOwnerLock(pid: Pid) returns (calls: seq<Call>)
      modifies this
      ensures State() == Released(old(State()))
      ensures old(ownerFd).None? ==> calls == []
      ensures old(ownerFd).Some? ==>
              calls == if old(ownerPid).Some? && old(ownerPid).value != pid
                       then [Close(old(ownerFd).value)]
                       else [Unlock(old(ownerFd).value), Close(old(ownerFd).value)]
    {
      var fd, owner := ownerFd, ownerPid;
      ownerFd, held, ownerPid, lockInode, markerStat := None, false, None, None, None;
      if fd.None? { return []; }
      if owner.Some? && owner.value != pid { return [Close(fd.value)]; }
      return [Unlock(fd.value), Close(fd.value)];
    }

    /** One acquisition from start to end. Success is exactly `Acquirable`. A refusal leaves the
        globals as they were and gives back the descriptor and lock it took, unless the exception
        comes after the publication, which then stands. */
    method TryAcquireWriteOwnerLock(pid: Pid, w: AcquireFacts)
      returns (failure: Option<AcquireFailure>, calls: seq<Call>)
      requires pendingFd.None?
      modifies this
      ensures old(held) ==>
              && calls == [] && State() == AfterRefusal(old(State()), pid, w.recheck)
              && (failure.None? <==> Refusal(old(State()), pid, w.recheck).None?)
      ensures !old(held) ==> failure == FirstObstacle(w) && (failure.None? <==> Acquirable(w))
      ensures !old(held) && Publishes(w) ==>
              && State() == Published(old(State()), w.lockFd.value, pid, w.lockStat.value, w.markerStat.value)
              && calls == [Open(w.lockFd.value), Lock(w.lockFd.value)]
      ensures !old(held) && !Publishes(w) ==>
              && failure.Some? && State() == old(State())
              && calls == (if w.raises.BeforeOpen? || (w.prodLike && !w.rootIsDir) || w.lockFd.None? then []
                           else if !w.flock.Granted? then [Open(w.lockFd.value), Close(w.lockFd.value)]
                           else [Open(w.lockFd.value), Lock(w.lockFd.value)] + Undo(w.lockFd.value)
                                + if w.raises.AfterFlock? then Undo(w.lockFd.value) else [])
    {
      calls := [];
      if held {
        var inv := OwnerInvariantsReason(pid, w.recheck);
        return if inv.Some? then Some(Guard(inv.value)) else None, [];
      }
      if w.raises.BeforeOpen? { return Some(VolumeCheckError), []; }
      if w.prodLike && !w.rootIsDir { return Some(DataDirMissing), []; }
      if w.lockFd.None? { return Some(OpenFailed), []; }
      var fd := w.lockFd.value;
      pendingFd := Some(fd);
      calls := [Open(fd)];
      if !w.flock.Granted? {
        calls := calls + [Close(fd)];
        pendingFd := None;
        return if w.flock.Contended? then Some(LockContended) else Some(LockError), calls;
      }
      calls := calls + [Lock(fd)];
      var undo := calls + Undo(fd);
      if w.raises.AfterFlock? {
        // both the local and the pending descriptor are given back, and they are the same
        pendingFd := None;
        return Some(VolumeCheckError), undo + Undo(fd);
      }
      pendingFd := None;
      if w.prodLike && !w.mountProven { return Some(MountUnproven), undo; }
      if w.prodLike && !w.pinSet { return Some(VolumePinMissing), undo; }
      match w.marker {
        case Absent =>
          if w.prodLike && !w.hasVolumeData { return Some(MarkerAbsentNoData), undo; }
          if !w.bootstrapped { return Some(BootstrapFailed), undo; }
        case Unreadable => return Some(MarkerUnreadable), undo;
        case Corrupt => return Some(MarkerCorrupt), undo;
        case Mismatch => return Some(MarkerMismatch), undo;
        case Valid =>
      }
      if !w.markerAgain.Valid? { return Some(BootstrapVerifyFailed), undo; }
      if w.lockStat.None? || w.markerStat.None? { return Some(VolumeMarkerCheckError), undo; }
      if w.raises.AmongChecks? { return Some(VolumeCheckError), undo; }
      ownerFd := Some(fd);
      held := true;
      ownerPid := Some(pid);
      lockInode := w.lockStat;
      markerStat := w.markerStat;
      return if w.raises.AfterPublication? then Some(VolumeCheckError) else None, calls;
    }
  }
}
