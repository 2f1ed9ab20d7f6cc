/**
 The universe provider: building, publishing, persisting and reloading a snapshot. The disk file
 is shared with other providers, which may replace it between any two calls.
 */
module UniverseProvider {
  import opened Prelude
  import opened ChainReads
  import opened SubnetUniverse

  // ---------------------------------------------------------------- persistence format

  /** A persisted snapshot; a missing or empty status is None. */
  datatype Payload = Payload(
    netuids: seq<int>, rows: seq<Row>, resolvedAt: Option<real>, status: Option<Status>, degraded: bool,
    validity: map<int, Entry>, capReached: bool, incomplete: bool, message: Message, chain: Raw)

  function ToPayload(s: Snapshot): Payload
  {
    Payload(s.netuids, s.rows, s.resolvedAt, Some(s.status), s.degraded, s.validity, s.capReached, s.incomplete,
            s.message, if s.chain.Some? then ToDict(s.chain.value) else NotADict)
  }

  function FromPayload(p: Payload): Snapshot
  {
    var chain := Parse(p.chain, true);
    var status := if p.status.Some? then p.status.value else Ok;
    var unbacked := status.Ok? && chain.None?;
    Snapshot(SortInts(p.netuids), p.rows, p.resolvedAt,
             if unbacked then Degraded else status, p.degraded || unbacked, p.validity, p.capReached, p.incomplete,
             if unbacked && p.message.Blank? then Unpinned else p.message,
             chain)
  }

  lemma AscendingIsSortFixpoint(s: seq<int>)
    ensures SortInts(s) == s <==> Ascending(s)
  {
    SortIntsAscends(s);
    if Ascending(s) { SortIntsFixesSorted(s); }
  }

  /** A snapshot survives persistence exactly when its netuids are in order, any chain read it
      carries is admissible, and it claims "ok" only with one. */
  lemma PersistRoundTripIff(s: Snapshot)
    ensures FromPayload(ToPayload(s)) == s <==>
            && Ascending(s.netuids)
            && (s.chain.Some? ==> Admissible(s.chain.value))
            && (s.status.Ok? ==> s.chain.Some?)
  {
    AscendingIsSortFixpoint(s.netuids);
    if s.chain.Some? { ParseRoundTripIff(s.chain.value); }
  }

  /** Whatever the file holds, a reloaded "ok" is backed by a full pin and no netuid is lost. */
  lemma ReloadedOkIsPinned(p: Payload)
    ensures FromPayload(p).status.Ok? ==>
            FromPayload(p).chain.Some? && Admissible(FromPayload(p).chain.value)
    ensures multiset(FromPayload(p).netuids) == multiset(p.netuids) && Ascending(FromPayload(p).netuids)
  {
    ParsedIsAdmissible(p.chain);
    SortIntsAscends(p.netuids);
  }

  // ---------------------------------------------------------------- the build as a method

  /** `SnapshotBuilder.build`, early returns and all. */
  method BuildSnapshot(s: Snapshot, c: Cycle) returns (b: Build)
    ensures b == BuildFrom(s, c)
  {
    hide NextValidity, Dropped, Emergency, SettledEmpty, RefreshIncomplete, RowsFor, SortedSet, Members;
    var prior := Members(s.netuids);
    if !c.tmcComplete && c.chain.None? && s.validity == map[] {
      return Build(Emergency(Blank, c), map[]);
    }
    var netuids, validity, incomplete, dropped := ComputeMembership(prior, s.validity, c);
    if netuids == [] {
      b := BuildEmpty(s, c, validity, incomplete, dropped);
      return;
    }
    return Build(Snapshot(netuids, RowsFor(c, netuids), Some(c.resolvedAt), if incomplete then Degraded else Ok,
                          incomplete, validity, false, incomplete,
                          if incomplete then RefreshDegraded else Blank, c.chain), dropped);
  }

  method BuildEmpty(s: Snapshot, c: Cycle, validity: map<int, Entry>, incomplete: bool, dropped: map<int, Evidence>)
    returns (b: Build)
    ensures b == SettledEmpty(s, c, validity, incomplete, dropped)
  {
    hide Probed, Emergency, HoldPrior;
    var verified := c.tmc != {} || Probed(Members(s.netuids), c) != {} ||
                    (s.validity != map[] && (c.tmcComplete || c.chain.Some?));
    if !verified {
      if s.netuids != [] {
        var kept := if s.status.EmergencyRegistry? then EmergencyRegistry else Degraded;
        return Build(HoldPrior(s, kept, EmptySourcesKept), map[]);
      }
      return Build(Emergency(EmptySourcesRegistry, c), map[]);
    }
    if s.netuids != [] && incomplete {
      return Build(HoldPrior(s, Degraded, IncompleteKept), map[]);
    }
    return Build(Snapshot([], [], Some(c.resolvedAt), Degraded, true, validity, false, false,
                          ResolvedEmpty, None), dropped);
  }

  // ---------------------------------------------------------------- provider and disk

  /** The persisted file: its content, None while it is absent or unreadable, and its mtime. */
  class Disk {
    var content: Option<Payload>
    var mtime: nat

    constructor ()
      ensures content == None && mtime == 0
    {
      content, mtime := None, 0;
    }
  }

  datatype Store = Store(snapshot: Snapshot, diskMtime: nat, content: Option<Payload>, mtime: nat)

  /** A file worth loading: `payload.get("netuids")` is truthy. */
  predicate Loadable(content: Option<Payload>) { content.Some? && content.value.netuids != [] }

  /** How persisting goes: it fails before the file is replaced, or replaces it and then may fail
      to read back the mtime the file system gave it. */
  datatype Write = WriteFails | Replaces(mtime: nat, noted: bool)

  function AfterPersist(w: Store, s: Snapshot, wrote: Write): Store
  {
    if s.status.EmergencyRegistry? || wrote.WriteFails? then w
    else w.(content := Some(ToPayload(s)), mtime := wrote.mtime,
            diskMtime := if wrote.noted then wrote.mtime else w.diskMtime)
  }

  function AfterRefresh(w: Store, c: Cycle, wrote: Write): Store
  {
    var s := Refreshed(w.snapshot, c);
    AfterPersist(w.(snapshot := s), s, wrote)
  }

  function AfterReload(w: Store): Store
  {
    if w.content.None? || w.mtime <= w.diskMtime || !Loadable(w.content) then w
    else w.(snapshot := FromPayload(w.content.value), diskMtime := w.mtime)
  }

  function Initial(c: Cycle, content: Option<Payload>, mtime: nat): Store
  {
    Store(if Loadable(content) then FromPayload(content.value) else Emergency(Blank, c),
          if content.Some? then mtime else 0, content, mtime)
  }

  class Provider {
    const disk: Disk
    var snapshot: Snapshot
    var diskMtime: nat

    function View(): Store
      reads this, disk
    {
      Store(snapshot, diskMtime, disk.content, disk.mtime)
    }

    constructor (d: Disk, c: Cycle)
      ensures disk == d && View() == Initial(c, d.content, d.mtime)
    {
      disk := d;
      diskMtime := if d.content.Some? then d.mtime else 0;
      snapshot := if Loadable(d.content) then FromPayload(d.content.value) else Emergency(Blank, c);
    }

    method AtomicPersist(s: Snapshot, wrote: Write)
      modifies this`diskMtime, disk
      ensures View() == AfterPersist(old(View()), s, wrote)
    {
      if s.status.EmergencyRegistry? { return; }
      if wrote.Replaces? {
        disk.content := Some(ToPayload(s));
        disk.mtime := wrote.mtime;
        if wrote.noted { diskMtime := disk.mtime; }
      }
    }

    method RefreshOnce(c: Cycle, wrote: Write)
      modifies this, disk
      ensures View() == AfterRefresh(old(View()), c, wrote)
    {
      var b := BuildSnapshot(snapshot, c);
      var built := b.snapshot;
      if built.status.EmergencyRegistry? && !snapshot.status.EmergencyRegistry? {
        built := HoldPrior(snapshot, Degraded, RefreshFailed);
      } else if !ShrinkAllowed(snapshot, b, c.guardNow) {
        built := HoldPrior(snapshot, Degraded, ShrinkBlocked);
      }
      snapshot := built;
      AtomicPersist(built, wrote);
    }

    method ReloadFromDiskIfStale()
      modifies this
      ensures View() == AfterReload(old(View()))
    {
      if disk.content.None? { return; }
      if disk.mtime <= diskMtime { return; }
      if disk.content.value.netuids == [] { return; }
      diskMtime := disk.mtime;
      snapshot := FromPayload(disk.content.value);
    }
  }

  // ---------------------------------------------------------------- runs of one provider

  /** A refresh, a reload, or another provider persisting one of its snapshots. */
  datatype Action = Refresh(c: Cycle, wrote: Write) | Reload | OtherWrites(s: Snapshot, at: nat)

  predicate Allowed(a: Action) {
    a.OtherWrites? ==> !a.s.status.EmergencyRegistry?
  }

  function After(w: Store, a: Action): Store
  {
    match a
    case Refresh(c, wrote) => AfterRefresh(w, c, wrote)
    case Reload => AfterReload(w)
    case OtherWrites(s, at) => w.(content := Some(ToPayload(s)), mtime := at)
  }

  ghost predicate StepAt(w: seq<Store>, acts: seq<Action>, i: int) {
    0 <= i < |acts| && i + 1 < |w| && Allowed(acts[i]) && w[i + 1] == After(w[i], acts[i])
  }

  ghost predicate IsRun(w: seq<Store>, acts: seq<Action>) {
    |w| == |acts| + 1 && forall i :: 0 <= i < |acts| ==> StepAt(w, acts, i)
  }

  predicate FileIsNotEmergency(w: Store) {
    w.content.Some? ==> w.content.value.status != Some(EmergencyRegistry)
  }

  /** A refresh turns no usable universe into the registry fallback. */
  lemma RefreshNeverFallsBack(s: Snapshot, c: Cycle)
    requires !s.status.EmergencyRegistry?
    ensures !Refreshed(s, c).status.EmergencyRegistry?
  {
  }

  lemma StepNeverFallsBack(w: Store, a: Action)
    requires Allowed(a) && FileIsNotEmergency(w)
    ensures FileIsNotEmergency(After(w, a))
    ensures !w.snapshot.status.EmergencyRegistry? ==> !After(w, a).snapshot.status.EmergencyRegistry?
  {
    hide Refreshed;
    if a.Refresh? && !w.snapshot.status.EmergencyRegistry? { RefreshNeverFallsBack(w.snapshot, a.c); }
  }

  lemma StepAtNeverFallsBack(w: seq<Store>, acts: seq<Action>, k: nat)
    requires IsRun(w, acts) && k < |acts| && FileIsNotEmergency(w[k])
    ensures FileIsNotEmergency(w[k + 1])
    ensures !w[k].snapshot.status.EmergencyRegistry? ==> !w[k + 1].snapshot.status.EmergencyRegistry?
  {
    hide After;
    assert StepAt(w, acts, k);
    StepNeverFallsBack(w[k], acts[k]);
  }

  /** Whatever refreshes, reloads and foreign writes follow, the file never holds an emergency
      snapshot, and a provider that has left the fallback never returns to it. */
  lemma {:induction false} NeverBackToEmergency(w: seq<Store>, acts: seq<Action>, i: nat, j: nat)
    requires IsRun(w, acts) && i <= j <= |acts| && FileIsNotEmergency(w[i])
    ensures FileIsNotEmergency(w[j])
    ensures !w[i].snapshot.status.EmergencyRegistry? ==> !w[j].snapshot.status.EmergencyRegistry?
    decreases j
  {
    if i < j {
      NeverBackToEmergency(w, acts, i, j - 1);
      StepAtNeverFallsBack(w, acts, j - 1);
    }
  }

  // ---------------------------------------------------------------- reloading

  /** What a provider holds of another's snapshot once it has read it back. */
  lemma ReloadTakesUpNewerFile(w: Store, s: Snapshot, at: nat)
    requires at > w.diskMtime && s.netuids != []
    ensures
      var t := After(After(w, OtherWrites(s, at)), Reload);
      && multiset(t.snapshot.netuids) == multiset(s.netuids) && Ascending(t.snapshot.netuids)
      && t.snapshot.validity == s.validity && t.snapshot.rows == s.rows && t.diskMtime == at
      && (t.snapshot == s <==>
          Ascending(s.netuids) && (s.chain.Some? ==> Admissible(s.chain.value)) && (s.status.Ok? ==> s.chain.Some?))
  {
    SortIntsAscends(s.netuids);
    PersistRoundTripIff(s);
  }

  /** The last of any foreign writes before a reload is what the reload finds. */
  lemma {:induction false} ForeignWritesStay(w: seq<Store>, acts: seq<Action>, i: nat, j: nat)
    requires IsRun(w, acts) && i < j <= |acts| && acts[i].OtherWrites?
    requires forall k :: i < k < j ==> acts[k].Refresh? && acts[k].wrote.WriteFails?
    ensures w[j].content == Some(ToPayload(acts[i].s)) && w[j].mtime == acts[i].at && w[j].diskMtime == w[i].diskMtime
    decreases j
  {
    hide Refreshed;
    assert StepAt(w, acts, j - 1);
    if i < j - 1 { ForeignWritesStay(w, acts, i, j - 1); }
  }

  /** Over runs: a newer file that another provider wrote is taken up by the next reload, whatever
      refreshes without a write came between. */
  lemma NextReloadTakesItUp(w: seq<Store>, acts: seq<Action>, i: nat, j: nat)
    requires IsRun(w, acts) && i < j < |acts| && acts[i].OtherWrites? && acts[j].Reload?
    requires forall k :: i < k < j ==> acts[k].Refresh? && acts[k].wrote.WriteFails?
    requires acts[i].at > w[i].diskMtime && acts[i].s.netuids != []
    ensures
      var s, t := acts[i].s, w[j + 1];
      && multiset(t.snapshot.netuids) == multiset(s.netuids) && t.snapshot.validity == s.validity
      && t.diskMtime == acts[i].at
  {
    hide Refreshed;
    ForeignWritesStay(w, acts, i, j);
    assert StepAt(w, acts, j);
    ReloadTakesUpNewerFile(w[i], acts[i].s, acts[i].at);
  }

  /** A reload changes something exactly if the file is there, newer than noted and not empty; then it
      is the file that is held and noted. A second reload changes nothing. */
  lemma ReloadIff(w: Store)
    ensures After(w, Reload) != w <==> w.content.Some? && w.mtime > w.diskMtime && w.content.value.netuids != []
    ensures After(w, Reload) != w ==>
              After(w, Reload) == w.(snapshot := FromPayload(w.content.value), diskMtime := w.mtime)
    ensures After(After(w, Reload), Reload) == After(w, Reload)
  {
  }

  /** A provider does not read back what it has written and noted itself. */
  lemma OwnWriteIsNotReloaded(w: Store, c: Cycle, mtime: nat)
    ensures
      var t := After(w, Refresh(c, Replaces(mtime, true)));
      !t.snapshot.status.EmergencyRegistry? ==> t.diskMtime == t.mtime == mtime && After(t, Reload) == t
  {
    hide Refreshed;
  }

  /** A start from a usable file holds it and has noted it. */
  lemma StartIsNoted(c: Cycle, content: Option<Payload>, mtime: nat)
    ensures
      var w := Initial(c, content, mtime);
      && (Loadable(content) ==> w.snapshot == FromPayload(content.value))
      && (!Loadable(content) ==> w.snapshot.status.EmergencyRegistry?) && After(w, Reload) == w
  {
  }

  /** What a provider may publish as "ok" or as emergency. */
  predicate WellFounded(s: Snapshot) {
    && (s.status.Ok? ==> s.chain.Some?)
    && EmergencyIsMapped(s)
  }

  lemma EmergencyMapsItsNetuids(message: Message, c: Cycle)
    ensures WellFounded(Emergency(message, c))
  {
  }

  lemma BuildIsWellFounded(s: Snapshot, c: Cycle)
    requires WellFounded(s)
    ensures WellFounded(BuildFrom(s, c).snapshot)
  {
    hide NextValidity, Dropped, Probed, Emergency, Merge, Members;
    EmergencyMapsItsNetuids(Blank, c);
    EmergencyMapsItsNetuids(EmptySourcesRegistry, c);
    SortedKeys(NextValidity(Members(s.netuids), s.validity, c));
  }

  lemma RefreshIsWellFounded(s: Snapshot, c: Cycle)
    requires WellFounded(s)
    ensures WellFounded(Refreshed(s, c))
  {
    hide BuildFrom, ShrinkAllowed;
    BuildIsWellFounded(s, c);
  }

  lemma StepKeepsWellFounded(w: Store, a: Action)
    requires Allowed(a) && FileIsNotEmergency(w) && WellFounded(w.snapshot)
    ensures WellFounded(After(w, a).snapshot)
  {
    hide Refreshed;
    if a.Refresh? { RefreshIsWellFounded(w.snapshot, a.c); }
  }

  lemma StepAtKeepsWellFounded(w: seq<Store>, acts: seq<Action>, k: nat)
    requires IsRun(w, acts) && k < |acts| && FileIsNotEmergency(w[k]) && WellFounded(w[k].snapshot)
    ensures WellFounded(w[k + 1].snapshot)
  {
    hide After;
    assert StepAt(w, acts, k);
    StepKeepsWellFounded(w[k], acts[k]);
  }

  lemma {:induction false} RunsStayWellFounded(w: seq<Store>, acts: seq<Action>, j: nat)
    requires IsRun(w, acts) && j <= |acts| && FileIsNotEmergency(w[0]) && WellFounded(w[0].snapshot)
    ensures WellFounded(w[j].snapshot)
  {
    if j > 0 {
      RunsStayWellFounded(w, acts, j - 1);
      NeverBackToEmergency(w, acts, 0, j - 1);
      StepAtKeepsWellFounded(w, acts, j - 1);
    }
  }

  /** From any start a provider can have, no refresh of any run is ever cut back by the shrink
      guard: every netuid a build leaves out carries evidence, or the build was an emergency one
      that is replaced anyway. */
  lemma GuardNeverCutsARefresh(c0: Cycle, content: Option<Payload>, mtime: nat, w: seq<Store>, acts: seq<Action>,
                               j: nat)
    requires IsRun(w, acts) && w[0] == Initial(c0, content, mtime)
    requires content.Some? ==> content.value.status != Some(EmergencyRegistry)
    requires j < |acts| && acts[j].Refresh? && acts[j].c.now <= acts[j].c.guardNow
    ensures
      var s, c := w[j].snapshot, acts[j].c;
      var b := BuildFrom(s, c);
      || ShrinkAllowed(s, b, c.guardNow)
      || (b.snapshot.status.EmergencyRegistry? && !s.status.EmergencyRegistry?)
  {
    hide BuildFrom, ShrinkAllowed, After;
    EmergencyMapsItsNetuids(Blank, c0);
    RunsStayWellFounded(w, acts, j);
    ShrinkGuardNeverBlocks(w[j].snapshot, acts[j].c);
  }
}
