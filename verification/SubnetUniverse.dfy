/**
 Membership of the shared subnet universe: the merge of two sources, one build, the shrink guard
 and what a refresh publishes. Clock readings are parameters of a cycle.
 */
module SubnetUniverse {
  import opened Prelude
  import opened ChainReads

  const ROOT_NETUID := 0
  const MAX_NETUIDS := 200
  const STALE_GRACE_SECONDS := 172800.0

  // ---------------------------------------------------------------- entries and the merge

  datatype Verdict = Yes | No | Unknown

  datatype Validity = Positive | Negative | Unobserved | OtherText

  /** `negative_since`: absent, a readable time, or text that is not a time. */
  datatype Since = Never | At(time: real) | Garbled

  datatype Source = TaoMarketCap | BlockmachineProbe | Registry | OtherSource

  datatype Entry = Entry(validity: Validity, sources: seq<Source>, disputed: bool, since: Since, incomplete: bool)

  const NO_ENTRY := Entry(Unobserved, [], false, Never, false)

  function WithSource(s: seq<Source>, x: Source, add: bool): seq<Source> {
    if add && x !in s then s + [x] else s
  }

  function Merge(prior: Entry, tmc: Verdict, probe: Verdict, stamp: real): Entry
  {
    var sources := WithSource(WithSource(prior.sources, TaoMarketCap, tmc.Yes?), BlockmachineProbe, probe.Yes?);
    var since := if prior.since.Never? then At(stamp) else prior.since;
    if probe.No? && !tmc.No? then Entry(Negative, sources, tmc.Yes?, since, tmc.Unknown?)
    else if tmc.No? && probe.Yes? then Entry(Positive, sources, true, Never, false)
    else if probe.Unknown? && prior.validity.Negative? && !tmc.No? then
      Entry(Negative, sources, prior.disputed, prior.since, true)
    else if tmc.Yes? || probe.Yes? then Entry(Positive, sources, false, Never, false)
    else if tmc.No? && probe.No? then Entry(Negative, sources, false, since, false)
    else if prior.validity.Negative? then Entry(Negative, sources, prior.disputed, prior.since, true)
    else if prior.validity.Positive? || prior.validity.Unobserved? then
      Entry(prior.validity, sources, prior.disputed, Never, true)
    else Entry(Unobserved, sources, prior.disputed, Never, true)
  }

  /** The merge in the chain's order of precedence: a chain verdict decides; without one an earlier
      negative stands, then TaoMarketCap's yes, then what was there. */
  lemma MergeByChain(prior: Entry, tmc: Verdict, probe: Verdict, stamp: real)
    ensures
      var e := Merge(prior, tmc, probe, stamp);
      && e.validity == (match probe
                        case Yes => Positive
                        case No => Negative
                        case Unknown =>
                          if prior.validity.Negative? then Negative
                          else if tmc.Yes? || prior.validity.Positive? then Positive
                          else Unobserved)
      && e.since == (if !e.validity.Negative? then Never
                     else if probe.No? && prior.since.Never? then At(stamp) else prior.since)
  {
  }

  /** Which sources an entry names, when they dispute it, and when it still lacks an observation. */
  lemma MergeTells(prior: Entry, tmc: Verdict, probe: Verdict, stamp: real)
    ensures
      var e := Merge(prior, tmc, probe, stamp);
      && (forall x :: x in e.sources <==>
            x in prior.sources || (x.TaoMarketCap? && tmc.Yes?) || (x.BlockmachineProbe? && probe.Yes?))
      && (!probe.Unknown? ==> (e.disputed <==> !tmc.Unknown? && tmc != probe))
      && (probe.Unknown? ==> (e.disputed <==> prior.disputed && (prior.validity.Negative? || !tmc.Yes?)))
      && (e.incomplete <==>
          if probe.Unknown? then !tmc.Yes? || prior.validity.Negative? else probe.No? && tmc.Unknown?)
  {
  }

  datatype Evidence = Evidence(tmc: Verdict, probe: Verdict, since: Since)

  predicate EligibleForRemoval(n: int, e: Evidence, now: real) {
    n != ROOT_NETUID && e.probe.No? && e.since.At? && now - e.since.time >= STALE_GRACE_SECONDS
  }

  // ---------------------------------------------------------------- snapshots and cycles

  datatype Status = Ok | Degraded | EmergencyRegistry

  type Row = string

  /** The texts a snapshot can carry. */
  datatype Message =
    | Blank | RegistryFallback | EmptySourcesKept | EmptySourcesRegistry | IncompleteKept | ResolvedEmpty
    | RefreshDegraded | RefreshFailed | ShrinkBlocked | Unpinned | OtherMessage(text: string)

  datatype Snapshot = Snapshot(
    netuids: seq<int>, rows: seq<Row>, resolvedAt: Option<real>, status: Status, degraded: bool,
    validity: map<int, Entry>, capReached: bool, incomplete: bool, message: Message, chain: Option<ChainRead>)

  /** Everything one refresh reads: both sources, the registry file, and the clock as it is read
      at the start of the build, at each stamp, at the end and by the shrink guard. */
  datatype Cycle = Cycle(
    now: real, stamps: int -> real, resolvedAt: real, guardNow: real,
    tmc: set<int>, tmcComplete: bool, chain: Option<ChainRead>, registry: set<int>, rowFor: int -> Row)

  ghost predicate ClockOk(c: Cycle) {
    && c.now <= c.guardNow
    && forall n :: c.now <= c.stamps(n) <= c.guardNow
  }

  // ---------------------------------------------------------------- one build

  function Registered(c: Cycle): set<int> {
    if c.chain.Some? then Members(c.chain.value.netuids) else {}
  }

  /** The netuids the registration read reports on. */
  function Probed(prior: set<int>, c: Cycle): set<int>
  {
    if c.chain.None? then {}
    else
      var scan := Members(seq(MAX_NETUIDS, i => i));
      ((if c.tmcComplete then c.tmc + prior + scan else scan) - {ROOT_NETUID}) + Registered(c)
  }

  function ProbeVerdict(prior: set<int>, c: Cycle, n: int): Verdict {
    if n !in Probed(prior, c) then Unknown else if n in Registered(c) then Yes else No
  }

  /** The probe value the merge sees: the chain never speaks about root. */
  function ProbeValue(prior: set<int>, c: Cycle, n: int): Verdict {
    if n == ROOT_NETUID then Unknown else ProbeVerdict(prior, c, n)
  }

  function TmcValue(c: Cycle, n: int): Verdict {
    if !c.tmcComplete then Unknown else if n in c.tmc then Yes else No
  }

  function ObservedMembers(prior: set<int>, c: Cycle): set<int> {
    (set n | n in c.tmc && !ProbeVerdict(prior, c, n).No?) + Registered(c)
  }

  function Candidates(prior: set<int>, c: Cycle): set<int> {
    var seen := ObservedMembers(prior, c);
    prior + seen + (if seen == {} then {} else {ROOT_NETUID})
  }

  function PriorEntry(m: map<int, Entry>, n: int): Entry { if n in m then m[n] else NO_ENTRY }

  function NextEntry(prior: set<int>, m: map<int, Entry>, c: Cycle, n: int): Entry {
    Merge(PriorEntry(m, n), TmcValue(c, n), ProbeValue(prior, c, n), c.stamps(n))
  }

  function EvidenceFor(prior: set<int>, m: map<int, Entry>, c: Cycle, n: int): Evidence {
    Evidence(TmcValue(c, n), ProbeValue(prior, c, n), NextEntry(prior, m, c, n).since)
  }

  predicate Drops(prior: set<int>, m: map<int, Entry>, c: Cycle, n: int) {
    && NextEntry(prior, m, c, n).validity.Negative?
    && EligibleForRemoval(n, EvidenceFor(prior, m, c, n), c.now)
  }

  function ValidityOf(ids: set<int>, prior: set<int>, m: map<int, Entry>, c: Cycle): map<int, Entry> {
    map n | n in ids && !Drops(prior, m, c, n) :: NextEntry(prior, m, c, n)
  }

  function DroppedOf(ids: set<int>, prior: set<int>, m: map<int, Entry>, c: Cycle): map<int, Evidence> {
    map n | n in ids && Drops(prior, m, c, n) :: EvidenceFor(prior, m, c, n)
  }

  function NextValidity(prior: set<int>, m: map<int, Entry>, c: Cycle): map<int, Entry> {
    ValidityOf(Candidates(prior, c), prior, m, c)
  }

  function Dropped(prior: set<int>, m: map<int, Entry>, c: Cycle): map<int, Evidence> {
    DroppedOf(Candidates(prior, c), prior, m, c)
  }

  predicate RefreshIncomplete(c: Cycle, validity: map<int, Entry>) {
    !(c.tmcComplete && c.chain.Some?) ||
    (validity != map[] && forall n :: n in validity ==> validity[n].incomplete)
  }

  /** `_compute_membership`: one pass over the candidates in order fills both dictionaries. */
  method ComputeMembership(prior: set<int>, m: map<int, Entry>, c: Cycle)
    returns (netuids: seq<int>, validity: map<int, Entry>, incomplete: bool, dropped: map<int, Evidence>)
    ensures validity == NextValidity(prior, m, c)
    ensures dropped == Dropped(prior, m, c)
    ensures netuids == SortedSet(validity.Keys)
    ensures incomplete == RefreshIncomplete(c, validity)
  {
    validity, dropped := map[], map[];
    var order := SortedSet(Candidates(prior, c));
    var i := 0;
    while i < |order|
      invariant 0 <= i <= |order|
      invariant validity == ValidityOf(Members(order[..i]), prior, m, c)
      invariant dropped == DroppedOf(Members(order[..i]), prior, m, c)
    {
      var n := order[i];
      var tmc, probe := TmcValue(c, n), ProbeValue(prior, c, n);
      var entry := Merge(PriorEntry(m, n), tmc, probe, c.stamps(n));
      var evidence := Evidence(tmc, probe, entry.since);
      OneMore(Members(order[..i]), prior, m, c, n);
      PrefixMembers(order, i);
      if entry.validity.Negative? && EligibleForRemoval(n, evidence, c.now) {
        dropped := dropped[n := evidence];
      } else {
        validity := validity[n := entry];
      }
      i := i + 1;
    }
    WholePrefix(order);
    SortedSetMembers(Candidates(prior, c));
    netuids := SortedSet(validity.Keys);
    incomplete := RefreshIncomplete(c, validity);
  }

  lemma OneMore(ids: set<int>, prior: set<int>, m: map<int, Entry>, c: Cycle, n: int)
    ensures ValidityOf(ids + {n}, prior, m, c) ==
            if Drops(prior, m, c, n) then ValidityOf(ids, prior, m, c)
            else ValidityOf(ids, prior, m, c)[n := NextEntry(prior, m, c, n)]
    ensures DroppedOf(ids + {n}, prior, m, c) ==
            if Drops(prior, m, c, n) then DroppedOf(ids, prior, m, c)[n := EvidenceFor(prior, m, c, n)]
            else DroppedOf(ids, prior, m, c)
  {
  }

  function RowsFor(c: Cycle, netuids: seq<int>): seq<Row> {
    seq(|netuids|, i requires 0 <= i < |netuids| => c.rowFor(netuids[i]))
  }

  function Emergency(message: Message, c: Cycle): Snapshot
  {
    var ids := c.registry - {ROOT_NETUID};
    var netuids := SortedSet(ids);
    Snapshot(netuids, RowsFor(c, netuids), Some(c.resolvedAt), EmergencyRegistry,
             true, map n | n in ids :: Entry(Unobserved, [Registry], false, Never, false),
             false, netuids == [], if message.Blank? then RegistryFallback else message, None)
  }

  function HoldPrior(s: Snapshot, status: Status, message: Message): Snapshot {
    s.(status := status, degraded := true, incomplete := true, message := message, chain := None)
  }

  datatype Build = Build(snapshot: Snapshot, dropped: map<int, Evidence>)

  /** What a build makes of a membership that came out empty. */
  function SettledEmpty(s: Snapshot, c: Cycle, validity: map<int, Entry>, incomplete: bool,
                        dropped: map<int, Evidence>): Build
  {
    var verified := c.tmc != {} || Probed(Members(s.netuids), c) != {} ||
                    (s.validity != map[] && (c.tmcComplete || c.chain.Some?));
    if !verified then
      if s.netuids != [] then
        var kept := if s.status.EmergencyRegistry? then EmergencyRegistry else Degraded;
        Build(HoldPrior(s, kept, EmptySourcesKept), map[])
      else Build(Emergency(EmptySourcesRegistry, c), map[])
    else if s.netuids != [] && incomplete then
      Build(HoldPrior(s, Degraded, IncompleteKept), map[])
    else
      Build(Snapshot([], [], Some(c.resolvedAt), Degraded, true, validity, false, false,
                     ResolvedEmpty, None), dropped)
  }

  /** `SnapshotBuilder.build` with the production registration read. */
  function BuildFrom(s: Snapshot, c: Cycle): Build
  {
    var prior := Members(s.netuids);
    if !c.tmcComplete && c.chain.None? && s.validity == map[] then Build(Emergency(Blank, c), map[])
    else
      var validity := NextValidity(prior, s.validity, c);
      var dropped := Dropped(prior, s.validity, c);
      var netuids := SortedSet(validity.Keys);
      var incomplete := RefreshIncomplete(c, validity);
      if netuids == [] then SettledEmpty(s, c, validity, incomplete, dropped)
      else
        Build(Snapshot(netuids, RowsFor(c, netuids),
                       Some(c.resolvedAt), if incomplete then Degraded else Ok, incomplete, validity, false,
                       incomplete, if incomplete then RefreshDegraded else Blank, c.chain),
              dropped)
  }

  /** `_shrink_allowed`: every netuid that would leave carries this cycle's evidence. */
  predicate ShrinkAllowed(s: Snapshot, b: Build, now: real) {
    forall n :: n in Members(s.netuids) - Members(b.snapshot.netuids) ==>
      n in b.dropped && EligibleForRemoval(n, b.dropped[n], now)
  }

  /** What `refresh_once` publishes. */
  function Refreshed(s: Snapshot, c: Cycle): Snapshot
  {
    var b := BuildFrom(s, c);
    if b.snapshot.status.EmergencyRegistry? && !s.status.EmergencyRegistry? then
      HoldPrior(s, Degraded, RefreshFailed)
    else if !ShrinkAllowed(s, b, c.guardNow) then HoldPrior(s, Degraded, ShrinkBlocked)
    else b.snapshot
  }

  // ---------------------------------------------------------------- one refresh

  lemma BuildDropsOnlyWithEvidence(s: Snapshot, c: Cycle, n: int)
    requires n in BuildFrom(s, c).dropped
    ensures n in Candidates(Members(s.netuids), c)
    ensures BuildFrom(s, c).dropped[n] == EvidenceFor(Members(s.netuids), s.validity, c, n)
  {
    hide NextValidity, Probed, Emergency, RefreshIncomplete, Drops, Candidates, EvidenceFor;
  }

  lemma ExcludedByChain(prior: set<int>, c: Cycle, n: int)
    requires ProbeValue(prior, c, n).No?
    ensures n != ROOT_NETUID && c.chain.Some? && n !in c.chain.value.netuids
  {
  }

  /** A netuid that leaves does so in a cycle whose own chain read excludes it, at least two days
      (in seconds) after it turned negative; root never leaves. */
  lemma DepartureNeedsEvidence(s: Snapshot, c: Cycle, n: int)
    requires n in s.netuids && n !in Refreshed(s, c).netuids
    ensures n != ROOT_NETUID
    ensures c.chain.Some? && n !in c.chain.value.netuids
    ensures
      var since := NextEntry(Members(s.netuids), s.validity, c, n).since;
      since.At? && c.guardNow - since.time >= 172800.0
  {
    GuardedDeparture(s, c, n);
    BuildDropsOnlyWithEvidence(s, c, n);
    ExcludedByChain(Members(s.netuids), c, n);
  }

  lemma GuardedDeparture(s: Snapshot, c: Cycle, n: int)
    requires n in s.netuids && n !in Refreshed(s, c).netuids
    ensures n in BuildFrom(s, c).dropped && EligibleForRemoval(n, BuildFrom(s, c).dropped[n], c.guardNow)
  {
    var b := BuildFrom(s, c);
    assert Refreshed(s, c) == b.snapshot;
    assert n in Members(s.netuids) - Members(b.snapshot.netuids);
  }

  /** Emergency snapshots list every netuid in their validity map. */
  predicate EmergencyIsMapped(s: Snapshot) {
    s.status.EmergencyRegistry? ==> forall n :: n in s.netuids ==> n in s.validity
  }

  lemma SortedKeys(m: map<int, Entry>)
    ensures Members(SortedSet(m.Keys)) == m.Keys
    ensures SortedSet(m.Keys) == [] <==> m == map[]
  {
  }

  /** A candidate either stays or is dropped, and then with evidence that a later clock still accepts. */
  lemma StaysOrDrops(prior: set<int>, m: map<int, Entry>, c: Cycle, n: int)
    requires n in prior && c.now <= c.guardNow
    ensures n in NextValidity(prior, m, c) <==> n !in Dropped(prior, m, c)
    ensures n in Dropped(prior, m, c) ==> EligibleForRemoval(n, Dropped(prior, m, c)[n], c.guardNow)
  {
  }

  /** With a clock that does not run backwards, a build never drops a netuid without evidence that
      still satisfies the shrink guard, on any of its return paths. */
  lemma ShrinkGuardNeverBlocks(s: Snapshot, c: Cycle)
    requires c.now <= c.guardNow && EmergencyIsMapped(s)
    ensures
      var b := BuildFrom(s, c);
      ShrinkAllowed(s, b, c.guardNow) || (b.snapshot.status.EmergencyRegistry? && !s.status.EmergencyRegistry?)
  {
    hide NextValidity, Dropped, Probed, EligibleForRemoval, RefreshIncomplete;
    var b := BuildFrom(s, c);
    var prior := Members(s.netuids);
    SortedKeys(NextValidity(prior, s.validity, c));
    forall n | n in prior - Members(b.snapshot.netuids) &&
               !(b.snapshot.status.EmergencyRegistry? && !s.status.EmergencyRegistry?)
      ensures n in b.dropped && EligibleForRemoval(n, b.dropped[n], c.guardNow)
    {
      StaysOrDrops(prior, s.validity, c, n);
      EmptyMembers(s.netuids);
    }
  }
}
