/** Whole runs of refreshes: what the chain reads of a run say about every member, and which of them count. */
module UniverseHistory {
  import opened Prelude
  import opened SubnetUniverse

  /** Cycle `i` reads its clock in order and publishes what its refresh makes of snapshot `i`. */
  ghost predicate StepAt(snaps: seq<Snapshot>, cycles: seq<Cycle>, i: int) {
    && 0 <= i < |cycles| && i + 1 < |snaps|
    && ClockOk(cycles[i]) && snaps[i + 1] == Refreshed(snaps[i], cycles[i])
  }

  ghost predicate IsRun(snaps: seq<Snapshot>, cycles: seq<Cycle>) {
    && |snaps| == |cycles| + 1
    && (forall i :: 0 <= i < |cycles| ==> StepAt(snaps, cycles, i))
    && (forall i, j :: 0 <= i < j < |cycles| ==> cycles[i].guardNow <= cycles[j].now)
  }

  predicate Unresolvable(s: Snapshot, c: Cycle) { !c.tmcComplete && c.chain.None? && s.validity == map[] }

  function NextMap(s: Snapshot, c: Cycle): map<int, Entry> { NextValidity(Members(s.netuids), s.validity, c) }

  /** The refresh resolves a membership of its own, instead of retaining one, publishing an empty
      one or falling back to the registry. */
  predicate Effective(s: Snapshot, c: Cycle) { !Unresolvable(s, c) && NextMap(s, c) != map[] }

  lemma NormalBuild(s: Snapshot, c: Cycle)
    requires Effective(s, c)
    ensures
      var b := BuildFrom(s, c);
      && b.snapshot.validity == NextMap(s, c) && Members(b.snapshot.netuids) == NextMap(s, c).Keys
      && !b.snapshot.status.EmergencyRegistry? && b.dropped == Dropped(Members(s.netuids), s.validity, c)
  {
    SortedKeys(NextMap(s, c));
  }

  /** An effective refresh is published: the shrink guard has nothing to object to. */
  lemma EffectivePublishes(s: Snapshot, c: Cycle)
    requires Effective(s, c) && c.now <= c.guardNow
    ensures Refreshed(s, c) == BuildFrom(s, c).snapshot
    ensures Refreshed(s, c).validity == NextMap(s, c)
    ensures Members(Refreshed(s, c).netuids) == NextMap(s, c).Keys
  {
    hide BuildFrom, NextValidity, Dropped, EligibleForRemoval;
    NormalBuild(s, c);
    var b := BuildFrom(s, c);
    forall n | n in Members(s.netuids) - Members(b.snapshot.netuids)
      ensures n in b.dropped && EligibleForRemoval(n, b.dropped[n], c.guardNow)
    {
      StaysOrDrops(Members(s.netuids), s.validity, c, n);
    }
  }

  lemma IneffectiveKeepsMap(s: Snapshot, c: Cycle, n: int)
    requires !Effective(s, c) && n in s.validity && n in Refreshed(s, c).netuids && n in s.netuids
    ensures Refreshed(s, c).validity == s.validity
  {
    hide NextValidity, Dropped, Probed, EligibleForRemoval, BuildFrom;
    assert s.validity != map[] && NextMap(s, c) == map[];
    SortedKeys(NextMap(s, c));
    EmptyBuild(s, c);
  }

  lemma EmptyBuild(s: Snapshot, c: Cycle)
    requires !Unresolvable(s, c) && NextMap(s, c) == map[] && s.netuids != []
    ensures
      var b := BuildFrom(s, c).snapshot;
      b.netuids == [] || (b.netuids == s.netuids && b.validity == s.validity)
  {
    hide NextValidity, Dropped, Probed, RefreshIncomplete, Emergency;
    SortedKeys(NextMap(s, c));
  }

  // ---------------------------------------------------------------- what a refresh publishes

  /** The refresh keeps what was published before. */
  predicate Retains(t: Snapshot, s: Snapshot) {
    && t.netuids == s.netuids && t.rows == s.rows && t.validity == s.validity && t.resolvedAt == s.resolvedAt
    && t.degraded && t.incomplete && t.chain.None? && !t.status.Ok?
  }

  /** Or it publishes netuids in order, each with its row, and as valid as it says. */
  predicate PublishesAnew(t: Snapshot, c: Cycle) {
    && StrictlyAscending(t.netuids) && |t.rows| == |t.netuids| && t.resolvedAt == Some(c.resolvedAt)
    && (forall i :: 0 <= i < |t.netuids| ==> t.rows[i] == c.rowFor(t.netuids[i]))
    && (t.degraded <==> !t.status.Ok?) && (t.status.Ok? ==> t.chain.Some? && t.chain == c.chain && !t.incomplete)
  }

  lemma RefreshTells(s: Snapshot, c: Cycle)
    ensures Retains(Refreshed(s, c), s) || PublishesAnew(Refreshed(s, c), c)
  {
    BuildTells(s, c);
    hide BuildFrom, PublishesAnew, ShrinkAllowed;
  }

  lemma BuildTells(s: Snapshot, c: Cycle)
    ensures Retains(BuildFrom(s, c).snapshot, s) || PublishesAnew(BuildFrom(s, c).snapshot, c)
  {
    EmergencyIsAnew(Blank, c);
    EmergencyIsAnew(EmptySourcesRegistry, c);
    hide NextValidity, Dropped, Probed, Emergency, Registered;
  }

  lemma EmergencyIsAnew(message: Message, c: Cycle)
    ensures PublishesAnew(Emergency(message, c), c)
  {
  }

  /** A build that resolves a membership is "ok" exactly when both sources were complete and some entry
      has been observed in full. */
  lemma OkIffComplete(s: Snapshot, c: Cycle)
    requires c.now <= c.guardNow && Effective(s, c)
    ensures Refreshed(s, c).status.Ok? <==>
            c.tmcComplete && c.chain.Some? &&
            exists n :: n in Refreshed(s, c).validity && !Refreshed(s, c).validity[n].incomplete
    ensures Refreshed(s, c).status.Ok? || Refreshed(s, c).status.Degraded?
  {
    EffectivePublishes(s, c);
    SortedKeys(NextMap(s, c));
    hide NextValidity, Dropped, Probed, Refreshed;
  }

  /** For chain reads that name a subnet that is: exactly when both sources were complete. */
  lemma OkIff(s: Snapshot, c: Cycle)
    requires ClockOk(c) && NamesSubnet(c)
    ensures Refreshed(s, c).status.Ok? <==> c.tmcComplete && c.chain.Some?
  {
    if c.chain.Some? {
      var m :| m in c.chain.value.netuids && m != ROOT_NETUID;
      ListedIsEffective(s, c, m);
      OkIffComplete(s, c);
      EffectivePublishes(s, c);
      ListedIsComplete(s, c, m);
      hide Refreshed;
    } else if Effective(s, c) {
      OkIffComplete(s, c);
      hide Refreshed;
    } else {
      IneffectiveIsNotOk(s, c);
    }
  }

  lemma ListedIsComplete(s: Snapshot, c: Cycle, m: int)
    requires ListedBy(c, m) && m in NextMap(s, c)
    ensures !NextMap(s, c)[m].incomplete
  {
    ListedIsProbed(s, c, m);
    MergeTells(PriorEntry(s.validity, m), TmcValue(c, m), ProbeValue(Members(s.netuids), c, m), c.stamps(m));
    hide Merge;
  }

  lemma IneffectiveIsNotOk(s: Snapshot, c: Cycle)
    requires !Effective(s, c)
    ensures !Refreshed(s, c).status.Ok?
  {
    SortedKeys(NextMap(s, c));
    hide NextValidity, Dropped, Probed, EligibleForRemoval, RefreshIncomplete, ShrinkAllowed;
  }

  /** A universe with members is emptied only by a refresh with both sources complete, whose chain read
      names no subnet. */
  lemma OnlyFullReadsEmpty(s: Snapshot, c: Cycle)
    requires s.netuids != [] && Refreshed(s, c).netuids == []
    ensures c.tmcComplete && c.chain.Some? && !NamesSubnet(c) && Refreshed(s, c).status.Degraded?
  {
    DepartureNeedsEvidence(s, c, s.netuids[0]);
    EmptiedBySettling(s, c);
    if NamesSubnet(c) { NamedStays(s, c); }
    hide BuildFrom, NextValidity;
  }

  lemma NamedStays(s: Snapshot, c: Cycle)
    requires c.chain.Some? && NamesSubnet(c)
    ensures NextMap(s, c) != map[]
  {
    var m :| m in c.chain.value.netuids && m != ROOT_NETUID;
    ListedIsProbed(s, c, m);
    assert m in NextMap(s, c);
  }

  lemma EmptiedBySettling(s: Snapshot, c: Cycle)
    requires s.netuids != [] && c.chain.Some?
    ensures BuildFrom(s, c).snapshot.netuids == [] ==>
              c.tmcComplete && NextMap(s, c) == map[] && BuildFrom(s, c).snapshot.status.Degraded?
  {
    SortedKeys(NextMap(s, c));
    hide NextValidity, Dropped, Probed, Emergency;
  }

  /** For chain reads that name a subnet: a refresh falls back to the registry exactly when the fallback
      is what is held, the chain is silent, no member would be lost, and either TaoMarketCap is cut short
      with nothing on record, or there is no member and it reports none. The registry's netuids are then
      published as unobserved. */
  lemma FallbackIff(s: Snapshot, c: Cycle)
    requires NamesSubnet(c)
    ensures Refreshed(s, c).status.EmergencyRegistry? <==>
            && s.status.EmergencyRegistry? && c.chain.None?
            && (forall n :: n in s.netuids ==> n in c.registry && n != ROOT_NETUID)
            && ((!c.tmcComplete && s.validity == map[]) ||
                (s.netuids == [] && c.tmc == {} && (s.validity == map[] || !c.tmcComplete)))
    ensures Refreshed(s, c).status.EmergencyRegistry? ==>
              var t := Refreshed(s, c);
              && Members(t.netuids) == c.registry - {ROOT_NETUID} && t.validity.Keys == Members(t.netuids)
              && (forall n :: n in t.validity ==> t.validity[n].validity.Unobserved? && t.validity[n].since.Never?)
              && (t.incomplete <==> t.netuids == [])
  {
    EmergencyBuildIff(s, c);
    EmergencyLists(Blank, c);
    EmergencyLists(EmptySourcesRegistry, c);
    var b := BuildFrom(s, c);
    hide BuildFrom, Emergency, NamesSubnet;
    if b.snapshot.status.EmergencyRegistry? {
      ShrinkWithoutEvidence(s, b, c.guardNow);
    }
    hide ShrinkAllowed, Members;
  }

  lemma ShrinkWithoutEvidence(s: Snapshot, b: Build, now: real)
    requires b.dropped == map[]
    ensures ShrinkAllowed(s, b, now) <==> forall n :: n in s.netuids ==> n in Members(b.snapshot.netuids)
  {
    hide EligibleForRemoval;
    forall n ensures n in Members(s.netuids) - Members(b.snapshot.netuids) <==>
                     n in s.netuids && n !in Members(b.snapshot.netuids) {
    }
  }

  lemma EmergencyLists(message: Message, c: Cycle)
    ensures
      var t := Emergency(message, c);
      && Members(t.netuids) == c.registry - {ROOT_NETUID} && t.validity.Keys == Members(t.netuids)
      && (forall n :: n in t.validity ==> t.validity[n].validity.Unobserved? && t.validity[n].since.Never?)
      && (t.incomplete <==> t.netuids == []) && t.status.EmergencyRegistry?
  {
    SortedSetMembers(c.registry - {ROOT_NETUID});
  }

  lemma EmergencyBuildIff(s: Snapshot, c: Cycle)
    requires NamesSubnet(c)
    ensures BuildFrom(s, c).snapshot.status.EmergencyRegistry? <==>
            && c.chain.None?
            && ((!c.tmcComplete && s.validity == map[]) ||
                (s.netuids == [] && c.tmc == {} && (s.validity == map[] || !c.tmcComplete)))
    ensures BuildFrom(s, c).snapshot.status.EmergencyRegistry? ==>
              BuildFrom(s, c) in {Build(Emergency(Blank, c), map[]), Build(Emergency(EmptySourcesRegistry, c), map[])}
  {
    SortedKeys(NextMap(s, c));
    if c.chain.Some? {
      NamedStays(s, c);
    } else {
      SilentChainDropsNothing(s, c);
    }
    hide NextValidity, Dropped, Probed, RefreshIncomplete;
  }

  /** Without a chain read nothing is dropped, so only an empty universe comes out empty. */
  lemma SilentChainDropsNothing(s: Snapshot, c: Cycle)
    requires c.chain.None?
    ensures NextMap(s, c).Keys == Candidates(Members(s.netuids), c) && Probed(Members(s.netuids), c) == {}
    ensures NextMap(s, c) == map[] <==> s.netuids == [] && c.tmc == {}
  {
    var prior := Members(s.netuids);
    assert forall n :: ProbeValue(prior, c, n).Unknown?;
    assert NextMap(s, c) == map[] <==> NextMap(s, c).Keys == {};
    if s.netuids != [] { assert s.netuids[0] in Candidates(prior, c); }
    if n :| n in c.tmc { assert n in Candidates(prior, c); }
  }

  /** A netuid that was no member becomes one exactly when a chain read lists it, or TaoMarketCap reports
      it and no chain read that was asked about it leaves it out. */
  lemma NewcomerIff(s: Snapshot, c: Cycle, n: int)
    requires ClockOk(c) && Effective(s, c) && n != ROOT_NETUID && n !in s.netuids && n !in s.validity
    ensures n in Refreshed(s, c).netuids <==>
            ReadVerdict(c, n).Yes? || (n in c.tmc && !(ReadVerdict(c, n).No? && Covers(c, n)))
  {
    EffectivePublishes(s, c);
    NewcomerInMap(s, c, n);
    hide Refreshed;
    assert n in Refreshed(s, c).netuids <==> n in Members(Refreshed(s, c).netuids);
  }

  lemma NewcomerInMap(s: Snapshot, c: Cycle, n: int)
    requires n != ROOT_NETUID && n !in s.netuids && n !in s.validity
    ensures n in NextMap(s, c) <==> ReadVerdict(c, n).Yes? || (n in c.tmc && !(ReadVerdict(c, n).No? && Covers(c, n)))
  {
    var prior := Members(s.netuids);
    assert n in Members(seq(MAX_NETUIDS, i => i)) <==> 0 <= n < MAX_NETUIDS by {
      if 0 <= n < MAX_NETUIDS { assert seq(MAX_NETUIDS, i => i)[n] == n; }
    }
    if n in Candidates(prior, c) { ProbeIsHeard(prior, c, n); }
    MergeByChain(NO_ENTRY, TmcValue(c, n), ProbeValue(prior, c, n), c.stamps(n));
    hide Merge;
  }

  /** Root joins a universe that observes any other member. */
  lemma RootJoins(s: Snapshot, c: Cycle, n: int)
    requires ClockOk(c) && ListedBy(c, n)
    ensures ROOT_NETUID in Refreshed(s, c).netuids
  {
    ListedIsEffective(s, c, n);
    ListedIsProbed(s, c, n);
    EffectivePublishes(s, c);
    assert n in ObservedMembers(Members(s.netuids), c);
    assert ROOT_NETUID in NextMap(s, c);
    hide Refreshed;
    assert ROOT_NETUID in Members(Refreshed(s, c).netuids);
  }

  // ---------------------------------------------------------------- one netuid's history

  datatype Seen = Seen(tmc: Verdict, probe: Verdict, stamp: real)

  function SeenOf(s: Snapshot, c: Cycle, n: int): Seen {
    Seen(TmcValue(c, n), ProbeValue(Members(s.netuids), c, n), c.stamps(n))
  }

  function Fold(e: Entry, h: seq<Seen>): Entry
  {
    if h == [] then e
    else
      var last := h[|h| - 1];
      Merge(Fold(e, h[..|h| - 1]), last.tmc, last.probe, last.stamp)
  }

  /** What the cycles `i..j` that took effect saw of netuid `n`. */
  function History(snaps: seq<Snapshot>, cycles: seq<Cycle>, n: int, i: nat, j: nat): seq<Seen>
    requires |snaps| == |cycles| + 1 && i <= j <= |cycles|
    decreases j
  {
    if i == j then []
    else
      History(snaps, cycles, n, i, j - 1) +
      (if Effective(snaps[j - 1], cycles[j - 1]) then [SeenOf(snaps[j - 1], cycles[j - 1], n)] else [])
  }

  lemma FoldOneMore(e: Entry, h: seq<Seen>, x: Seen)
    ensures Fold(e, h + [x]) == Merge(Fold(e, h), x.tmc, x.probe, x.stamp)
  {
  }

  /** What one refresh does to the entry of a netuid it keeps. */
  lemma EntryStep(s: Snapshot, c: Cycle, n: int)
    requires c.now <= c.guardNow && n in Refreshed(s, c).netuids
    requires Effective(s, c) || (n in s.netuids && n in s.validity)
    ensures n in Refreshed(s, c).validity
    ensures Refreshed(s, c).validity[n] ==
            if Effective(s, c) then
              var x := SeenOf(s, c, n);
              Merge(PriorEntry(s.validity, n), x.tmc, x.probe, x.stamp)
            else s.validity[n]
  {
    if Effective(s, c) {
      EffectivePublishes(s, c);
      assert n in Members(Refreshed(s, c).netuids);
    } else {
      IneffectiveKeepsMap(s, c, n);
    }
  }

  lemma EntryStepAt(snaps: seq<Snapshot>, cycles: seq<Cycle>, n: int, k: nat)
    requires IsRun(snaps, cycles) && k < |cycles| && n in snaps[k + 1].netuids
    requires Effective(snaps[k], cycles[k]) || (n in snaps[k].netuids && n in snaps[k].validity)
    ensures n in snaps[k + 1].validity
    ensures snaps[k + 1].validity[n] ==
            if Effective(snaps[k], cycles[k]) then
              var x := SeenOf(snaps[k], cycles[k], n);
              Merge(PriorEntry(snaps[k].validity, n), x.tmc, x.probe, x.stamp)
            else snaps[k].validity[n]
  {
    assert StepAt(snaps, cycles, k);
    EntryStep(snaps[k], cycles[k], n);
  }

  lemma AbsentIsNoEntry(m: map<int, Entry>, n: int)
    ensures PriorEntry(m, n) == if n in m then m[n] else NO_ENTRY
  {
  }

  /** A member's entry is the merge folded over everything seen since it entered. */
  lemma {:induction false} EntryIsFold(snaps: seq<Snapshot>, cycles: seq<Cycle>, n: int, i: nat, j: nat)
    requires IsRun(snaps, cycles) && i < j <= |cycles|
    requires n !in snaps[i].validity && Effective(snaps[i], cycles[i])
    requires forall k :: i < k <= j ==> n in snaps[k].netuids
    ensures n in snaps[j].validity
    ensures snaps[j].validity[n] == Fold(NO_ENTRY, History(snaps, cycles, n, i, j))
    decreases j
  {
    hide Refreshed, NextMap, ProbeValue, TmcValue, Merge, Unresolvable, StepAt, PriorEntry;
    AbsentIsNoEntry(snaps[j - 1].validity, n);
    var before := History(snaps, cycles, n, i, j - 1);
    if j > i + 1 {
      EntryIsFold(snaps, cycles, n, i, j - 1);
      assert n in snaps[j - 1].netuids;
    }
    EntryStepAt(snaps, cycles, n, j - 1);
    assert before + [] == before;
    FoldOneMore(NO_ENTRY, before, SeenOf(snaps[j - 1], cycles[j - 1], n));
  }

  /** Observation `j` excluded the netuid, nothing listed it later, and every earlier exclusion was
      followed by a listing before `j`. */
  ghost predicate FirstExclusionSinceListing(h: seq<Seen>, j: int) {
    && 0 <= j < |h| && h[j].probe.No?
    && (forall k :: j < k < |h| ==> !h[k].probe.Yes?)
    && (forall k :: 0 <= k < j && h[k].probe.No? ==> ListedBetween(h, k, j))
  }

  ghost predicate ListedBetween(h: seq<Seen>, k: int, j: int) {
    exists m :: 0 <= k < m < j <= |h| && h[m].probe.Yes?
  }

  /** What the probe verdicts on a netuid say about its entry: negative exactly when the clock is set,
      and the clock is the stamp of the first exclusion after the last listing, whatever the other
      source said. */
  ghost predicate Summarizes(e: Entry, h: seq<Seen>) {
    && (e.validity.Negative? <==> e.since.At?) && !e.since.Garbled? && !e.validity.OtherText?
    && (forall j :: FirstExclusionSinceListing(h, j) ==> e.since == At(h[j].stamp))
    && (e.since.At? ==> exists j :: FirstExclusionSinceListing(h, j))
    && (e.since.Never? ==> forall k :: 0 <= k < |h| && h[k].probe.No? ==> ListedBetween(h, k, |h|))
  }

  lemma {:induction false} FoldFollowsTheProbe(h: seq<Seen>)
    ensures Summarizes(Fold(NO_ENTRY, h), h)
  {
    if h != [] {
      var n := |h| - 1;
      FoldFollowsTheProbe(h[..n]);
      SummaryStep(Fold(NO_ENTRY, h[..n]), h);
    }
  }

  /** One more observation merged. */
  lemma SummaryStep(e: Entry, h: seq<Seen>)
    requires h != [] && Summarizes(e, h[..|h| - 1])
    ensures
      var x := h[|h| - 1];
      Summarizes(Merge(e, x.tmc, x.probe, x.stamp), h)
  {
    var x := h[|h| - 1];
    var e' := Merge(e, x.tmc, x.probe, x.stamp);
    hide Summarizes;
    match x.probe {
      case Yes => LastListed(e', h) by { assert e'.validity.Positive? && e'.since.Never?; }
      case Unknown =>
        SameClock(e, x.tmc, x.stamp, h[..|h| - 1]);
        LastUnknown(e, e', h);
      case No => LastExcluded(e, e', h) by { NewClock(e, x.tmc, x.stamp, h[..|h| - 1]); }
    }
  }

  lemma SameClock(e: Entry, tmc: Verdict, stamp: real, h: seq<Seen>)
    requires Summarizes(e, h)
    ensures
      var e' := Merge(e, tmc, Unknown, stamp);
      e'.since == e.since && !e'.validity.OtherText? && (e'.validity.Negative? <==> e.validity.Negative?)
  {
  }

  lemma NewClock(e: Entry, tmc: Verdict, stamp: real, h: seq<Seen>)
    requires Summarizes(e, h)
    ensures
      var e' := Merge(e, tmc, No, stamp);
      e'.validity.Negative? && e'.since == if e.since.Never? then At(stamp) else e.since
  {
  }

  lemma LastListed(e: Entry, h: seq<Seen>)
    requires h != [] && h[|h| - 1].probe.Yes? && e.validity.Positive? && e.since.Never?
    ensures Summarizes(e, h)
  {
    forall k | 0 <= k < |h| && h[k].probe.No? ensures ListedBetween(h, k, |h|) {
      assert h[|h| - 1].probe.Yes?;
    }
  }

  lemma ListedBetweenPrefix(h: seq<Seen>, k: int, j: int)
    requires h != [] && j < |h|
    ensures ListedBetween(h, k, j) <==> ListedBetween(h[..|h| - 1], k, j)
  {
  }

  lemma FirstExclusionPrefix(h: seq<Seen>, j: int)
    requires h != [] && j < |h| - 1 && !h[|h| - 1].probe.Yes?
    ensures FirstExclusionSinceListing(h, j) <==> FirstExclusionSinceListing(h[..|h| - 1], j)
  {
  }

  lemma LastUnknown(e: Entry, e': Entry, h: seq<Seen>)
    requires h != [] && h[|h| - 1].probe.Unknown? && Summarizes(e, h[..|h| - 1])
    requires e'.since == e.since && !e'.validity.OtherText? && (e'.validity.Negative? <==> e.validity.Negative?)
    ensures Summarizes(e', h)
  {
    var n := |h| - 1;
    var p := h[..n];
    forall j ensures FirstExclusionSinceListing(h, j) <==> FirstExclusionSinceListing(p, j) {
      if j < n { FirstExclusionPrefix(h, j); }
    }
    if e.since.Never? {
      forall k | 0 <= k < |h| && h[k].probe.No? ensures ListedBetween(h, k, |h|) {
        assert p[k].probe.No? && ListedBetween(p, k, n);
        var m :| 0 <= k < m < n && p[m].probe.Yes?;
        assert h[m].probe.Yes?;
      }
    }
  }

  lemma LastExcluded(e: Entry, e': Entry, h: seq<Seen>)
    requires h != [] && h[|h| - 1].probe.No? && Summarizes(e, h[..|h| - 1])
    requires e'.validity.Negative? && e'.since == if e.since.Never? then At(h[|h| - 1].stamp) else e.since
    ensures Summarizes(e', h)
  {
    var n := |h| - 1;
    var p := h[..n];
    forall j | j < n ensures FirstExclusionSinceListing(h, j) <==> FirstExclusionSinceListing(p, j) {
      FirstExclusionPrefix(h, j);
    }
    if e.since.Never? {
      forall k | 0 <= k < n && h[k].probe.No? ensures ListedBetween(h, k, n) {
        assert p[k].probe.No? && ListedBetween(p, k, n);
        ListedBetweenPrefix(h, k, n);
      }
      assert FirstExclusionSinceListing(h, n);
      assert forall j :: j < n ==> !FirstExclusionSinceListing(h, j);
    } else {
      var j0 :| FirstExclusionSinceListing(p, j0);
      assert FirstExclusionSinceListing(h, j0);
      assert !ListedBetween(h, j0, n);
    }
  }

  /** A member's entry follows the verdicts that the effective cycles merged into it. */
  lemma ClockFollowsVerdicts(snaps: seq<Snapshot>, cycles: seq<Cycle>, n: int, i: nat, j: nat)
    requires IsRun(snaps, cycles) && i < j <= |cycles|
    requires n !in snaps[i].validity && Effective(snaps[i], cycles[i])
    requires forall k :: i < k <= j ==> n in snaps[k].netuids
    ensures n in snaps[j].validity && Summarizes(snaps[j].validity[n], History(snaps, cycles, n, i, j))
  {
    EntryIsFold(snaps, cycles, n, i, j);
    FoldFollowsTheProbe(History(snaps, cycles, n, i, j));
  }

  // ---------------------------------------------------------------- chain reads

  /** The refresh asks about this netuid: with TaoMarketCap incomplete it asks about the scan range
      only, and hears of others just when they are registered. */
  predicate Covers(c: Cycle, n: int) { c.tmcComplete || 0 <= n < MAX_NETUIDS }

  /** What the chain read itself says about a netuid. */
  function ReadVerdict(c: Cycle, n: int): Verdict {
    if c.chain.None? then Unknown else if n in c.chain.value.netuids then Yes else No
  }

  /** What the merge hears of it. */
  function HeardVerdict(c: Cycle, n: int): Verdict {
    if ReadVerdict(c, n).No? && !Covers(c, n) then Unknown else ReadVerdict(c, n)
  }

  lemma ProbeIsHeard(prior: set<int>, c: Cycle, n: int)
    requires n != ROOT_NETUID && n in Candidates(prior, c)
    ensures ProbeValue(prior, c, n) == HeardVerdict(c, n)
  {
    assert n in Members(seq(MAX_NETUIDS, i => i)) <==> 0 <= n < MAX_NETUIDS by {
      if 0 <= n < MAX_NETUIDS { assert seq(MAX_NETUIDS, i => i)[n] == n; }
    }
  }

  /** A member reads as excluded exactly when a chain read leaves it out and the refresh asked. */
  lemma ExclusionIsHeardIff(s: Snapshot, c: Cycle, n: int)
    requires n in s.netuids && n != ROOT_NETUID
    ensures ProbeValue(Members(s.netuids), c, n).No? <==>
            c.chain.Some? && n !in c.chain.value.netuids && (c.tmcComplete || 0 <= n < 200)
  {
    ProbeIsHeard(Members(s.netuids), c, n);
  }

  lemma NewMemberIsCandidate(s: Snapshot, c: Cycle, n: int)
    requires c.now <= c.guardNow && Effective(s, c) && n in Refreshed(s, c).netuids
    ensures n in Candidates(Members(s.netuids), c)
  {
    EffectivePublishes(s, c);
    hide Refreshed, Candidates;
    assert n in Members(Refreshed(s, c).netuids);
  }

  /** A chain read names some subnet besides root. */
  predicate NamesSubnet(c: Cycle) {
    c.chain.Some? ==> exists m :: m in c.chain.value.netuids && m != ROOT_NETUID
  }

  lemma ReadIsEffective(s: Snapshot, c: Cycle)
    requires ClockOk(c) && NamesSubnet(c) && c.chain.Some?
    ensures Effective(s, c)
  {
    var m :| m in c.chain.value.netuids && m != ROOT_NETUID;
    ListedIsEffective(s, c, m);
  }

  /** The chain reads of cycles `i..j`, one observation a cycle. */
  function AllReads(cycles: seq<Cycle>, n: int, i: nat, j: nat): (h: seq<Seen>)
    requires i <= j <= |cycles|
    ensures |h| == j - i
    ensures forall k :: 0 <= k < |h| ==>
              h[k] == Seen(TmcValue(cycles[i + k], n), ReadVerdict(cycles[i + k], n), cycles[i + k].stamps(n))
  {
    seq(j - i, k requires 0 <= k < j - i =>
          Seen(TmcValue(cycles[i + k], n), ReadVerdict(cycles[i + k], n), cycles[i + k].stamps(n)))
  }

  function HeardReads(cycles: seq<Cycle>, n: int, i: nat, j: nat): (h: seq<Seen>)
    requires i <= j <= |cycles|
    ensures |h| == j - i
    ensures forall k :: 0 <= k < |h| ==>
              h[k] == Seen(TmcValue(cycles[i + k], n), HeardVerdict(cycles[i + k], n), cycles[i + k].stamps(n))
  {
    seq(j - i, k requires 0 <= k < j - i =>
          Seen(TmcValue(cycles[i + k], n), HeardVerdict(cycles[i + k], n), cycles[i + k].stamps(n)))
  }

  /** A netuid that entered at cycle `i` and has stayed since, in a run of such reads. */
  ghost predicate StayedFrom(snaps: seq<Snapshot>, cycles: seq<Cycle>, n: int, i: nat, j: nat) {
    && IsRun(snaps, cycles) && i < j <= |cycles| && n != ROOT_NETUID
    && n !in snaps[i].validity && Effective(snaps[i], cycles[i])
    && (forall k :: i < k <= j ==> n in snaps[k].netuids)
    && (forall k :: i <= k < j ==> NamesSubnet(cycles[k]))
  }

  lemma HeardAt(snaps: seq<Snapshot>, cycles: seq<Cycle>, n: int, k: nat)
    requires IsRun(snaps, cycles) && k < |cycles| && n != ROOT_NETUID && n in snaps[k + 1].netuids
    requires NamesSubnet(cycles[k])
    ensures Effective(snaps[k], cycles[k]) ==>
              SeenOf(snaps[k], cycles[k], n) ==
              Seen(TmcValue(cycles[k], n), HeardVerdict(cycles[k], n), cycles[k].stamps(n))
    ensures !Effective(snaps[k], cycles[k]) ==> HeardVerdict(cycles[k], n).Unknown?
  {
    assert StepAt(snaps, cycles, k);
    if Effective(snaps[k], cycles[k]) {
      NewMemberIsCandidate(snaps[k], cycles[k], n);
      ProbeIsHeard(Members(snaps[k].netuids), cycles[k], n);
    } else if cycles[k].chain.Some? {
      ReadIsEffective(snaps[k], cycles[k]);
    }
  }

  lemma {:induction false} EntryFollowsReads(snaps: seq<Snapshot>, cycles: seq<Cycle>, n: int, i: nat, j: nat)
    requires StayedFrom(snaps, cycles, n, i, j)
    ensures n in snaps[j].validity && Summarizes(snaps[j].validity[n], HeardReads(cycles, n, i, j))
    decreases j
  {
    hide Refreshed, NextMap, Merge, Unresolvable, StepAt, PriorEntry, Summarizes, TmcValue, ProbeValue, HeardVerdict;
    AbsentIsNoEntry(snaps[j - 1].validity, n);
    var h := HeardReads(cycles, n, i, j);
    assert h[..|h| - 1] == HeardReads(cycles, n, i, j - 1);
    if j > i + 1 {
      EntryFollowsReads(snaps, cycles, n, i, j - 1);
      assert n in snaps[j - 1].netuids;
    } else {
      FoldFollowsTheProbe([]);
      assert h[..|h| - 1] == [];
    }
    EntryStepAt(snaps, cycles, n, j - 1);
    HeardAt(snaps, cycles, n, j - 1);
    if Effective(snaps[j - 1], cycles[j - 1]) {
      SummaryStep(PriorEntry(snaps[j - 1].validity, n), h);
    } else {
      var e := snaps[j - 1].validity[n];
      assert !e.validity.OtherText? by { NoOtherText(e, h[..|h| - 1]); }
      LastUnknown(e, e, h);
    }
  }

  lemma NoOtherText(e: Entry, h: seq<Seen>)
    requires Summarizes(e, h)
    ensures !e.validity.OtherText?
  {
  }

  /** What the chain reads promise: negative exactly when some read left the netuid out with no listing
      since, the clock being the stamp of the first such read after the last listing. */
  ghost predicate FollowsChain(e: Entry, said: seq<Seen>) {
    && (e.validity.Negative? <==> exists k :: FirstExclusionSinceListing(said, k))
    && (forall k :: FirstExclusionSinceListing(said, k) ==> e.since == At(said[k].stamp))
  }

  /** The first read that left the netuid out since its last listing was made by a refresh that asked. */
  ghost predicate FirstExclusionIsHeard(cycles: seq<Cycle>, n: int, i: nat, j: nat)
    requires i <= j <= |cycles|
  {
    forall k :: FirstExclusionSinceListing(AllReads(cycles, n, i, j), k) ==> Covers(cycles[i + k], n)
  }

  /** `heard` is `said` with some exclusions unheard. */
  ghost predicate Hears(heard: seq<Seen>, said: seq<Seen>) {
    |heard| == |said| &&
    forall k :: 0 <= k < |said| ==>
      && heard[k].stamp == said[k].stamp && (heard[k].probe.Yes? <==> said[k].probe.Yes?)
      && (heard[k].probe.No? ==> said[k].probe.No?)
  }

  lemma ReadsAreHeard(cycles: seq<Cycle>, n: int, i: nat, j: nat)
    requires i <= j <= |cycles|
    ensures Hears(HeardReads(cycles, n, i, j), AllReads(cycles, n, i, j))
    ensures
      var heard, said := HeardReads(cycles, n, i, j), AllReads(cycles, n, i, j);
      forall k :: 0 <= k < |said| && said[k].probe.No? ==> (heard[k].probe.No? <==> Covers(cycles[i + k], n))
  {
  }

  lemma FirstIsHeard(heard: seq<Seen>, said: seq<Seen>, k: int)
    requires Hears(heard, said) && FirstExclusionSinceListing(said, k) && heard[k].probe.No?
    ensures FirstExclusionSinceListing(heard, k)
  {
    forall m | 0 <= m < k && heard[m].probe.No? ensures ListedBetween(heard, m, k) {
      assert said[m].probe.No? && ListedBetween(said, m, k);
      var x :| 0 <= m < x < k && said[x].probe.Yes?;
      assert heard[x].probe.Yes?;
    }
  }

  lemma NothingToHear(heard: seq<Seen>, said: seq<Seen>, k: int)
    requires Hears(heard, said) && FirstExclusionSinceListing(heard, k)
    ensures exists m :: FirstExclusionSinceListing(said, m)
  {
    FoldFollowsTheProbe(said);
    forall x | k < x < |said| ensures !said[x].probe.Yes? {
      assert !heard[x].probe.Yes?;
    }
  }

  /** A member's clock follows the chain reads, whatever TaoMarketCap and failed reads said, as long as
      the first read to leave it out was made by a refresh that asked about it. */
  lemma NegativeSinceIsFirstExclusion(snaps: seq<Snapshot>, cycles: seq<Cycle>, n: int, i: nat, j: nat)
    requires StayedFrom(snaps, cycles, n, i, j) && FirstExclusionIsHeard(cycles, n, i, j)
    ensures n in snaps[j].validity && FollowsChain(snaps[j].validity[n], AllReads(cycles, n, i, j))
  {
    EntryFollowsReads(snaps, cycles, n, i, j);
    HeardIsEnough(snaps[j].validity[n], cycles, n, i, j);
  }

  lemma HeardIsEnough(e: Entry, cycles: seq<Cycle>, n: int, i: nat, j: nat)
    requires i <= j <= |cycles| && FirstExclusionIsHeard(cycles, n, i, j)
    requires Summarizes(e, HeardReads(cycles, n, i, j))
    ensures FollowsChain(e, AllReads(cycles, n, i, j))
  {
    var said, heard := AllReads(cycles, n, i, j), HeardReads(cycles, n, i, j);
    ReadsAreHeard(cycles, n, i, j);
    forall k | FirstExclusionSinceListing(said, k) ensures FirstExclusionSinceListing(heard, k) {
      FirstIsHeard(heard, said, k);
    }
    forall k | FirstExclusionSinceListing(heard, k) ensures exists m :: FirstExclusionSinceListing(said, m) {
      NothingToHear(heard, said, k);
    }
    hide FirstExclusionSinceListing, ListedBetween, Hears;
  }

  /** And only then, if no two cycles stamp it with the same time: a first read that leaves out a netuid
      beyond the scan range while TaoMarketCap is incomplete does not start the clock. */
  lemma FollowsChainIff(snaps: seq<Snapshot>, cycles: seq<Cycle>, n: int, i: nat, j: nat)
    requires StayedFrom(snaps, cycles, n, i, j)
    requires forall k, m :: i <= k < m < j ==> cycles[k].stamps(n) != cycles[m].stamps(n)
    ensures n in snaps[j].validity
    ensures FollowsChain(snaps[j].validity[n], AllReads(cycles, n, i, j)) <==> FirstExclusionIsHeard(cycles, n, i, j)
  {
    EntryFollowsReads(snaps, cycles, n, i, j);
    if FirstExclusionIsHeard(cycles, n, i, j) {
      NegativeSinceIsFirstExclusion(snaps, cycles, n, i, j);
    } else {
      UnheardIsMissed(snaps[j].validity[n], cycles, n, i, j);
    }
  }

  lemma UnheardIsMissed(e: Entry, cycles: seq<Cycle>, n: int, i: nat, j: nat)
    requires i <= j <= |cycles| && !FirstExclusionIsHeard(cycles, n, i, j)
    requires forall k, m :: i <= k < m < j ==> cycles[k].stamps(n) != cycles[m].stamps(n)
    requires Summarizes(e, HeardReads(cycles, n, i, j))
    ensures !FollowsChain(e, AllReads(cycles, n, i, j))
  {
    var said, heard := AllReads(cycles, n, i, j), HeardReads(cycles, n, i, j);
    ReadsAreHeard(cycles, n, i, j);
    var k :| FirstExclusionSinceListing(said, k) && !Covers(cycles[i + k], n);
    forall m | FirstExclusionSinceListing(heard, m) ensures e.since != At(said[k].stamp) {
      assert m != k && heard[m].stamp == cycles[i + m].stamps(n) && said[k].stamp == cycles[i + k].stamps(n);
      assert cycles[i + m].stamps(n) != cycles[i + k].stamps(n);
    }
  }

  /** One read that leaves a positive member out starts its clock exactly if the refresh asked; else
      the member stays as it was, and is published. */
  lemma UnheardReadIsIgnored(s: Snapshot, c: Cycle, n: int)
    requires c.now <= c.guardNow && n in s.netuids && n != ROOT_NETUID && n in s.validity
    requires s.validity[n].validity.Positive? && s.validity[n].since.Never?
    requires c.chain.Some? && n !in c.chain.value.netuids
    ensures
      var e := NextEntry(Members(s.netuids), s.validity, c, n);
      && (e.validity.Negative? <==> Covers(c, n)) && (e.since == At(c.stamps(n)) <==> Covers(c, n))
      && (!Covers(c, n) ==> e.validity.Positive? && e.since.Never? && n in Refreshed(s, c).netuids)
  {
    ProbeIsHeard(Members(s.netuids), c, n);
    if !Covers(c, n) { PositiveStays(s, c, n); }
  }

  lemma PositiveStays(s: Snapshot, c: Cycle, n: int)
    requires c.now <= c.guardNow && n in s.netuids && n != ROOT_NETUID && n in s.validity
    requires s.validity[n].validity.Positive? && s.validity[n].since.Never? && !Covers(c, n)
    ensures n in Refreshed(s, c).netuids && n in Refreshed(s, c).validity
    ensures Refreshed(s, c).validity[n].validity.Positive? && Refreshed(s, c).validity[n].since.Never?
  {
    var prior := Members(s.netuids);
    ProbeIsHeard(prior, c, n);
    assert n in NextMap(s, c);
    EffectivePublishes(s, c);
    hide Refreshed;
    assert n in Members(Refreshed(s, c).netuids);
  }

  /** While TaoMarketCap stays incomplete, a positive member beyond the scan range stays one for ever,
      whatever the chain reads leave out. */
  lemma {:induction false} UnaskedNeverLeaves(snaps: seq<Snapshot>, cycles: seq<Cycle>, n: int, i: nat, j: nat)
    requires IsRun(snaps, cycles) && i <= j <= |cycles| && n in snaps[i].netuids && n != ROOT_NETUID
    requires n in snaps[i].validity && snaps[i].validity[n].validity.Positive? && snaps[i].validity[n].since.Never?
    requires forall k :: i <= k < j ==> !Covers(cycles[k], n)
    ensures n in snaps[j].netuids && n in snaps[j].validity
    ensures snaps[j].validity[n].validity.Positive? && snaps[j].validity[n].since.Never?
    decreases j
  {
    hide Refreshed;
    if i < j {
      UnaskedNeverLeaves(snaps, cycles, n, i, j - 1);
      assert StepAt(snaps, cycles, j - 1);
      PositiveStays(snaps[j - 1], cycles[j - 1], n);
    }
  }

  // ---------------------------------------------------------------- removal safety

  predicate ClockSince(e: Entry, s: real) {
    && !e.since.Garbled? && (e.validity.Negative? ==> e.since.At?)
    && (e.since.At? ==> e.since.time >= s)
  }

  lemma MergeKeepsClock(e: Entry, tmc: Verdict, probe: Verdict, stamp: real, s: real)
    requires (ClockSince(e, s) || probe.Yes?) && stamp >= s
    ensures ClockSince(Merge(e, tmc, probe, stamp), s)
  {
  }

  predicate ListedBy(c: Cycle, n: int) { c.chain.Some? && n in c.chain.value.netuids && n != ROOT_NETUID }

  ghost predicate HeldSince(s: Snapshot, n: int, t: real) {
    n in s.netuids && n in s.validity && ClockSince(s.validity[n], t)
  }

  lemma ListedIsProbed(s: Snapshot, c: Cycle, n: int)
    requires ListedBy(c, n)
    ensures ProbeValue(Members(s.netuids), c, n).Yes? && n in Candidates(Members(s.netuids), c)
  {
  }

  lemma RefreshKeepsYoung(s: Snapshot, c: Cycle, n: int, t: real)
    requires ClockOk(c) && HeldSince(s, n, t) && t <= c.now && c.now - t < STALE_GRACE_SECONDS
    ensures HeldSince(Refreshed(s, c), n, t)
  {
    var prior := Members(s.netuids);
    MergeKeepsClock(s.validity[n], TmcValue(c, n), ProbeValue(prior, c, n), c.stamps(n), t);
    assert n in Candidates(prior, c);
    assert NextEntry(prior, s.validity, c, n) ==
           Merge(s.validity[n], TmcValue(c, n), ProbeValue(prior, c, n), c.stamps(n));
    assert !Drops(prior, s.validity, c, n);
    assert n in NextMap(s, c);
    EffectivePublishes(s, c);
    assert n in Members(Refreshed(s, c).netuids);
  }

  lemma ListedIsEffective(s: Snapshot, c: Cycle, n: int)
    requires ClockOk(c) && ListedBy(c, n)
    ensures Effective(s, c) && n in NextMap(s, c)
  {
    var prior := Members(s.netuids);
    ListedIsProbed(s, c, n);
    MergeKeepsClock(PriorEntry(s.validity, n), TmcValue(c, n), ProbeValue(prior, c, n), c.stamps(n), c.now);
    assert n in NextMap(s, c);
  }

  lemma ListedEnters(s: Snapshot, c: Cycle, n: int)
    requires ClockOk(c) && ListedBy(c, n)
    ensures HeldSince(Refreshed(s, c), n, c.now)
  {
    var prior := Members(s.netuids);
    ListedIsProbed(s, c, n);
    MergeKeepsClock(PriorEntry(s.validity, n), TmcValue(c, n), ProbeValue(prior, c, n), c.stamps(n), c.now);
    ListedIsEffective(s, c, n);
    EffectivePublishes(s, c);
    assert n in Members(Refreshed(s, c).netuids);
  }

  /** A netuid listed by a cycle's chain read is a member of every snapshot published less than
      two days (the grace period, in seconds) after that cycle began. */
  lemma {:induction false} ListedStaysForTheGrace(snaps: seq<Snapshot>, cycles: seq<Cycle>, n: int, i: nat, j: nat)
    requires IsRun(snaps, cycles) && i < j <= |cycles| && ListedBy(cycles[i], n)
    requires cycles[j - 1].now - cycles[i].now < 172800.0
    ensures HeldSince(snaps[j], n, cycles[i].now)
    decreases j
  {
    hide Refreshed;
    assert StepAt(snaps, cycles, j - 1);
    if j == i + 1 {
      ListedEnters(snaps[i], cycles[i], n);
    } else {
      CyclesInOrder(snaps, cycles, i, j - 2);
      CyclesInOrder(snaps, cycles, j - 2, j - 1);
      ListedStaysForTheGrace(snaps, cycles, n, i, j - 1);
      RefreshKeepsYoung(snaps[j - 1], cycles[j - 1], n, cycles[i].now);
    }
  }

  lemma CyclesInOrder(snaps: seq<Snapshot>, cycles: seq<Cycle>, i: nat, j: nat)
    requires IsRun(snaps, cycles) && i <= j < |cycles|
    ensures cycles[i].now <= cycles[j].now
  {
    hide Refreshed;
    assert StepAt(snaps, cycles, i);
    if i < j { assert cycles[i].guardNow <= cycles[j].now; }
  }

  lemma RootStep(snaps: seq<Snapshot>, cycles: seq<Cycle>, k: nat)
    requires IsRun(snaps, cycles) && k < |cycles| && ROOT_NETUID in snaps[k].netuids
    ensures ROOT_NETUID in snaps[k + 1].netuids
  {
    assert StepAt(snaps, cycles, k);
    if ROOT_NETUID !in snaps[k + 1].netuids {
      DepartureNeedsEvidence(snaps[k], cycles[k], ROOT_NETUID);
    }
  }

  /** Root, once a member, is a member of every later snapshot. */
  lemma {:induction false} RootNeverLeaves(snaps: seq<Snapshot>, cycles: seq<Cycle>, i: nat, j: nat)
    requires IsRun(snaps, cycles) && i <= j <= |cycles| && ROOT_NETUID in snaps[i].netuids
    ensures ROOT_NETUID in snaps[j].netuids
    decreases j
  {
    if i < j {
      RootNeverLeaves(snaps, cycles, i, j - 1);
      RootStep(snaps, cycles, j - 1);
    }
  }
}
