/** Membership across persisting, reloading and restarting, for the one process that refreshes. */
module UniverseRestarts {
  import opened Prelude
  import opened SubnetUniverse
  import opened UniverseHistory
  import Provider = UniverseProvider

  /** A refresh, a reload, or the process ending and a new one starting from the file. */
  datatype Event = Refresh(c: Cycle, wrote: Provider.Write) | Reload | Restart(c: Cycle)

  function Happens(w: Provider.Store, e: Event): Provider.Store {
    match e
    case Refresh(c, wrote) => Provider.AfterRefresh(w, c, wrote)
    case Reload => Provider.AfterReload(w)
    case Restart(c) => Provider.Initial(c, w.content, w.mtime)
  }

  ghost predicate HappensAt(w: seq<Provider.Store>, events: seq<Event>, k: int) {
    0 <= k < |events| && k + 1 < |w| && w[k + 1] == Happens(w[k], events[k])
  }

  ghost predicate IsLife(w: seq<Provider.Store>, events: seq<Event>) {
    |w| == |events| + 1 && forall k :: 0 <= k < |events| ==> HappensAt(w, events, k)
  }

  /** A member both in memory and in the file. */
  ghost predicate Kept(w: Provider.Store, n: int, t: real) {
    && HeldSince(w.snapshot, n, t)
    && w.content.Some? && HeldSince(Provider.FromPayload(w.content.value), n, t)
  }

  lemma PersistingKeepsMember(s: Snapshot, n: int, t: real)
    requires HeldSince(s, n, t)
    ensures HeldSince(Provider.FromPayload(Provider.ToPayload(s)), n, t)
  {
    SortIntsAscends(s.netuids);
    assert n in multiset(SortInts(s.netuids));
  }

  lemma FileIsLoadable(p: Provider.Payload, n: int, t: real)
    requires HeldSince(Provider.FromPayload(p), n, t)
    ensures Provider.Loadable(Some(p))
  {
    SortIntsAscends(p.netuids);
    assert n in multiset(p.netuids);
  }

  /** A member in memory, in a universe that is not the registry fallback. */
  ghost predicate InMemory(w: Provider.Store, n: int, t: real) {
    HeldSince(w.snapshot, n, t) && !w.snapshot.status.EmergencyRegistry?
  }

  lemma ListingEnters(w: Provider.Store, c: Cycle, wrote: Provider.Write, n: int)
    requires ClockOk(c) && ListedBy(c, n)
    ensures InMemory(Happens(w, Refresh(c, wrote)), n, c.now)
  {
    var s := w.snapshot;
    ListedEnters(s, c, n);
    ListedIsEffective(s, c, n);
    EffectivePublishes(s, c);
    NormalBuild(s, c);
    hide Refreshed, BuildFrom, HeldSince;
  }

  lemma RefreshKeepsInMemory(w: Provider.Store, c: Cycle, wrote: Provider.Write, n: int, t: real)
    requires InMemory(w, n, t) && ClockOk(c) && t <= c.now < t + STALE_GRACE_SECONDS
    ensures InMemory(Happens(w, Refresh(c, wrote)), n, t)
  {
    RefreshKeepsYoung(w.snapshot, c, n, t);
    Provider.RefreshNeverFallsBack(w.snapshot, c);
    hide Refreshed, HeldSince;
  }

  /** A refresh that writes persists what it leaves in memory. */
  lemma WritingKeeps(w: Provider.Store, c: Cycle, wrote: Provider.Write, n: int, t: real)
    requires InMemory(Happens(w, Refresh(c, wrote)), n, t) && wrote.Replaces?
    ensures Kept(Happens(w, Refresh(c, wrote)), n, t)
  {
    hide Refreshed, HeldSince;
    PersistingKeepsMember(Refreshed(w.snapshot, c), n, t);
  }

  lemma StepKeepsMember(w: Provider.Store, e: Event, n: int, t: real)
    requires Kept(w, n, t)
    requires e.Refresh? ==> ClockOk(e.c) && t <= e.c.now < t + STALE_GRACE_SECONDS
    ensures Kept(Happens(w, e), n, t)
  {
    FileIsLoadable(w.content.value, n, t);
    if e.Refresh? {
      RefreshKeepsYoung(w.snapshot, e.c, n, t);
      hide Refreshed, HeldSince;
      PersistingKeepsMember(Refreshed(w.snapshot, e.c), n, t);
    }
  }

  /** Every refresh of events `i..j` begins within the grace period after `t`, on a clock in order. */
  ghost predicate WithinGrace(events: seq<Event>, i: nat, j: nat, t: real) {
    forall k :: i <= k < j && k < |events| && events[k].Refresh? ==>
      ClockOk(events[k].c) && t <= events[k].c.now < t + STALE_GRACE_SECONDS
  }

  /** What is in memory and in the file outlasts refreshes within the grace, reloads and restarts,
      whichever writes fail. */
  lemma {:induction false} KeptSurvives(w: seq<Provider.Store>, events: seq<Event>, n: int, t: real, i: nat, j: nat)
    requires IsLife(w, events) && i <= j <= |events| && Kept(w[i], n, t) && WithinGrace(events, i, j, t)
    ensures Kept(w[j], n, t)
    decreases j
  {
    hide Happens, Kept;
    if i < j {
      KeptSurvives(w, events, n, t, i, j - 1);
      assert HappensAt(w, events, j - 1);
      StepKeepsMember(w[j - 1], events[j - 1], n, t);
    }
  }

  lemma {:induction false} RefreshesKeep(w: seq<Provider.Store>, events: seq<Event>, n: int, i: nat, j: nat)
    requires IsLife(w, events) && i < j <= |events| && (forall k :: i <= k < j ==> events[k].Refresh?)
    requires ListedBy(events[i].c, n) && WithinGrace(events, i, j, events[i].c.now)
    ensures InMemory(w[j], n, events[i].c.now)
    decreases j
  {
    hide Happens, InMemory;
    assert HappensAt(w, events, j - 1);
    if j == i + 1 {
      ListingEnters(w[i], events[i].c, events[i].wrote, n);
    } else {
      RefreshesKeep(w, events, n, i, j - 1);
      RefreshKeepsInMemory(w[j - 1], events[j - 1].c, events[j - 1].wrote, n, events[i].c.now);
    }
  }

  /** A netuid listed by refresh `i` is a member after every refresh begun less than the grace period
      later, every reload and every restart, if some refresh from `i` on wrote its snapshot before the
      first reload or restart: `r` is that refresh, or `j` when nothing but refreshes happened. */
  lemma ListedSurvivesRestarts(w: seq<Provider.Store>, events: seq<Event>, n: int, i: nat, r: nat, j: nat)
    requires IsLife(w, events) && i <= r <= j <= |events| && i < j
    requires events[i].Refresh? && ListedBy(events[i].c, n) && WithinGrace(events, i, j, events[i].c.now)
    requires forall k :: i <= k < r ==> events[k].Refresh?
    requires r < j ==> events[r].Refresh? && events[r].wrote.Replaces?
    ensures n in w[j].snapshot.netuids && HeldSince(w[j].snapshot, n, events[i].c.now)
    ensures r < j ==> Kept(w[j], n, events[i].c.now)
  {
    hide Happens, ClockOk, WithinGrace;
    WithinLess(events, i, j, events[i].c.now, r);
    if r == j {
      RefreshesKeep(w, events, n, i, j);
    } else {
      RefreshesKeep(w, events, n, i, r + 1);
      assert HappensAt(w, events, r) && events[r] == Refresh(events[r].c, events[r].wrote);
      hide InMemory, Kept, HappensAt;
      WritingKeeps(w[r], events[r].c, events[r].wrote, n, events[i].c.now);
      KeptSurvives(w, events, n, events[i].c.now, r + 1, j);
      KeptIsHeld(w[j], n, events[i].c.now);
    }
  }

  lemma WithinLess(events: seq<Event>, i: nat, j: nat, t: real, r: nat)
    requires WithinGrace(events, i, j, t) && i <= r <= j
    ensures WithinGrace(events, i, r, t) && WithinGrace(events, r, j, t)
    ensures r < j ==> WithinGrace(events, i, r + 1, t) && WithinGrace(events, r + 1, j, t)
  {
  }

  lemma KeptIsHeld(w: Provider.Store, n: int, t: real)
    requires Kept(w, n, t)
    ensures n in w.snapshot.netuids && HeldSince(w.snapshot, n, t)
  {
  }

  lemma {:induction false} UnwrittenFileStays(w: seq<Provider.Store>, events: seq<Event>, i: nat, j: nat)
    requires IsLife(w, events) && i <= j <= |events|
    requires forall k :: i <= k < j ==> events[k].Refresh? && !events[k].wrote.Replaces?
    ensures w[j].content == w[i].content
    decreases j
  {
    hide Refreshed;
    if i < j {
      UnwrittenFileStays(w, events, i, j - 1);
      assert HappensAt(w, events, j - 1);
    }
  }

  /** A first restart, at `m`, after refreshes within the grace of the listing one finds the netuid
      exactly when one of them wrote, or what was there to start from has it: a loadable file, else the
      registry. */
  lemma RestartKeepsIff(w: seq<Provider.Store>, events: seq<Event>, n: int, i: nat, m: nat)
    requires IsLife(w, events) && i < m < |events| && events[m].Restart?
    requires (forall k :: i <= k < m ==> events[k].Refresh?) && ListedBy(events[i].c, n)
    requires WithinGrace(events, i, m + 1, events[i].c.now)
    ensures n in w[m + 1].snapshot.netuids <==>
            || (exists k :: i <= k < m && events[k].wrote.Replaces?)
            || (if Provider.Loadable(w[i].content) then n in w[i].content.value.netuids else n in events[m].c.registry)
  {
    hide Happens, WithinGrace;
    if k :| i <= k < m && events[k].wrote.Replaces? {
      ListedSurvivesRestarts(w, events, n, i, k, m + 1);
    } else {
      UnwrittenFileStays(w, events, i, m);
      assert HappensAt(w, events, m);
      RestartIsInitial(w[m], events[m]);
      RestartReads(w[m].content, w[m].mtime, events[m].c, n);
    }
  }

  lemma RestartIsInitial(w: Provider.Store, e: Event)
    requires e.Restart?
    ensures Happens(w, e) == Provider.Initial(e.c, w.content, w.mtime)
  {
  }

  /** Input: an older file without it, a failed write and a restart. */
  lemma UnwrittenListingIsLost(w: Provider.Store, c: Cycle, again: Cycle, n: int)
    requires ClockOk(c) && ListedBy(c, n) && Provider.Loadable(w.content) && n !in w.content.value.netuids
    ensures
      var refreshed := Happens(w, Refresh(c, Provider.WriteFails));
      n in refreshed.snapshot.netuids && n !in Happens(refreshed, Restart(again)).snapshot.netuids
  {
    ListingEnters(w, c, Provider.WriteFails, n);
    RestartReads(w.content, w.mtime, again, n);
    hide Refreshed;
  }

  lemma RestartReads(content: Option<Provider.Payload>, mtime: nat, again: Cycle, n: int)
    requires n != ROOT_NETUID
    ensures n in Provider.Initial(again, content, mtime).snapshot.netuids <==>
            if Provider.Loadable(content) then n in content.value.netuids else n in again.registry
  {
    if Provider.Loadable(content) {
      var ids := content.value.netuids;
      SortIntsAscends(ids);
      assert n in ids <==> n in multiset(ids);
      assert n in SortInts(ids) <==> n in multiset(SortInts(ids));
    }
  }
}
