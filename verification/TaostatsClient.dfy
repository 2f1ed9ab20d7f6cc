/** The TaoStats client: the sliding-window call limiter and the rotating batch selection. */
module TaostatsClient {
  import opened Prelude

  const RATE_LIMIT_CALLS_PER_MIN := 5
  const WINDOW := 60.0
  const MARGIN := 0.1

  // ---------------------------------------------------------------- limiter

  function Pruned(ts: seq<real>, now: real): seq<real>
  {
    if ts == [] then []
    else (if now - ts[0] < WINDOW then [ts[0]] else []) + Pruned(ts[1..], now)
  }

  /** How long the limiter sleeps with these timestamps left. */
  function Wait(ts: seq<real>, now: real): real
  {
    if |ts| >= RATE_LIMIT_CALLS_PER_MIN then MaxReal(0.0, WINDOW - (now - ts[0]) + MARGIN) else 0.0
  }

  /** One call: the clock as it enters and as it is read again after the sleep. */
  datatype Call = Call(now: real, granted: real)

  function AfterCall(ts: seq<real>, c: Call): seq<real> { Pruned(ts, c.now) + [c.granted] }

  /** Clock readings in order, and a sleep that lasts at least as long as it was asked to. */
  ghost predicate IsRun(ts: seq<seq<real>>, calls: seq<Call>) {
    && |ts| == |calls| + 1 && ts[0] == []
    && (forall i :: 0 <= i < |calls| ==>
          ts[i + 1] == AfterCall(ts[i], calls[i]) &&
          calls[i].granted >= calls[i].now + Wait(Pruned(ts[i], calls[i].now), calls[i].now))
    && (forall i, j :: 0 <= i < j < |calls| ==> calls[i].granted <= calls[j].now)
  }

  function Grants(calls: seq<Call>): (g: seq<real>)
    ensures |g| == |calls| && forall i :: 0 <= i < |g| ==> g[i] == calls[i].granted
  {
    seq(|calls|, i requires 0 <= i < |calls| => calls[i].granted)
  }

  ghost predicate Ordered(s: seq<real>) { forall i, j :: 0 <= i <= j < |s| ==> s[i] <= s[j] }

  lemma {:induction false} YoungAreKept(ts: seq<real>, now: real)
    requires forall i :: 0 <= i < |ts| ==> now - ts[i] < WINDOW
    ensures Pruned(ts, now) == ts
  {
    if ts != [] {
      YoungAreKept(ts[1..], now);
      assert [ts[0]] + ts[1..] == ts;
    }
  }

  /** Pruning an ordered list keeps a suffix: exactly the readings younger than the window. */
  lemma {:induction false} PrunedIsSuffix(ts: seq<real>, now: real) returns (k: nat)
    requires Ordered(ts)
    ensures k <= |ts| && Pruned(ts, now) == ts[k..]
    ensures forall i :: 0 <= i < |ts| ==> (i >= k <==> now - ts[i] < WINDOW)
  {
    if ts == [] || now - ts[0] < WINDOW {
      k := 0;
      YoungAreKept(ts, now);
    } else {
      var tail := ts[1..];
      k := PrunedIsSuffix(tail, now);
      assert tail[k..] == ts[k + 1..];
      forall i | 0 <= i < |ts| ensures i >= k + 1 <==> now - ts[i] < WINDOW {
        assert i > 0 ==> ts[i] == tail[i - 1];
      }
      k := k + 1;
    }
  }

  lemma {:induction false} GrantsAreOrdered(ts: seq<seq<real>>, calls: seq<Call>)
    requires IsRun(ts, calls)
    ensures Ordered(Grants(calls))
  {
  }

  /** What is known of the list after `n` calls: it is the latest grants from the `k`-th on, at most
      six of them, all before had left the window at the latest call, and a list of six spans it. */
  ghost predicate Recent(calls: seq<Call>, list: seq<real>, n: nat, k: nat)
    requires n <= |calls|
  {
    && k <= n <= k + RATE_LIMIT_CALLS_PER_MIN + 1 && list == Grants(calls)[k..n]
    && (forall i :: 0 <= i < k ==> n > 0 && calls[n - 1].now - calls[i].granted >= WINDOW)
    && (n == k + RATE_LIMIT_CALLS_PER_MIN + 1 ==> calls[n - 1].granted - calls[k].granted >= WINDOW)
  }

  lemma RecentStep(ts: seq<seq<real>>, calls: seq<Call>, n: nat, before: nat) returns (k: nat)
    requires IsRun(ts, calls) && n < |calls| && Recent(calls, ts[n], n, before)
    ensures Recent(calls, ts[n + 1], n + 1, k)
  {
    hide Pruned;
    var g, list, c := Grants(calls), ts[n], calls[n];
    GrantsAreOrdered(ts, calls);
    var drop := PrunedIsSuffix(list, c.now);
    k := before + drop;
    assert n > 0 ==> calls[n - 1].granted <= c.now;
    assert n > 0 ==> calls[n - 1].now <= c.now;
    StepList(calls, list, n, before, drop);
    assert forall i :: 0 <= i < |list| ==> list[i] == g[before + i];
    forall i | 0 <= i < k ensures c.now - calls[i].granted >= WINDOW {
      assert i >= before ==> list[i - before] == calls[i].granted;
    }
    assert n == before + RATE_LIMIT_CALLS_PER_MIN + 1 ==> list[0] == calls[before].granted;
    assert n + 1 == k + RATE_LIMIT_CALLS_PER_MIN + 1 ==> Pruned(list, c.now)[0] == calls[k].granted;
  }

  lemma StepList(calls: seq<Call>, list: seq<real>, n: nat, before: nat, drop: nat)
    requires n < |calls| && before <= n && list == Grants(calls)[before..n] && drop <= |list|
    ensures list[drop..] + [calls[n].granted] == Grants(calls)[before + drop..n + 1]
  {
  }

  lemma {:induction false} ListIsRecentGrants(ts: seq<seq<real>>, calls: seq<Call>, n: nat) returns (k: nat)
    requires IsRun(ts, calls) && n <= |calls|
    ensures Recent(calls, ts[n], n, k)
  {
    if n == 0 {
      k := 0;
    } else {
      k := ListIsRecentGrants(ts, calls, n - 1);
      k := RecentStep(ts, calls, n - 1, k);
    }
  }

  /** Pruning never leaves more than five timestamps. */
  lemma PruningLeavesFive(ts: seq<seq<real>>, calls: seq<Call>, n: nat)
    requires IsRun(ts, calls) && n < |calls|
    ensures |Pruned(ts[n], calls[n].now)| <= RATE_LIMIT_CALLS_PER_MIN
  {
    var k := ListIsRecentGrants(ts, calls, n + 1);
    assert |ts[n + 1]| == |Pruned(ts[n], calls[n].now)| + 1;
  }

  /** Any six successive grants span at least a minute. */
  lemma SixGrantsSpanAMinute(ts: seq<seq<real>>, calls: seq<Call>, i: nat)
    requires IsRun(ts, calls) && i + 5 < |calls|
    ensures calls[i + 5].granted - calls[i].granted >= 60.0
  {
    var last := i + RATE_LIMIT_CALLS_PER_MIN;
    var k := ListIsRecentGrants(ts, calls, last + 1);
    assert calls[last].now <= calls[last].granted;
  }

  /** A call waits exactly if five grants lie within the last minute, and then until the oldest of them
      is a minute old, and a tenth of a second more. */
  lemma WaitIff(ts: seq<seq<real>>, calls: seq<Call>, n: nat)
    requires IsRun(ts, calls) && n < |calls|
    ensures
      var kept, now := Pruned(ts[n], calls[n].now), calls[n].now;
      && Wait(kept, now) >= 0.0 && |kept| <= 5
      && (Wait(kept, now) > 0.0 <==> |kept| == 5)
      && (|kept| == 5 ==> now + Wait(kept, now) == kept[0] + 60.0 + 0.1)
  {
    PruningLeavesFive(ts, calls, n);
    var before := ListIsRecentGrants(ts, calls, n);
    GrantsAreOrdered(ts, calls);
    var k := PrunedIsSuffix(ts[n], calls[n].now);
    hide Pruned;
  }

  /** The grants a call counts are those of the last minute, in order. */
  lemma CountedAreRecent(ts: seq<seq<real>>, calls: seq<Call>, n: nat) returns (k: nat)
    requires IsRun(ts, calls) && n < |calls|
    ensures k <= n && Pruned(ts[n], calls[n].now) == Grants(calls)[k..n]
    ensures forall i :: 0 <= i < n ==> (i >= k <==> calls[n].now - calls[i].granted < 60.0)
  {
    hide Pruned, AfterCall, Grants;
    var before := ListIsRecentGrants(ts, calls, n);
    GrantsAreOrdered(ts, calls);
    var g, list := Grants(calls), ts[n];
    var drop := PrunedIsSuffix(list, calls[n].now);
    k := before + drop;
    assert list[drop..] == g[k..n];
    forall i | 0 <= i < n ensures i >= k <==> calls[n].now - calls[i].granted < 60.0 {
      if i >= before { assert list[i - before] == calls[i].granted; }
      else { assert calls[n - 1].now <= calls[n - 1].granted <= calls[n].now; }
    }
  }

  // ---------------------------------------------------------------- selection and rotation

  /** The ids `int()` accepts, first occurrences in order; None is an entry `int()` rejects. */
  function UniverseOf(netuids: seq<Option<int>>): (u: seq<int>)
    ensures forall n :: n in u <==> Some(n) in netuids
  {
    if netuids == [] then []
    else
      var u := UniverseOf(netuids[..|netuids| - 1]);
      var last := netuids[|netuids| - 1];
      assert netuids == netuids[..|netuids| - 1] + [last];
      if last.None? || last.value in u then u else u + [last.value]
  }

  predicate Fresh(n: int, u: seq<int>, chosen: seq<int>) { n in u && n !in chosen }

  /** The priority pass over `priority` once `chosen` has been picked. */
  function PriorityPass(u: seq<int>, priority: seq<Option<int>>, limit: int, chosen: seq<int>): seq<int>
  {
    if priority == [] then chosen
    else
      var p := priority[0];
      if p.None? || !Fresh(p.value, u, chosen) then PriorityPass(u, priority[1..], limit, chosen)
      else if |chosen| + 1 >= limit then chosen + [p.value]
      else PriorityPass(u, priority[1..], limit, chosen + [p.value])
  }

  /** The rotation pass from step `i` on. */
  function RotationPass(u: seq<int>, offset: int, limit: int, i: nat, chosen: seq<int>): seq<int>
    requires u != []
    decreases |u| - i
  {
    if i >= |u| || |chosen| >= limit then chosen
    else
      var n := u[(offset + i) % |u|];
      RotationPass(u, offset, limit, i + 1, if n in chosen then chosen else chosen + [n])
  }

  function Batch(u: seq<int>, priority: seq<Option<int>>, limit: int, offset: int): seq<int>
    requires u != []
  {
    var chosen := PriorityPass(u, priority, limit, []);
    if |chosen| < limit then RotationPass(u, offset, limit, 0, chosen) else chosen
  }

  function NextOffset(u: seq<int>, priority: seq<Option<int>>, limit: int, offset: int): int
    requires u != []
  {
    if |PriorityPass(u, priority, limit, [])| < limit then (offset + limit) % |u| else offset
  }

  /** The module's mutable state: call timestamps and the stored rotation offset. */
  class Client {
    var timestamps: seq<real>
    var offset: int

    constructor ()
      ensures timestamps == [] && offset == 0
    {
      timestamps, offset := [], 0;
    }

    /** The call records its grant after the sleep the limiter asks for; `late` is how much later
        than asked the clock is read again. */
    method RateLimit(now: real, late: real) returns (granted: real)
      requires late >= 0.0
      modifies this`timestamps
      ensures granted == now + Wait(Pruned(old(timestamps), now), now) + late
      ensures timestamps == AfterCall(old(timestamps), Call(now, granted))
    {
      hide Pruned;
      timestamps := Prune(timestamps, now);
      granted := now + late;
      if |timestamps| >= RATE_LIMIT_CALLS_PER_MIN {
        var wait := WINDOW - (now - timestamps[0]) + MARGIN;
        if wait > 0.0 { granted := now + wait + late; }
      }
      timestamps := timestamps + [granted];
    }

    /** The ids one batch fetches; None when there is nothing to select from. */
    method SelectBatch(netuids: seq<Option<int>>, limit: int, priority: seq<Option<int>>)
      returns (selected: Option<seq<int>>)
      modifies this`offset
      ensures selected.None? <==> UniverseOf(netuids) == []
      ensures selected.None? ==> offset == old(offset)
      ensures selected.Some? ==>
              && selected.value == Batch(UniverseOf(netuids), priority, limit, old(offset))
              && offset == NextOffset(UniverseOf(netuids), priority, limit, old(offset))
    {
      hide UniverseOf, PriorityPass, RotationPass;
      var u := CollectUniverse(netuids);
      if u == [] { return None; }
      var chosen := TakePriority(u, priority, limit);
      if |chosen| < limit {
        chosen := Rotate(u, offset, limit, chosen);
        offset := (offset + limit) % |u|;
      }
      return Some(chosen);
    }
  }

  method Prune(timestamps: seq<real>, now: real) returns (kept: seq<real>)
    ensures kept == Pruned(timestamps, now)
  {
    hide Pruned;
    kept := [];
    assert timestamps[0..] == timestamps;
    PrunedFrom(timestamps, |timestamps|, now);
    for i := 0 to |timestamps|
      invariant kept + Pruned(timestamps[i..], now) == Pruned(timestamps, now)
    {
      PrunedFrom(timestamps, i, now);
      if now - timestamps[i] < WINDOW { kept := kept + [timestamps[i]]; }
    }
  }

  lemma PrunedFrom(ts: seq<real>, i: nat, now: real)
    requires i <= |ts|
    ensures Pruned(ts[i..], now) ==
            if i == |ts| then [] else (if now - ts[i] < WINDOW then [ts[i]] else []) + Pruned(ts[i + 1..], now)
  {
    if i < |ts| { assert ts[i..][1..] == ts[i + 1..]; }
  }

  method CollectUniverse(netuids: seq<Option<int>>) returns (u: seq<int>)
    ensures u == UniverseOf(netuids)
  {
    u := [];
    var i := 0;
    while i < |netuids|
      invariant 0 <= i <= |netuids| && u == UniverseOf(netuids[..i])
    {
      assert netuids[..i + 1][..i] == netuids[..i];
      if netuids[i].Some? && netuids[i].value !in u { u := u + [netuids[i].value]; }
      i := i + 1;
    }
    assert netuids[..i] == netuids;
  }

  method TakePriority(u: seq<int>, priority: seq<Option<int>>, limit: int) returns (chosen: seq<int>)
    ensures chosen == PriorityPass(u, priority, limit, [])
  {
    chosen := [];
    var i := 0;
    while i < |priority|
      invariant 0 <= i <= |priority|
      invariant PriorityPass(u, priority, limit, []) == PriorityPass(u, priority[i..], limit, chosen)
    {
      var p := priority[i];
      assert priority[i..][1..] == priority[i + 1..];
      i := i + 1;
      if p.None? || p.value !in u || p.value in chosen { continue; }
      chosen := chosen + [p.value];
      if |chosen| >= limit { return; }
    }
  }

  method Rotate(u: seq<int>, offset: int, limit: int, start: seq<int>) returns (chosen: seq<int>)
    requires u != []
    ensures chosen == RotationPass(u, offset, limit, 0, start)
  {
    chosen := start;
    for i := 0 to |u|
      invariant RotationPass(u, offset, limit, 0, start) == RotationPass(u, offset, limit, i, chosen)
    {
      if |chosen| >= limit { return; }
      var n := u[(offset + i) % |u|];
      if n !in chosen { chosen := chosen + [n]; }
    }
  }

  // ---------------------------------------------------------------- what a batch is

  ghost predicate Drawn(chosen: seq<int>, u: seq<int>) {
    Distinct(chosen) && forall n :: n in chosen ==> n in u
  }

  lemma {:induction false} UniverseIsDistinct(netuids: seq<Option<int>>)
    ensures Distinct(UniverseOf(netuids))
  {
    if netuids != [] { UniverseIsDistinct(netuids[..|netuids| - 1]); }
  }

  lemma {:induction false} PriorityPassShape(u: seq<int>, priority: seq<Option<int>>, limit: int, chosen: seq<int>)
    requires Drawn(chosen, u)
    ensures
      var r := PriorityPass(u, priority, limit, chosen);
      && Drawn(r, u) && chosen <= r
      && (forall n :: n in r && n !in chosen ==> Some(n) in priority)
      && (|r| <= |chosen| + 1 || |r| <= limit)
  {
    if priority != [] {
      var p := priority[0];
      if p.None? || !Fresh(p.value, u, chosen) {
        PriorityPassShape(u, priority[1..], limit, chosen);
      } else {
        assert Drawn(chosen + [p.value], u);
        if |chosen| + 1 < limit {
          PriorityPassShape(u, priority[1..], limit, chosen + [p.value]);
        }
      }
    }
  }

  /** The pass adds nothing exactly when no priority id is usable, and leaves a usable one out only
      when it has filled the limit. */
  lemma {:induction false} PriorityPassTakesAll(u: seq<int>, priority: seq<Option<int>>, limit: int, chosen: seq<int>)
    requires Drawn(chosen, u)
    ensures
      var r := PriorityPass(u, priority, limit, chosen);
      && (r == chosen <==> forall n :: Some(n) in priority ==> !Fresh(n, u, chosen))
      && (|r| < limit ==> forall n :: Some(n) in priority && n in u ==> n in r)
  {
    if priority != [] {
      var p, tail := priority[0], priority[1..];
      var more := if p.None? || !Fresh(p.value, u, chosen) then chosen else chosen + [p.value];
      assert forall n :: Some(n) in priority <==> p == Some(n) || Some(n) in tail;
      assert Drawn(more, u);
      PriorityPassShape(u, tail, limit, more);
      PriorityPassTakesAll(u, tail, limit, more);
      if more != chosen {
        assert Some(p.value) in priority && p.value in more;
      }
    }
  }

  lemma {:induction false} RotationPassShape(u: seq<int>, offset: int, limit: int, i: nat, chosen: seq<int>)
    requires u != [] && Drawn(chosen, u)
    ensures
      var r := RotationPass(u, offset, limit, i, chosen);
      Drawn(r, u) && chosen <= r && (|r| <= |chosen| || |r| <= limit)
    decreases |u| - i
  {
    if i < |u| && |chosen| < limit {
      var n := u[(offset + i) % |u|];
      var more := if n in chosen then chosen else chosen + [n];
      assert Drawn(more, u);
      RotationPassShape(u, offset, limit, i + 1, more);
    }
  }

  /** Every batch holds distinct ids of the universe and starts with the usable priority ids; it
      stays within a limit of zero or more exactly when the limit is at least one or no priority
      id is usable. */
  lemma BatchShape(u: seq<int>, priority: seq<Option<int>>, limit: int, offset: int)
    requires u != []
    ensures
      var b := Batch(u, priority, limit, offset);
      && Drawn(b, u) && PriorityPass(u, priority, limit, []) <= b
      && (limit >= 0 ==> (|b| <= limit <==> limit >= 1 || forall n :: Some(n) in priority ==> n !in u))
      && (|PriorityPass(u, priority, limit, [])| < limit ==>
            forall n :: Some(n) in priority && n in u ==> n in b)
  {
    PriorityPassShape(u, priority, limit, []);
    PriorityPassTakesAll(u, priority, limit, []);
    var chosen := PriorityPass(u, priority, limit, []);
    RotationPassShape(u, offset, limit, 0, chosen);
    assert forall n :: Fresh(n, u, []) <==> n in u;
  }

  /** The universe keeps the order of first mention: reading on only adds at its end. */
  lemma {:induction false} UniverseGrowsAtTheEnd(netuids: seq<Option<int>>, k: nat)
    requires k <= |netuids|
    ensures UniverseOf(netuids[..k]) <= UniverseOf(netuids)
    decreases |netuids|
  {
    if k < |netuids| {
      var before := netuids[..|netuids| - 1];
      UniverseGrowsAtTheEnd(before, k);
      assert before[..k] == netuids[..k];
    } else {
      assert netuids[..k] == netuids;
    }
  }

  /** So do the priority ids: what the first of them select comes first. */
  lemma {:induction false} PriorityGrowsAtTheEnd(u: seq<int>, priority: seq<Option<int>>, limit: int, chosen: seq<int>,
                                                 k: nat)
    requires k <= |priority| && Drawn(chosen, u)
    ensures PriorityPass(u, priority[..k], limit, chosen) <= PriorityPass(u, priority, limit, chosen)
    decreases |priority|
  {
    if k == 0 {
      PriorityPassShape(u, priority, limit, chosen);
    } else {
      var p, first := priority[0], priority[..k];
      assert first[0] == p && first[1..] == priority[1..][..k - 1];
      if p.None? || !Fresh(p.value, u, chosen) {
        PriorityGrowsAtTheEnd(u, priority[1..], limit, chosen, k - 1);
      } else if |chosen| + 1 < limit {
        assert Drawn(chosen + [p.value], u);
        PriorityGrowsAtTheEnd(u, priority[1..], limit, chosen + [p.value], k - 1);
      }
    }
  }

  /** The ids at the rotation's steps below `i`. */
  ghost predicate Passed(u: seq<int>, offset: int, i: nat, chosen: seq<int>)
    requires u != []
  {
    forall k :: 0 <= k < i ==> AtStep(u, offset, k) in chosen
  }

  function AtStep(u: seq<int>, offset: int, k: int): int
    requires u != []
  {
    u[(offset + k) % |u|]
  }

  /** The rotation goes on until the limit is reached or every step has been taken. */
  lemma {:induction false} RotationFills(u: seq<int>, offset: int, limit: int, i: nat, chosen: seq<int>)
    requires u != [] && i <= |u| && Passed(u, offset, i, chosen)
    ensures
      var r := RotationPass(u, offset, limit, i, chosen);
      |r| >= limit || Passed(u, offset, |u|, r)
    decreases |u| - i
  {
    if i < |u| && |chosen| < limit {
      var n := u[(offset + i) % |u|];
      assert AtStep(u, offset, i) == n;
      RotationFills(u, offset, limit, i + 1, if n in chosen then chosen else chosen + [n]);
    }
  }

  lemma EveryStepIsEveryId(u: seq<int>, offset: int, r: seq<int>, n: int)
    requires u != [] && n in u && Passed(u, offset, |u|, r)
    ensures n in r
  {
    var t :| 0 <= t < |u| && u[t] == n;
    var d := Distance(|u|, offset, t);
    assert AtStep(u, offset, d) in r;
  }

  lemma {:induction false} DrawnCounts(r: seq<int>, u: seq<int>)
    requires Distinct(r) && Distinct(u)
    ensures (forall n :: n in r ==> n in u) ==> |r| <= |u|
    ensures (forall n :: n in u ==> n in r) ==> |u| <= |r|
  {
    DistinctSize(r);
    DistinctSize(u);
    if forall n :: n in r ==> n in u { SubsetSize(Members(r), Members(u)); }
    if forall n :: n in u ==> n in r { SubsetSize(Members(u), Members(r)); }
  }

  lemma {:induction false} DistinctSize(s: seq<int>)
    requires Distinct(s)
    ensures |Members(s)| == |s|
  {
    if s != [] {
      DistinctSize(s[..|s| - 1]);
      PrefixMembers(s, |s| - 1);
      assert s[..|s| - 1 + 1] == s;
    }
  }

  lemma {:induction false} SubsetSize(a: set<int>, b: set<int>)
    requires a <= b
    ensures |a| <= |b|
  {
    if a != {} {
      var x := SomeMember(a);
      SubsetSize(a - {x}, b - {x});
    }
  }

  /** Every batch is filled up: with priority ids or without, it has as many ids as the limit and the
      universe allow. */
  lemma BatchIsFull(u: seq<int>, priority: seq<Option<int>>, limit: int, offset: int)
    requires u != [] && Distinct(u) && limit >= 1
    ensures |Batch(u, priority, limit, offset)| == Min(limit, |u|)
  {
    var b := Batch(u, priority, limit, offset);
    BatchShape(u, priority, limit, offset);
    DrawnCounts(b, u);
    var chosen := PriorityPass(u, priority, limit, []);
    if |chosen| < limit {
      RotationFills(u, offset, limit, 0, chosen);
      hide RotationPass, PriorityPass;
      if |b| < limit {
        forall n | n in u ensures n in b { EveryStepIsEveryId(u, offset, b, n); }
      }
    }
  }

  // ---------------------------------------------------------------- coverage

  lemma ModShift(a: int, b: int, m: int)
    requires m > 0
    ensures (a % m + b) % m == (a + b) % m
  {
    var q := a / m;
    assert a == q * m + a % m;
    ModMultiple(a % m + b, q, m);
  }

  lemma ModMultiple(x: int, q: int, m: int)
    requires m > 0
    ensures (x + q * m) % m == x % m
  {
    var k := x / m;
    assert x + q * m == (k + q) * m + x % m;
    ModUnique(x + q * m, k + q, x % m, m);
  }

  lemma ModUnique(a: int, q: int, r: int, m: int)
    requires m > 0 && 0 <= r < m && a == q * m + r
    ensures a % m == r
  {
    var d := a / m - q;
    assert d * m == r - a % m;
    SmallMultiple(d, m);
  }

  /** The only multiple of `m` strictly between -m and m is zero. */
  lemma SmallMultiple(d: int, m: int)
    requires m > 0
    ensures d >= 1 ==> d * m >= m
    ensures d <= -1 ==> d * m <= -m
  {
  }

  lemma SmallModDistinct(o: int, i: int, j: int, m: int)
    requires 0 <= i < j < m
    ensures (o + i) % m != (o + j) % m
  {
    var q := (o + j) / m - (o + i) / m;
    assert q * m == j - i + (o + i) % m - (o + j) % m;
    SmallMultiple(q, m);
  }

  /** The ids at `limit` successive positions from the offset, wrapping around. */
  ghost predicate IsWindow(u: seq<int>, offset: int, chosen: seq<int>) {
    && |chosen| <= |u|
    && forall k :: 0 <= k < |chosen| ==> chosen[k] == u[(offset + k) % |u|]
  }

  lemma {:induction false} RotationIsWindow(u: seq<int>, offset: int, limit: int, i: nat, chosen: seq<int>)
    requires u != [] && Distinct(u) && i <= |u| && |chosen| == i && IsWindow(u, offset, chosen) && i <= limit
    ensures IsWindow(u, offset, RotationPass(u, offset, limit, i, chosen))
    ensures |RotationPass(u, offset, limit, i, chosen)| == Min(limit, |u|)
    decreases |u| - i
  {
    if i < |u| && i < limit {
      var n := u[(offset + i) % |u|];
      forall k | 0 <= k < i ensures chosen[k] != n {
        SmallModDistinct(offset, k, i, |u|);
      }
      assert IsWindow(u, offset, chosen + [n]);
      RotationIsWindow(u, offset, limit, i + 1, chosen + [n]);
    }
  }

  /** The offset after `j` batches without priority ids. */
  function OffsetAfter(u: seq<int>, limit: int, offset: int, j: nat): int
    requires u != []
  {
    if j == 0 then offset else NextOffset(u, [], limit, OffsetAfter(u, limit, offset, j - 1))
  }

  lemma {:induction false} OffsetAdvances(u: seq<int>, limit: int, offset: int, j: nat, i: int)
    requires u != [] && limit >= 1
    ensures (OffsetAfter(u, limit, offset, j) + i) % |u| == (offset + j * limit + i) % |u|
  {
    if j > 0 {
      var o := OffsetAfter(u, limit, offset, j - 1);
      ModShift(o + limit, i, |u|);
      OffsetAdvances(u, limit, offset, j - 1, limit + i);
      assert (j - 1) * limit + (limit + i) == j * limit + i;
    }
  }

  /** How far past the offset the id at position `t` lies, split into whole batches and a rest. */
  lemma DistanceSplits(m: int, offset: int, t: int, limit: int, batches: nat) returns (j: nat, i: nat)
    requires 0 <= t < m && limit >= 1 && batches * limit >= m
    ensures j < batches && i < Min(limit, m) && (offset + j * limit + i) % m == t
  {
    var d := Distance(m, offset, t);
    j, i := DivMod(d, limit);
    MulMonotone(batches, j, limit);
    MulMonotone(0, j, limit);
    assert offset + j * limit + i == offset + d;
  }

  lemma Distance(m: int, offset: int, t: int) returns (d: nat)
    requires 0 <= t < m
    ensures d < m && (offset + d) % m == t
  {
    d := (t - offset) % m;
    var q := (t - offset) / m;
    assert offset + d == -q * m + t;
    ModUnique(offset + d, -q, t, m);
  }

  lemma DivMod(d: nat, limit: int) returns (j: nat, i: nat)
    requires limit >= 1
    ensures d == j * limit + i && i < limit
  {
    j, i := d / limit, d % limit;
  }

  lemma MulMonotone(a: int, b: int, m: int)
    requires m >= 0
    ensures a <= b ==> a * m <= b * m
  {
  }

  /** Coverage: without priority ids, successive batches that together have room for the universe
      select every id of it. */
  lemma EveryIdIsSelected(u: seq<int>, limit: int, offset: int, batches: nat, n: int)
    requires u != [] && Distinct(u) && limit >= 1 && batches * limit >= |u| && n in u
    ensures exists j :: 0 <= j < batches && n in Batch(u, [], limit, OffsetAfter(u, limit, offset, j))
  {
    hide RotationPass, OffsetAfter;
    var t :| 0 <= t < |u| && u[t] == n;
    var j, i := DistanceSplits(|u|, offset, t, limit, batches);
    var o := OffsetAfter(u, limit, offset, j);
    OffsetAdvances(u, limit, offset, j, i);
    RotationIsWindow(u, o, limit, 0, []);
    assert Batch(u, [], limit, o)[i] == n;
  }
}
