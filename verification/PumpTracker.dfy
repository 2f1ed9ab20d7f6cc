/** The pump-cycle tracker: Page CUSUM evidence, its adaptive drift, and the six-phase cycle ledger. */
module PumpTracker {
  import opened Prelude

  const LOOKBACK := 20
  const CUSUM_K := 0.5
  const PARABOLIC_ATR := 2.0
  const MAX_SNAPSHOTS := 600
  const MAX_CYCLES := 50

  datatype Phase = Accumulation | Markup | Parabolic | Distribution | Decline | ReAccumulation

  predicate Quiet(p: Phase) { p.Accumulation? || p.ReAccumulation? }
  predicate Pumping(p: Phase) { p.Markup? || p.Parabolic? }

  datatype Snapshot = Snapshot(price: real, volume: real, ret: real)
  datatype CusumState = CusumState(cusum: real, k: real, threshold: real, parabolic: bool, recent: seq<real>)

  /** The cycle in progress: phases left so far, where the pump leg began, and what it reached. */
  datatype Progress = Progress(phases: seq<Phase>, start: Option<nat>, peak: Option<real>, magnitude: real)
  datatype PhaseState = PhaseState(phase: Phase, progress: Progress)
  datatype Cycle = Cycle(id: nat, phases: seq<Phase>, magnitude: real, depth: real)

  const NEW_CUSUM := CusumState(0.0, CUSUM_K, 1.0, false, [])
  const NEW_PROGRESS := Progress([], None, None, 0.0)

  /** All the tracker holds about one subnet. */
  datatype Subnet = Subnet(history: seq<Snapshot>, cusum: Option<CusumState>,
                           phase: Option<PhaseState>, cycles: seq<Cycle>)

  const UNSEEN := Subnet([], None, None, [])

  // ---------------------------------------------------------------- arithmetic over a window

  function LastN<T>(s: seq<T>, n: nat): (r: seq<T>)
    ensures |r| == Min(|s|, n) && r == s[|s| - |r|..]
  {
    if |s| <= n then s else s[|s| - n..]
  }

  function Sum(s: seq<real>): real { if s == [] then 0.0 else Sum(s[..|s| - 1]) + s[|s| - 1] }
  function Mean(s: seq<real>): real { if s == [] then 0.0 else Sum(s) / |s| as real }
  function Abs(x: real): real { if x < 0.0 then -x else x }

  function Greatest(s: seq<real>): (m: real)
    requires s != []
    ensures m in s && forall x :: x in s ==> x <= m
  {
    if |s| == 1 then s[0]
    else
      assert s == s[..|s| - 1] + [s[|s| - 1]];
      MaxReal(Greatest(s[..|s| - 1]), s[|s| - 1])
  }

  function Smallest(s: seq<real>): (m: real)
    requires s != []
    ensures m in s && forall x :: x in s ==> m <= x
  {
    if |s| == 1 then s[0]
    else
      assert s == s[..|s| - 1] + [s[|s| - 1]];
      var m := Smallest(s[..|s| - 1]);
      if s[|s| - 1] < m then s[|s| - 1] else m
  }

  /** Sample standard deviation, by what it squares to. */
  predicate IsStd(s: seq<real>, sigma: real) {
    && sigma >= 0.0
    && if |s| < 2 then sigma == 0.0
       else
         var squares := seq(|s|, i requires 0 <= i < |s| => (s[i] - Mean(s)) * (s[i] - Mean(s)));
         sigma * sigma == Sum(squares) / (|s| - 1) as real
  }

  function InsertReal(x: real, s: seq<real>): (r: seq<real>)
    ensures multiset(r) == multiset(s) + multiset{x}
  {
    if s == [] || x <= s[0] then [x] + s
    else
      assert s == [s[0]] + s[1..];
      [s[0]] + InsertReal(x, s[1..])
  }

  function SortReals(s: seq<real>): (r: seq<real>)
    ensures multiset(r) == multiset(s) && |r| == |s|
  {
    if s == [] then []
    else
      assert s == [s[0]] + s[1..];
      var r := InsertReal(s[0], SortReals(s[1..]));
      assert |multiset(r)| == |multiset(s)|;
      r
  }

  /** So many twentieths of the way from one value to the next. */
  function Interpolated(a: real, b: real, twentieths: int): real { a + (b - a) * (twentieths as real / 20.0) }

  /** The 95th percentile, interpolated between neighbours in order. */
  function Percentile95(values: seq<real>): real {
    if values == [] then 0.0
    else
      var s := SortReals(values);
      var rank := 19 * (|s| - 1);
      var lo, rest := rank / 20, rank % 20;
      if rest == 0 then s[lo] else Interpolated(s[lo], s[lo + 1], rest)
  }

  function Positives(s: seq<real>): (r: seq<real>)
    ensures forall x :: x in r <==> x in s && x > 0.0
  {
    if s == [] then [] else (if s[0] > 0.0 then [s[0]] else []) + Positives(s[1..])
  }

  /** The evidence that counts as a pump, from the evidence of the last sixty updates. */
  function Threshold(recent: seq<real>): (t: real)
    ensures t >= 1.0
  {
    MaxReal(if Positives(recent) != [] then Percentile95(Positives(recent)) else 1.0, 1.0)
  }

  ghost predicate RealsAscend(s: seq<real>) { forall i, j :: 0 <= i < j < |s| ==> s[i] <= s[j] }

  lemma {:induction false} InsertRealAscends(x: real, s: seq<real>)
    requires RealsAscend(s)
    ensures RealsAscend(InsertReal(x, s))
  {
    if s != [] && x > s[0] {
      InsertRealAscends(x, s[1..]);
      var r := InsertReal(x, s[1..]);
      forall j | 0 <= j < |r| ensures s[0] <= r[j] {
        assert r[j] in multiset(r);
        assert r[j] == x || r[j] in s[1..];
      }
    }
  }

  lemma {:induction false} SortRealsAscends(s: seq<real>)
    ensures RealsAscend(SortReals(s))
  {
    if s != [] {
      SortRealsAscends(s[1..]);
      InsertRealAscends(s[0], SortReals(s[1..]));
    }
  }

  lemma Between(a: real, b: real, twentieths: int)
    requires a <= b && 0 <= twentieths <= 20
    ensures a <= Interpolated(a, b, twentieths) <= b
  {
    var f := twentieths as real / 20.0;
    NonNegativeProduct(b - a, f);
    NonNegativeProduct(b - a, 1.0 - f);
  }

  lemma NonNegativeProduct(x: real, y: real)
    requires x >= 0.0 && y >= 0.0
    ensures x * y >= 0.0
  {
  }

  /** The percentile lies between two values that are neighbours in order, no more than a twentieth of
      the others being above the upper one and no less above the lower one. */
  lemma PercentileIsNearTheTop(values: seq<real>) returns (s: seq<real>, lo: nat, hi: nat)
    requires values != []
    ensures multiset(s) == multiset(values) && RealsAscend(s)
    ensures lo <= hi < |s| && hi <= lo + 1 && s[lo] <= Percentile95(values) <= s[hi]
    ensures 20 * (|s| - 1 - hi) <= |s| - 1 <= 20 * (|s| - 1 - lo)
  {
    s := SortReals(values);
    SortRealsAscends(values);
    hide SortReals;
    var rest: nat;
    lo, rest := NineteenTwentieths(|s| - 1);
    hi := if rest == 0 then lo else lo + 1;
    assert s[lo] <= s[hi];
    Between(s[lo], s[hi], rest);
    hide Interpolated;
  }

  lemma NineteenTwentieths(n: nat) returns (lo: nat, rest: nat)
    ensures lo == 19 * n / 20 && rest == 19 * n % 20
    ensures rest < 20 && 20 * lo + rest == 19 * n && (rest != 0 ==> lo < n)
  {
    lo, rest := 19 * n / 20, 19 * n % 20;
  }

  function Returns(h: seq<Snapshot>): (r: seq<real>)
    ensures |r| == Min(|h|, LOOKBACK)
  {
    var w := LastN(h, LOOKBACK);
    seq(|w|, i requires 0 <= i < |w| => w[i].ret)
  }

  function Volumes(h: seq<Snapshot>): (r: seq<real>)
    ensures |r| == Min(|h|, LOOKBACK)
  {
    var w := LastN(h, LOOKBACK);
    seq(|w|, i requires 0 <= i < |w| => w[i].volume)
  }

  function Prices(h: seq<Snapshot>): (r: seq<real>)
    ensures |r| == |h|
  {
    seq(|h|, i requires 0 <= i < |h| => h[i].price)
  }

  /** The returns whose spread scales the latest one. */
  function SpreadWindow(h: seq<Snapshot>): seq<real> {
    var w := Returns(h);
    if |w| > 2 then w[..|w| - 1] else w
  }

  function ZReturn(h: seq<Snapshot>, sigma: real): real
    requires |h| >= 2
  {
    var w := Returns(h);
    if sigma <= 0.0 then 0.0 else (w[|w| - 1] - Mean(w[..|w| - 1])) / sigma
  }

  function VolumeFactor(h: seq<Snapshot>): (f: real)
    requires |h| >= 2
    ensures 0.0 <= f <= 10.0
  {
    var v := Volumes(h);
    var avg := Mean(v[..|v| - 1]);
    var f := if avg > 0.0 then v[|v| - 1] / avg else 1.0;
    if f < 0.0 then 0.0 else if f > 10.0 then 10.0 else f
  }

  function Sizes(s: seq<real>): seq<real> { seq(|s|, i requires 0 <= i < |s| => Abs(s[i])) }

  predicate IsParabolic(h: seq<Snapshot>)
    requires |h| >= 2
  {
    var w := Returns(h);
    var usual := Mean(Sizes(w[..|w| - 1]));
    usual > 0.0 && Abs(w[|w| - 1]) / usual > PARABOLIC_ATR
  }

  /** The relative change from one price to another. */
  function Change(from: real, to: real): real
    requires from != 0.0
  {
    (to - from) / from
  }

  /** What one update adds to the evidence before the cut at zero. */
  function Increment(h: seq<Snapshot>, k: real, sigma: real): real
    requires |h| >= 2
  {
    ZReturn(h, sigma) * VolumeFactor(h) - k
  }

  // ---------------------------------------------------------------- one subnet's steps

  /** The rolling history with one more observation. */
  function Extended(h: seq<Snapshot>, price: real, volume: real): seq<Snapshot> {
    var ret := if h != [] && h[|h| - 1].price > 0.0 then Change(h[|h| - 1].price, price) else 0.0;
    LastN(h + [Snapshot(price, volume, ret)], MAX_SNAPSHOTS)
  }

  function Recorded(s: Subnet, price: Option<real>, volume: real): Subnet
  {
    if price.None? then s
    else
      Subnet(Extended(s.history, price.value, volume),
             if s.cusum.None? then Some(NEW_CUSUM) else s.cusum,
             if s.phase.None? then Some(PhaseState(Accumulation, NEW_PROGRESS)) else s.phase,
             s.cycles)
  }

  function CusumOf(s: Subnet): CusumState { if s.cusum.Some? then s.cusum.value else NEW_CUSUM }

  function NextCusum(st: CusumState, h: seq<Snapshot>, sigma: real): CusumState
    requires |h| >= 2
  {
    var c := MaxReal(0.0, st.cusum + Increment(h, st.k, sigma));
    var recent := LastN(st.recent + [c], 3 * LOOKBACK);
    CusumState(c, st.k, Threshold(recent), IsParabolic(h), recent)
  }

  function Updated(s: Subnet, sigma: real): Subnet
  {
    if |s.history| < 2 then s else s.(cusum := Some(NextCusum(CusumOf(s), s.history, sigma)))
  }

  /** The drift after an adaptation; a score of zero reads as 0.5. */
  function AdaptedK(k: real, score: real): real
  {
    var read := if score == 0.0 then 0.5 else score;
    if read < 0.4 then MaxReal(0.2, k - 0.1)
    else if read > 0.7 then (if k + 0.05 < CUSUM_K then k + 0.05 else CUSUM_K)
    else k
  }

  function Adapted(s: Subnet, predictions: int, score: real): Subnet
  {
    if predictions < 10 then s
    else s.(cusum := Some(CusumOf(s).(k := AdaptedK(CusumOf(s).k, score))))
  }

  predicate Rising(h: seq<Snapshot>) { |h| >= 2 && h[|h| - 1].price > h[|h| - 2].price }

  predicate Falling(h: seq<Snapshot>) { |h| >= 2 && h[|h| - 1].price < h[|h| - 2].price }

  predicate NearPeak(h: seq<Snapshot>)
    requires h != []
  {
    var top := Greatest(Prices(LastN(h, LOOKBACK)));
    top > 0.0 && h[|h| - 1].price >= top * 0.97
  }

  predicate Flat(h: seq<Snapshot>)
    requires h != []
  {
    var prices := Prices(LastN(h, LOOKBACK));
    var top, bottom := Greatest(prices), Smallest(prices);
    top <= 0.0 || top - bottom <= 0.0 || (top - bottom) / top < 0.01
  }

  function Classify(h: seq<Snapshot>, st: CusumState, current: Phase): Phase
    requires h != []
  {
    var resting := if current.Decline? || current.Distribution? then ReAccumulation else Accumulation;
    if st.parabolic && st.cusum > st.threshold * 0.8 then Parabolic
    else if st.cusum > st.threshold && Rising(h) then Markup
    else if NearPeak(h) && st.cusum >= st.threshold * 0.6 && !Rising(h) then Distribution
    else if Falling(h) && st.cusum < st.threshold * 0.5 then Decline
    else if Flat(h) && st.cusum < 0.5 then resting
    else if st.cusum < 0.5 && !Rising(h) then resting
    else current
  }

  /** No evidence for any active phase, and little evidence at all. */
  predicate Rests(h: seq<Snapshot>, st: CusumState)
    requires h != []
  {
    && (st.parabolic ==> st.cusum <= st.threshold * 0.8)
    && (Rising(h) ==> st.cusum <= st.threshold)
    && (NearPeak(h) && !Rising(h) ==> st.cusum < st.threshold * 0.6)
    && (Falling(h) ==> st.cusum >= st.threshold * 0.5)
    && st.cusum < 0.5 && (Flat(h) || !Rising(h))
  }

  /** The open cycle once `left` has been left for `next`, before it is possibly closed. */
  function Advanced(g: Progress, h: seq<Snapshot>, left: Phase, next: Phase): Progress
  {
    var g1 := if g.phases == [] || g.phases[|g.phases| - 1] != left then g.(phases := g.phases + [left]) else g;
    var g2 := if Pumping(left) && (next.Distribution? || next.Decline?)
                 && g1.start.Some? && g1.start.value < |h| then
                var leg := Prices(h[g1.start.value..]);
                g1.(peak := Some(Greatest(leg)),
                    magnitude := if leg[0] > 0.0 then Change(leg[0], Greatest(leg)) * 100.0 else 0.0)
              else g1;
    if Pumping(next) && !Pumping(left) then g2.(start := Some(if |h| == 0 then 0 else |h| - 1)) else g2
  }

  function Depth(g: Progress, h: seq<Snapshot>): real {
    if h != [] && g.peak.Some? && g.peak.value != 0.0
    then Change(g.peak.value, h[|h| - 1].price) * 100.0 else 0.0
  }

  /** The stored cycles once the open one is closed. */
  function WithCycle(done: seq<Cycle>, g: Progress, h: seq<Snapshot>): seq<Cycle> {
    LastN(done + [Cycle(|done| + 1, g.phases, g.magnitude, Depth(g, h))], MAX_CYCLES)
  }

  predicate Closes(g: Progress, next: Phase) { Quiet(next) && Decline in g.phases }

  function Transitioned(s: Subnet, next: Phase): Subnet
  {
    if s.phase.None? || s.phase.value.phase == next then s
    else
      var g := Advanced(s.phase.value.progress, s.history, s.phase.value.phase, next);
      if Closes(g, next) then
        s.(phase := Some(PhaseState(next, NEW_PROGRESS)), cycles := WithCycle(s.cycles, g, s.history))
      else
        s.(phase := Some(PhaseState(next, g)))
  }

  /** The phase a detection finds; the subnet unknown to some table reads as accumulating. */
  predicate Detectable(s: Subnet) { s.history != [] && s.cusum.Some? && s.phase.Some? }

  function Detected(s: Subnet): Phase {
    if Detectable(s) then Classify(s.history, s.cusum.value, s.phase.value.phase) else Accumulation
  }

  // ---------------------------------------------------------------- the tracker

  class Tracker {
    var snapshots: map<int, seq<Snapshot>>
    var cusumState: map<int, CusumState>
    var phaseState: map<int, PhaseState>
    var cycles: map<int, seq<Cycle>>

    constructor ()
      ensures forall n :: View(n) == UNSEEN
    {
      snapshots, cusumState, phaseState, cycles := map[], map[], map[], map[];
    }

    function View(n: int): Subnet
      reads this
    {
      Subnet(if n in snapshots then snapshots[n] else [],
             if n in cusumState then Some(cusumState[n]) else None,
             if n in phaseState then Some(phaseState[n]) else None,
             if n in cycles then cycles[n] else [])
    }

    twostate predicate OnlyTouches(n: int)
      reads this
    {
      forall m :: m != n ==> View(m) == old(View(m))
    }

    method RecordPriceSnapshot(n: int, price: Option<real>, volume: real)
      modifies this
      ensures View(n) == Recorded(old(View(n)), price, volume) && OnlyTouches(n)
    {
      hide Extended;
      if price.None? { return; }
      var hist := if n in snapshots then snapshots[n] else [];
      hist := Extend(hist, price.value, volume);
      snapshots := snapshots[n := hist];
      if n !in cusumState { cusumState := cusumState[n := NEW_CUSUM]; }
      if n !in phaseState { phaseState := phaseState[n := PhaseState(Accumulation, NEW_PROGRESS)]; }
    }

    /** `sigma` is the standard deviation of the window. */
    method UpdateCusum(n: int, sigma: real)
      requires IsStd(SpreadWindow(View(n).history), sigma)
      modifies this`cusumState
      ensures View(n) == Updated(old(View(n)), sigma) && OnlyTouches(n)
    {
      hide NextCusum, IsStd, SpreadWindow;
      if n !in snapshots || |snapshots[n]| < 2 { return; }
      var next := Accumulate(if n in cusumState then cusumState[n] else NEW_CUSUM, snapshots[n], sigma);
      cusumState := cusumState[n := next];
    }

    method AdaptParameters(n: int, predictions: int, score: real)
      modifies this`cusumState
      ensures View(n) == Adapted(old(View(n)), predictions, score) && OnlyTouches(n)
    {
      if predictions < 10 { return; }
      var accuracy := if score == 0.0 then 0.5 else score;
      if n !in cusumState { cusumState := cusumState[n := NEW_CUSUM]; }
      var st := cusumState[n];
      if accuracy < 0.4 {
        cusumState := cusumState[n := st.(k := MaxReal(0.2, st.k - 0.1))];
      } else if accuracy > 0.7 {
        var k := if st.k + 0.05 < CUSUM_K then st.k + 0.05 else CUSUM_K;
        if k != st.k { cusumState := cusumState[n := st.(k := k)]; }
      }
    }

    method DetectPhase(n: int) returns (phase: Phase)
      modifies this`phaseState, this`cycles
      ensures phase == Detected(old(View(n)))
      ensures View(n) == (if Detectable(old(View(n))) then Transitioned(old(View(n)), phase) else old(View(n)))
      ensures OnlyTouches(n)
    {
      if n !in snapshots || snapshots[n] == [] || n !in cusumState || n !in phaseState { return Accumulation; }
      phase := Classify(snapshots[n], cusumState[n], phaseState[n].phase);
      TransitionPhase(n, phase);
    }

    method TransitionPhase(n: int, next: Phase)
      modifies this`phaseState, this`cycles
      ensures View(n) == Transitioned(old(View(n)), next) && OnlyTouches(n)
    {
      hide Advanced, WithCycle;
      if n !in phaseState { return; }
      var left := phaseState[n].phase;
      if next != left {
        OnPhaseChange(n, left, next);
        phaseState := phaseState[n := phaseState[n].(phase := next)];
      }
    }

    method OnPhaseChange(n: int, left: Phase, next: Phase)
      requires n in phaseState
      modifies this`phaseState, this`cycles
      ensures
        var was := old(View(n));
        var g := Advanced(was.phase.value.progress, was.history, left, next);
        && phaseState ==
           old(phaseState)[n := PhaseState(was.phase.value.phase, if Closes(g, next) then NEW_PROGRESS else g)]
        && cycles == if Closes(g, next) then old(cycles)[n := WithCycle(was.cycles, g, was.history)] else old(cycles)
    {
      hide Change, Prices, Greatest, WithCycle;
      var g := phaseState[n].progress;
      ghost var was := View(n);
      var hist := if n in snapshots then snapshots[n] else [];
      if g.phases == [] || g.phases[|g.phases| - 1] != left { g := g.(phases := g.phases + [left]); }
      if Pumping(left) && (next == Distribution || next == Decline) && hist != [] && g.start.Some? {
        if g.start.value < |hist| {
          var leg := Prices(hist[g.start.value..]);
          var start, peak := leg[0], Greatest(leg);
          g := g.(peak := Some(peak), magnitude := if start > 0.0 then Change(start, peak) * 100.0 else 0.0);
        }
      }
      if Pumping(next) && !Pumping(left) {
        g := g.(start := Some(if |hist| == 0 then 0 else |hist| - 1));
      }
      assert g == Advanced(was.phase.value.progress, was.history, left, next) by { hide OnlyTouches; }
      hide Advanced;
      if Quiet(next) && Decline in g.phases {
        CloseCycle(n, g);
        g := NEW_PROGRESS;
      }
      phaseState := phaseState[n := phaseState[n].(progress := g)];
    }

    method CloseCycle(n: int, g: Progress)
      modifies this`cycles
      ensures cycles == old(cycles)[n := WithCycle(old(View(n)).cycles, g, old(View(n)).history)]
    {
      hide Change;
      var done := if n in cycles then cycles[n] else [];
      var hist := if n in snapshots then snapshots[n] else [];
      var depth := 0.0;
      if hist != [] && g.peak.Some? && g.peak.value != 0.0 {
        depth := Change(g.peak.value, hist[|hist| - 1].price) * 100.0;
      }
      done := done + [Cycle(|done| + 1, g.phases, g.magnitude, depth)];
      if |done| > MAX_CYCLES { done := LastN(done, MAX_CYCLES); }
      cycles := cycles[n := done];
    }
  }

  method Accumulate(st: CusumState, hist: seq<Snapshot>, sigma: real) returns (next: CusumState)
    requires |hist| >= 2
    ensures next == NextCusum(st, hist, sigma)
  {
    hide Increment, IsParabolic, Threshold;
    var c := st.cusum + Increment(hist, st.k, sigma);
    if c < 0.0 { c := 0.0; }
    var recent := st.recent + [c];
    if |recent| > 3 * LOOKBACK { recent := LastN(recent, 3 * LOOKBACK); }
    next := CusumState(c, st.k, Threshold(recent), IsParabolic(hist), recent);
  }

  method Extend(hist: seq<Snapshot>, price: real, volume: real) returns (next: seq<Snapshot>)
    ensures next == Extended(hist, price, volume)
  {
    hide Change;
    var ret := 0.0;
    if |hist| > 0 && hist[|hist| - 1].price > 0.0 { ret := Change(hist[|hist| - 1].price, price); }
    next := hist + [Snapshot(price, volume, ret)];
    if |next| > MAX_SNAPSHOTS { next := next[|next| - MAX_SNAPSHOTS..]; }
  }

  // ---------------------------------------------------------------- runs of one subnet

  /** Any step of the scheduler for a subnet; `Enter` is a transition to whatever phase was detected. */
  datatype Op =
    | Record(price: Option<real>, volume: real)
    | Update(sigma: real)
    | Adapt(predictions: int, score: real)
    | Enter(phase: Phase)

  function Apply(s: Subnet, op: Op): Subnet {
    match op
    case Record(price, volume) => Recorded(s, price, volume)
    case Update(sigma) => Updated(s, sigma)
    case Adapt(predictions, score) => Adapted(s, predictions, score)
    case Enter(phase) => Transitioned(s, phase)
  }

  function After(ops: seq<Op>): Subnet {
    if ops == [] then UNSEEN else Apply(After(ops[..|ops| - 1]), ops[|ops| - 1])
  }

  // ---------------------------------------------------------------- evidence

  /** The increments of all effective updates, in order. */
  function Increments(ops: seq<Op>): seq<real>
  {
    if ops == [] then []
    else
      var was, op := After(ops[..|ops| - 1]), ops[|ops| - 1];
      Increments(ops[..|ops| - 1]) +
      (if op.Update? && |was.history| >= 2 then [Increment(was.history, CusumOf(was).k, op.sigma)] else [])
  }

  ghost predicate IsBestSuffix(c: real, xs: seq<real>) {
    && (forall i :: 0 <= i <= |xs| ==> Sum(xs[i..]) <= c)
    && (exists i :: 0 <= i <= |xs| && c == Sum(xs[i..]))
  }

  lemma BestSuffixStep(c: real, xs: seq<real>, x: real)
    requires IsBestSuffix(c, xs)
    ensures IsBestSuffix(MaxReal(0.0, c + x), xs + [x])
  {
    var ys := xs + [x];
    forall i | 0 <= i <= |xs| ensures Sum(ys[i..]) == Sum(xs[i..]) + x {
      assert ys[i..][..|ys[i..]| - 1] == xs[i..];
    }
    assert ys[|ys|..] == [];
    var best :| 0 <= best <= |xs| && c == Sum(xs[best..]);
    assert Sum(ys[best..]) == c + x;
  }

  lemma NextEvidence(st: CusumState, h: seq<Snapshot>, sigma: real)
    requires |h| >= 2
    ensures NextCusum(st, h, sigma).cusum == MaxReal(0.0, st.cusum + Increment(h, st.k, sigma))
  {
  }

  lemma OtherStepsKeepEvidence(s: Subnet, op: Op)
    requires !(op.Update? && |s.history| >= 2)
    ensures CusumOf(Apply(s, op)).cusum == CusumOf(s).cusum
  {
  }

  /** The evidence is the largest sum of increments over any stretch ending now, the empty one
      included, whatever drift each step used. */
  lemma {:induction false} EvidenceIsBestSuffix(ops: seq<Op>)
    ensures IsBestSuffix(CusumOf(After(ops)).cusum, Increments(ops))
  {
    if ops == [] {
      assert Sum(Increments(ops)[0..]) == 0.0;
    } else {
      hide Sum, IsBestSuffix, NextCusum, Increment;
      var was, op := After(ops[..|ops| - 1]), ops[|ops| - 1];
      EvidenceIsBestSuffix(ops[..|ops| - 1]);
      if op.Update? && |was.history| >= 2 {
        var x := Increment(was.history, CusumOf(was).k, op.sigma);
        NextEvidence(CusumOf(was), was.history, op.sigma);
        BestSuffixStep(CusumOf(was).cusum, Increments(ops[..|ops| - 1]), x);
      } else {
        hide Apply;
        OtherStepsKeepEvidence(was, op);
        assert Increments(ops) == Increments(ops[..|ops| - 1]);
      }
    }
  }

  lemma {:induction false} ThresholdIsAtLeastOne(ops: seq<Op>)
    ensures CusumOf(After(ops)).threshold >= 1.0
  {
    hide Threshold, Increment, IsParabolic, Advanced;
    if ops != [] { ThresholdIsAtLeastOne(ops[..|ops| - 1]); }
  }

  /** A pump is detected afresh only when some stretch of increments ending now adds up to more than
      0.8. */
  lemma PumpNeedsEvidence(ops: seq<Op>) returns (from: nat)
    requires Detectable(After(ops))
    requires Pumping(Detected(After(ops))) && !Pumping(After(ops).phase.value.phase)
    ensures from <= |Increments(ops)| && Sum(Increments(ops)[from..]) > 0.8
  {
    hide Greatest, Smallest, Prices, Increments, Sum, After;
    ThresholdIsAtLeastOne(ops);
    EvidenceIsBestSuffix(ops);
    var i :| 0 <= i <= |Increments(ops)| && CusumOf(After(ops)).cusum == Sum(Increments(ops)[i..]);
    from := i;
  }

  /** Detecting again on unchanged data answers the same phase unless the subnet rests after a decline
      or a distribution; then re-accumulation turns into accumulation. A third detection always agrees. */
  lemma DetectionSettlesIff(h: seq<Snapshot>, st: CusumState, current: Phase)
    requires h != []
    ensures
      var first := Classify(h, st, current);
      var second := Classify(h, st, first);
      && (second != first <==> (current.Decline? || current.Distribution?) && Rests(h, st))
      && (second != first ==> first.ReAccumulation? && second.Accumulation?)
      && Classify(h, st, second) == second
  {
    hide NearPeak, Flat, Rising, Falling;
  }

  /** Two equal prices after a decline are enough. */
  lemma ReAccumulationIsBrief()
    ensures
      var h := [Snapshot(1.0, 0.0, 0.0), Snapshot(1.0, 0.0, 0.0)];
      && Classify(h, NEW_CUSUM, Decline) == ReAccumulation
      && Classify(h, NEW_CUSUM, ReAccumulation) == Accumulation
  {
    var h := [Snapshot(1.0, 0.0, 0.0), Snapshot(1.0, 0.0, 0.0)];
    assert Flat(h);
  }

  /** Volume amplifies the evidence exactly when it is above its recent average, damps it exactly
      when it is below, and leaves it alone where there is no positive average. */
  lemma VolumeAmplifiesIff(h: seq<Snapshot>)
    requires |h| >= 2
    ensures
      var v := Volumes(h);
      var now, avg := v[|v| - 1], Mean(v[..|v| - 1]);
      && (VolumeFactor(h) > 1.0 <==> avg > 0.0 && now > avg)
      && (VolumeFactor(h) < 1.0 <==> avg > 0.0 && now < avg)
  {
    hide Mean, Volumes;
    var v := Volumes(h);
    var now, avg := v[|v| - 1], Mean(v[..|v| - 1]);
    if avg > 0.0 {
      var ratio := now / avg;
      assert ratio * avg == now;
      assert ratio > 1.0 <==> now > avg by { Scaled(ratio, avg); }
      assert ratio < 1.0 <==> now < avg by { Scaled(ratio, avg); }
    }
  }

  lemma Scaled(x: real, a: real)
    requires a > 0.0
    ensures (x > 1.0 <==> x * a > a) && (x < 1.0 <==> x * a < a)
  {
  }

  lemma {:induction false} SumOfEqual(s: seq<real>, v: real)
    requires forall i :: 0 <= i < |s| ==> s[i] == v
    ensures Sum(s) == |s| as real * v
  {
    if s != [] { SumOfEqual(s[..|s| - 1], v); }
  }

  /** An even volume is neutral, whatever it is: the evidence is then the plain Page sum. */
  lemma EvenVolumeIsNeutral(h: seq<Snapshot>, v: real, k: real, sigma: real)
    requires |h| >= 2 && forall i :: 0 <= i < |h| ==> h[i].volume == v
    ensures Increment(h, k, sigma) == ZReturn(h, sigma) - k
  {
    hide ZReturn;
    var prior := Volumes(h)[..|Volumes(h)| - 1];
    SumOfEqual(prior, v);
    assert Mean(prior) == v;
    VolumeAmplifiesIff(h);
  }

  lemma {:induction false} DriftStaysInRange(ops: seq<Op>)
    ensures 0.2 <= CusumOf(After(ops)).k <= CUSUM_K
  {
    if ops != [] { DriftStaysInRange(ops[..|ops| - 1]); }
  }

  /** An adaptation makes the detector more sensitive exactly when there are ten predictions, the
      score is low and not zero, and the drift is above its floor; less sensitive exactly on a high
      score below the default drift. */
  lemma AdaptationMovesIff(ops: seq<Op>, predictions: int, score: real)
    ensures
      var k := CusumOf(After(ops)).k;
      var next := CusumOf(Adapted(After(ops), predictions, score)).k;
      && (next < k <==> predictions >= 10 && score < 0.4 && score != 0.0 && k > 0.2)
      && (next > k <==> predictions >= 10 && score > 0.7 && k < CUSUM_K)
  {
    DriftStaysInRange(ops);
  }

  /** A subnet whose every prediction failed keeps the default drift. */
  lemma ZeroScoreIsNotLow(predictions: int)
    ensures CusumOf(Adapted(UNSEEN, predictions, 0.0)).k == CUSUM_K
  {
  }

  // ---------------------------------------------------------------- the cycle ledger

  /** Whether a step leaves a phase, and whether it closes a cycle by that. */
  predicate Leaves(s: Subnet, op: Op) { op.Enter? && s.phase.Some? && s.phase.value.phase != op.phase }

  predicate ClosesNow(s: Subnet, op: Op) {
    Leaves(s, op) && Quiet(op.phase) && (s.phase.value.phase.Decline? || Decline in s.phase.value.progress.phases)
  }

  /** The phases the subnet has left, in order. */
  function Left(ops: seq<Op>): seq<Phase> {
    if ops == [] then []
    else
      var was, op := After(ops[..|ops| - 1]), ops[|ops| - 1];
      Left(ops[..|ops| - 1]) +
      (if Leaves(was, op) then [was.phase.value.phase] else [])
  }

  /** How many cycles have been closed: entries to a quiet phase with a decline in the open cycle. */
  function Closings(ops: seq<Op>): nat {
    if ops == [] then 0
    else
      var was, op := After(ops[..|ops| - 1]), ops[|ops| - 1];
      Closings(ops[..|ops| - 1]) +
      (if ClosesNow(was, op) then 1 else 0)
  }

  function Flatten(cs: seq<Cycle>): seq<Phase> {
    if cs == [] then [] else Flatten(cs[..|cs| - 1]) + cs[|cs| - 1].phases
  }

  /** What the ledger still tells: the stored cycles' phases, then the open cycle's. */
  function Told(s: Subnet): seq<Phase> {
    Flatten(s.cycles) + (if s.phase.Some? then s.phase.value.progress.phases else [])
  }

  /** A list of left phases of one cycle: it begins quiet, neighbours differ, and nothing quiet
      follows a decline. */
  ghost predicate OneCycle(l: seq<Phase>) {
    && (l != [] ==> Quiet(l[0]))
    && (forall i :: 0 < i < |l| ==> l[i - 1] != l[i])
    && (forall i, j :: 0 <= i < j < |l| && l[i].Decline? ==> !Quiet(l[j]))
  }

  ghost predicate ClosedCycle(c: Cycle) {
    OneCycle(c.phases) && Decline in c.phases && c.magnitude >= 0.0
    && (c.magnitude > 0.0 ==> exists p :: p in c.phases && Pumping(p))
  }

  ghost predicate OpenCycle(ps: PhaseState) {
    var l := ps.progress.phases;
    && OneCycle(l + [ps.phase]) && ps.progress.magnitude >= 0.0
    && (ps.progress.magnitude > 0.0 ==> exists p :: p in l && Pumping(p))
  }

  ghost predicate LedgerOk(s: Subnet) {
    (s.phase.None? ==> s.cycles == [])
    && (s.phase.Some? ==> OpenCycle(s.phase.value)) && forall c :: c in s.cycles ==> ClosedCycle(c)
  }

  lemma AdvancedIsOneCycle(ps: PhaseState, h: seq<Snapshot>, next: Phase)
    requires OpenCycle(ps) && next != ps.phase
    ensures
      var g := Advanced(ps.progress, h, ps.phase, next);
      && g.phases == ps.progress.phases + [ps.phase] && OneCycle(g.phases) && g.magnitude >= 0.0
      && (g.magnitude > 0.0 ==> exists p :: p in g.phases && Pumping(p))
      && (!Closes(g, next) ==> OneCycle(g.phases + [next]))
  {
    var l := ps.progress.phases;
    if l != [] { assert (l + [ps.phase])[|l| - 1] != (l + [ps.phase])[|l|]; }
    var g := Advanced(ps.progress, h, ps.phase, next);
    assert g.phases == l + [ps.phase];
    if ps.progress.start.Some? && ps.progress.start.value < |h| {
      var leg := Prices(h[ps.progress.start.value..]);
      assert leg[0] in leg;
      GainIsNonNegative(leg[0], Greatest(leg));
    }
    assert ps.phase in g.phases;
    assert forall p :: p in l ==> p in g.phases;
  }

  lemma GainIsNonNegative(a: real, b: real)
    requires a <= b
    ensures a > 0.0 ==> Change(a, b) * 100.0 >= 0.0
  {
  }

  lemma StepKeepsLedger(s: Subnet, op: Op)
    requires LedgerOk(s)
    ensures LedgerOk(Apply(s, op))
  {
    if op.Enter? && s.phase.Some? && s.phase.value.phase != op.phase {
      hide Advanced, OneCycle, Depth;
      AdvancedIsOneCycle(s.phase.value, s.history, op.phase);
    }
  }

  /** In every run each stored cycle is one cycle with a decline and a non-negative magnitude, and
      the open one is so far in order. */
  lemma {:induction false} LedgerAlwaysOk(ops: seq<Op>)
    ensures LedgerOk(After(ops))
  {
    if ops != [] {
      LedgerAlwaysOk(ops[..|ops| - 1]);
      StepKeepsLedger(After(ops[..|ops| - 1]), ops[|ops| - 1]);
    }
  }

  lemma FlattenAppend(cs: seq<Cycle>, c: Cycle)
    ensures Flatten(cs + [c]) == Flatten(cs) + c.phases
  {
  }

  lemma {:induction false} FlattenDropsFront(cs: seq<Cycle>)
    requires cs != []
    ensures Flatten(cs) == cs[0].phases + Flatten(cs[1..])
  {
    if |cs| > 1 {
      FlattenDropsFront(cs[..|cs| - 1]);
      assert cs[..|cs| - 1][1..] == cs[1..][..|cs| - 2];
    }
  }

  ghost predicate IsSuffix(s: seq<Phase>, of: seq<Phase>) { |s| <= |of| && s == of[|of| - |s|..] }

  lemma QuietStepTells(s: Subnet, op: Op)
    requires LedgerOk(s) && !Leaves(s, op)
    ensures Apply(s, op).cycles == s.cycles && Told(Apply(s, op)) == Told(s)
  {
  }

  /** One transition adds the phase it leaves to what is told; a closing beyond the fiftieth cuts
      the oldest cycle off the front. */
  lemma TransitionTells(s: Subnet, op: Op)
    requires LedgerOk(s) && Leaves(s, op) && |s.cycles| <= MAX_CYCLES
    ensures
      var t := Apply(s, op);
      var told := Told(s) + [s.phase.value.phase];
      if ClosesNow(s, op) && |s.cycles| >= MAX_CYCLES
      then |t.cycles| == MAX_CYCLES && |Told(t)| < |told| && IsSuffix(Told(t), told)
      else |t.cycles| == |s.cycles| + (if ClosesNow(s, op) then 1 else 0) && Told(t) == told
  {
    var ps := s.phase.value;
    AdvancedIsOneCycle(ps, s.history, op.phase);
    var g := Advanced(ps.progress, s.history, ps.phase, op.phase);
    hide Advanced, OpenCycle, Depth, OneCycle;
    assert Told(s) + [ps.phase] == Flatten(s.cycles) + g.phases;
    if Closes(g, op.phase) {
      var c := Cycle(|s.cycles| + 1, g.phases, g.magnitude, Depth(g, s.history));
      FlattenAppend(s.cycles, c);
      if |s.cycles| >= MAX_CYCLES {
        FlattenDropsFront(s.cycles + [c]);
        assert s.cycles[0] in s.cycles && ClosedCycle(s.cycles[0]);
        assert WithCycle(s.cycles, g, s.history) == (s.cycles + [c])[1..];
      }
    }
  }

  lemma SuffixGrows(told: seq<Phase>, left: seq<Phase>, p: Phase, next: seq<Phase>)
    requires IsSuffix(told, left) && IsSuffix(next, told + [p])
    ensures IsSuffix(next, left + [p]) && IsSuffix(told + [p], left + [p])
    ensures next == left + [p] <==> next == told + [p] && told == left
  {
  }

  /** Conservation: the ledger tells the phases left, in order, without gap or repeat, back from
      now; the whole story exactly as long as at most fifty cycles have closed. */
  lemma {:induction false} LedgerTellsTheStory(ops: seq<Op>)
    ensures IsSuffix(Told(After(ops)), Left(ops))
    ensures |After(ops).cycles| == Min(50, Closings(ops))
    ensures Told(After(ops)) == Left(ops) <==> Closings(ops) <= 50
  {
    if ops != [] {
      var s, op := After(ops[..|ops| - 1]), ops[|ops| - 1];
      LedgerTellsTheStory(ops[..|ops| - 1]);
      LedgerAlwaysOk(ops[..|ops| - 1]);
      hide Told, Apply, LedgerOk, Leaves, ClosesNow, IsSuffix;
      if Leaves(s, op) {
        TransitionTells(s, op);
        SuffixGrows(Told(s), Left(ops[..|ops| - 1]), s.phase.value.phase, Told(Apply(s, op)));
      } else {
        QuietStepTells(s, op);
      }
    }
  }
}
