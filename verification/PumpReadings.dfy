/** What the tracker's numbers mean in terms of the prices, returns and volumes they come from. */
module PumpReadings {
  import opened Prelude
  import opened PumpTracker

  // ---------------------------------------------------------------- the history

  /** An observation is kept as the last of at most 600, with the return from the price before it. */
  lemma RecordTells(s: Subnet, price: real, volume: real)
    ensures
      var h, t := s.history, Recorded(s, Some(price), volume).history;
      && |t| == Min(|h| + 1, 600) && t[..|t| - 1] == h[|h| + 1 - |t|..]
      && t[|t| - 1].price == price && t[|t| - 1].volume == volume
      && (h != [] && h[|h| - 1].price > 0.0 ==> t[|t| - 1].ret * h[|h| - 1].price == price - h[|h| - 1].price)
      && (h == [] || h[|h| - 1].price <= 0.0 ==> t[|t| - 1].ret == 0.0)
  {
    var h := s.history;
    var ret := if h != [] && h[|h| - 1].price > 0.0 then Change(h[|h| - 1].price, price) else 0.0;
    if h != [] && h[|h| - 1].price > 0.0 { ChangeTells(h[|h| - 1].price, price); }
    KeptLast(h, PumpTracker.Snapshot(price, volume, ret));
    hide Change, LastN;
  }

  lemma KeptLast(h: seq<Snapshot>, x: Snapshot)
    ensures
      var t := LastN(h + [x], 600);
      |t| == Min(|h| + 1, 600) && t[..|t| - 1] == h[|h| + 1 - |t|..] && t[|t| - 1] == x
  {
    hide LastN;
    var t := LastN(h + [x], 600);
    var from := |h| + 1 - |t|;
    assert (h + [x])[from..] == h[from..] + [x];
  }

  lemma ChangeTells(from: real, to: real)
    requires from != 0.0
    ensures Change(from, to) * from == to - from
  {
  }

  /** The windows are the last twenty returns and volumes, in order. */
  lemma WindowTells(h: seq<Snapshot>, i: nat)
    requires i < Min(|h|, 20)
    ensures |Returns(h)| == |Volumes(h)| == Min(|h|, 20)
    ensures Returns(h)[i] == h[|h| - |Returns(h)| + i].ret && Volumes(h)[i] == h[|h| - |Volumes(h)| + i].volume
  {
  }

  // ---------------------------------------------------------------- evidence from a return

  /** The return an update judges, and the earlier ones in its window. */
  function Latest(h: seq<Snapshot>): real
    requires |h| >= 2
  {
    h[|h| - 1].ret
  }

  function Earlier(h: seq<Snapshot>): seq<real>
    requires |h| >= 2
  {
    Returns(h)[..|Returns(h)| - 1]
  }

  /** The latest return is so far above the mean of the earlier ones that, times the volume factor, it
      exceeds the drift in standard deviations. */
  predicate Surges(h: seq<Snapshot>, k: real, sigma: real)
    requires |h| >= 2
  {
    (Latest(h) - Mean(Earlier(h))) * VolumeFactor(h) > k * sigma
  }

  /** One update raises the evidence exactly when the latest return surges. */
  lemma EvidenceRisesIff(s: Subnet, sigma: real)
    requires |s.history| >= 2 && IsStd(SpreadWindow(s.history), sigma) && sigma > 0.0 && CusumOf(s).cusum >= 0.0
    ensures CusumOf(Updated(s, sigma)).cusum > CusumOf(s).cusum <==> Surges(s.history, CusumOf(s).k, sigma)
  {
    hide Increment, Surges, NextCusum, IsStd, SpreadWindow;
    var h := s.history;
    NextEvidence(CusumOf(s), h, sigma);
    IncrementIsPositiveIff(h, CusumOf(s).k, sigma);
  }

  lemma IncrementIsPositiveIff(h: seq<Snapshot>, k: real, sigma: real)
    requires |h| >= 2 && sigma > 0.0
    ensures Increment(h, k, sigma) > 0.0 <==> Surges(h, k, sigma)
  {
    hide Increment, VolumeFactor, Mean, Earlier, Latest;
    IncrementTells(h, k, sigma);
    QuotientTimes(Latest(h) - Mean(Earlier(h)), sigma, VolumeFactor(h), k);
  }

  lemma IncrementTells(h: seq<Snapshot>, k: real, sigma: real)
    requires |h| >= 2 && sigma > 0.0
    ensures Increment(h, k, sigma) == (Latest(h) - Mean(Earlier(h))) / sigma * VolumeFactor(h) - k
  {
    hide ZReturn, VolumeFactor, Mean, Earlier, Latest;
    ZTells(h, sigma);
  }

  lemma ZTells(h: seq<Snapshot>, sigma: real)
    requires |h| >= 2
    ensures ZReturn(h, sigma) == if sigma <= 0.0 then 0.0 else (Latest(h) - Mean(Earlier(h))) / sigma
  {
    hide Mean;
  }

  lemma QuotientTimes(a: real, sigma: real, f: real, k: real)
    requires sigma > 0.0
    ensures a / sigma * f > k <==> a * f > k * sigma
  {
    var z := a / sigma;
    assert z * sigma == a;
    assert a * f == (z * f) * sigma;
    Ordered(z * f, k, sigma);
  }

  lemma Ordered(x: real, y: real, c: real)
    requires c > 0.0
    ensures x > y <==> x * c > y * c
  {
    if x > y { NonNegativeProduct(x - y, c); }
    if x <= y { NonNegativeProduct(y - x, c); }
  }

  /** Without spread the evidence falls by the drift, down to nothing. */
  lemma FlatReturnsDecay(s: Subnet)
    requires |s.history| >= 2 && IsStd(SpreadWindow(s.history), 0.0)
    ensures
      var c := CusumOf(s);
      CusumOf(Updated(s, 0.0)).cusum == if c.cusum > c.k then c.cusum - c.k else 0.0
  {
    NextEvidence(CusumOf(s), s.history, 0.0);
    hide VolumeFactor, NextCusum, IsStd;
  }

  /** The spread is that of the earlier returns, of both when there are only two. */
  lemma SpreadTells(h: seq<Snapshot>)
    requires |h| >= 2
    ensures SpreadWindow(h) == if |h| > 2 then Earlier(h) else [h[0].ret, h[1].ret]
  {
  }

  lemma TwoReturns(a: real, b: real, sigma: real)
    requires IsStd([a, b], sigma)
    ensures 2.0 * (sigma * sigma) == (b - a) * (b - a)
  {
    var m := Mean([a, b]);
    assert [a, b][..1] == [a] && [a][..0] == [];
    assert Sum([a, b]) == Sum([a]) + b && Sum([a]) == Sum([]) + a;
    var q := seq(2, i requires 0 <= i < 2 => ([a, b][i] - m) * ([a, b][i] - m));
    assert [a, b][0] == a && [a, b][1] == b;
    assert q[0] == (a - m) * (a - m) && q[1] == (b - m) * (b - m);
    assert q[..1] == [(a - m) * (a - m)] && q[..1][..0] == [];
    assert Sum(q) == Sum(q[..1]) + (b - m) * (b - m) && Sum(q[..1]) == Sum([]) + (a - m) * (a - m);
    assert m == (a + b) / 2.0;
    var d := (b - a) / 2.0;
    assert a - m == -d && b - m == d;
    assert sigma * sigma == d * d + d * d;
    assert (b - a) * (b - a) == 4.0 * (d * d);
  }

  /** Two histories that differ in the latest return alone. */
  ghost predicate SameButLatest(h: seq<Snapshot>, h': seq<Snapshot>) {
    && |h| == |h'| >= 2 && h[..|h| - 1] == h'[..|h| - 1]
    && h[|h| - 1].price == h'[|h| - 1].price && h[|h| - 1].volume == h'[|h| - 1].volume
  }

  lemma SameWindows(h: seq<Snapshot>, h': seq<Snapshot>)
    requires SameButLatest(h, h')
    ensures Earlier(h) == Earlier(h') && VolumeFactor(h) == VolumeFactor(h')
  {
    forall i | 0 <= i < |h| - 1 ensures h[i] == h'[i] {
      assert h[..|h| - 1][i] == h'[..|h| - 1][i];
    }
    assert Earlier(h) == Earlier(h');
    forall i | 0 <= i < |Volumes(h)| ensures Volumes(h)[i] == Volumes(h')[i] {
      WindowTells(h, i);
      WindowTells(h', i);
    }
    assert Volumes(h) == Volumes(h');
  }

  /** With everything earlier equal a larger latest return never gives less evidence. */
  lemma LargerReturnNotLess(s: Subnet, h': seq<Snapshot>, sigma: real, sigma': real)
    requires SameButLatest(s.history, h') && Latest(s.history) <= Latest(h')
    requires IsStd(SpreadWindow(s.history), sigma) && IsStd(SpreadWindow(h'), sigma')
    ensures CusumOf(Updated(s, sigma)).cusum <= CusumOf(Updated(s.(history := h'), sigma')).cusum
  {
    var h := s.history;
    hide Increment, NextCusum, IsStd, SpreadWindow;
    OrderedIncrement(h, h', CusumOf(s).k, sigma, sigma');
    NextEvidence(CusumOf(s), h, sigma);
    NextEvidence(CusumOf(s), h', sigma');
  }

  lemma OrderedIncrement(h: seq<Snapshot>, h': seq<Snapshot>, k: real, sigma: real, sigma': real)
    requires SameButLatest(h, h') && Latest(h) <= Latest(h')
    requires IsStd(SpreadWindow(h), sigma) && IsStd(SpreadWindow(h'), sigma')
    ensures Increment(h, k, sigma) <= Increment(h', k, sigma')
  {
    SameWindows(h, h');
    OrderedZ(h, h', sigma, sigma');
    hide ZReturn, VolumeFactor, IsStd, SpreadWindow;
    var f, z, z' := VolumeFactor(h), ZReturn(h, sigma), ZReturn(h', sigma');
    NonNegativeProduct(z' - z, f);
    assert (z' - z) * f == z' * f - z * f;
  }

  lemma OrderedZ(h: seq<Snapshot>, h': seq<Snapshot>, sigma: real, sigma': real)
    requires SameButLatest(h, h') && Latest(h) <= Latest(h')
    requires IsStd(SpreadWindow(h), sigma) && IsStd(SpreadWindow(h'), sigma')
    ensures ZReturn(h, sigma) <= ZReturn(h', sigma')
  {
    hide ZReturn, SpreadWindow;
    if |h| > 2 {
      SameWindows(h, h');
      SpreadTells(h);
      SpreadTells(h');
      SameSpread(Earlier(h), sigma, sigma');
      LargerZ(h, h', sigma);
    } else {
      TwoSidedZ(h, h', sigma, sigma');
    }
  }

  lemma SameSpread(s: seq<real>, sigma: real, sigma': real)
    requires IsStd(s, sigma) && IsStd(s, sigma')
    ensures sigma == sigma'
  {
    EqualSquares(sigma, sigma') by { hide Mean, Sum; }
  }

  lemma EqualSquares(x: real, y: real)
    requires x >= 0.0 && y >= 0.0 && x * x == y * y
    ensures x == y
  {
    SquaresOrder(x, y);
    SquaresOrder(y, x);
  }

  lemma SquaresOrder(x: real, y: real)
    requires x >= 0.0 && y >= 0.0
    ensures x < y ==> x * x < y * y
  {
    if x < y {
      PositiveProduct(y - x, y);
      NonNegativeProduct(y - x, x);
    }
  }

  lemma PositiveProduct(x: real, y: real)
    requires x > 0.0 && y > 0.0
    ensures x * y > 0.0
  {
  }

  lemma LargerZ(h: seq<Snapshot>, h': seq<Snapshot>, sigma: real)
    requires SameButLatest(h, h') && Latest(h) <= Latest(h') && sigma >= 0.0
    ensures ZReturn(h, sigma) <= ZReturn(h', sigma)
  {
    SameWindows(h, h');
    if sigma > 0.0 {
      var m := Mean(Earlier(h));
      hide Mean;
      assert ZReturn(h, sigma) == (Latest(h) - m) / sigma && ZReturn(h', sigma) == (Latest(h') - m) / sigma;
      QuotientOrder(Latest(h) - m, Latest(h') - m, sigma);
    }
  }

  lemma QuotientOrder(a: real, b: real, c: real)
    requires a <= b && c > 0.0
    ensures a / c <= b / c
  {
  }

  /** With two returns the latest counts by its sign against the first alone. */
  lemma TwoSidedZ(h: seq<Snapshot>, h': seq<Snapshot>, sigma: real, sigma': real)
    requires SameButLatest(h, h') && |h| == 2 && Latest(h) <= Latest(h')
    requires IsStd(SpreadWindow(h), sigma) && IsStd(SpreadWindow(h'), sigma')
    ensures ZReturn(h, sigma) <= ZReturn(h', sigma')
  {
    hide ZReturn, IsStd, SpreadWindow;
    TwoZ(h, sigma);
    TwoZ(h', sigma');
    assert h[..1] == [h[0]] && h'[..1] == [h'[0]];
    BySign(ZReturn(h, sigma), ZReturn(h', sigma'));
  }

  lemma BySign(z: real, z': real)
    requires z == 0.0 || z * z == 2.0
    requires z' == 0.0 || z' * z' == 2.0
    ensures (z > 0.0 ==> z' > 0.0) && (z == 0.0 ==> z' >= 0.0) ==> z <= z'
  {
    if z > 0.0 && z' > 0.0 { EqualSquares(z, z'); }
    if z < 0.0 && z' < 0.0 {
      assert (-z) * (-z) == z * z && (-z') * (-z') == z' * z';
      EqualSquares(-z, -z');
    }
  }

  lemma TwoZ(h: seq<Snapshot>, sigma: real)
    requires |h| == 2 && IsStd(SpreadWindow(h), sigma)
    ensures
      var z, d := ZReturn(h, sigma), h[1].ret - h[0].ret;
      && (d == 0.0 <==> z == 0.0) && (d > 0.0 <==> z > 0.0) && (z != 0.0 ==> z * z == 2.0)
  {
    var a, b := h[0].ret, h[1].ret;
    SpreadTells(h);
    TwoReturns(a, b, sigma);
    assert Earlier(h) == [a] && [a][..0] == [] && Mean([a]) == a by { assert Sum([a]) == Sum([]) + a; }
    var d := b - a;
    assert ZReturn(h, sigma) == if sigma <= 0.0 then 0.0 else d / sigma;
    hide ZReturn, IsStd, Mean;
    RatioTells(d, sigma);
  }

  lemma RatioTells(d: real, sigma: real)
    requires sigma >= 0.0 && 2.0 * (sigma * sigma) == d * d
    ensures sigma == 0.0 <==> d == 0.0
    ensures sigma > 0.0 ==> d / sigma * (d / sigma) == 2.0 && (d > 0.0 <==> d / sigma > 0.0)
  {
    if sigma > 0.0 {
      var z := d / sigma;
      assert z * sigma == d;
      assert d * d == (z * z) * (sigma * sigma);
      PositiveProduct(sigma, sigma);
      if z > 0.0 { PositiveProduct(z, sigma); }
      if z < 0.0 { PositiveProduct(-z, sigma); }
    }
    SquaresOrder(0.0, if d < 0.0 then -d else d);
    SquaresOrder(0.0, sigma);
    assert (-d) * (-d) == d * d;
  }

  /** The spread is nothing exactly when all values agree. */
  lemma ZeroSpreadIff(s: seq<real>, sigma: real)
    requires IsStd(s, sigma) && |s| >= 2
    ensures sigma == 0.0 <==> forall i :: 0 <= i < |s| ==> s[i] == Mean(s)
  {
    var m := Mean(s);
    var q := seq(|s|, i requires 0 <= i < |s| => (s[i] - m) * (s[i] - m));
    assert sigma * sigma == Sum(q) / (|s| - 1) as real;
    assert forall i :: 0 <= i < |s| ==> q[i] == (s[i] - m) * (s[i] - m);
    hide Mean, IsStd, Sum;
    forall i | 0 <= i < |s| ensures q[i] >= 0.0 && (q[i] == 0.0 <==> s[i] == m) {
      SquareAt(s[i], m, q[i]);
    }
    SumOfNonNegatives(q);
    SquareTells(sigma);
    Quotient(Sum(q), (|s| - 1) as real);
  }

  lemma SquareAt(x: real, m: real, square: real)
    requires square == (x - m) * (x - m)
    ensures square >= 0.0 && (square == 0.0 <==> x == m)
  {
    SquareTells(x - m);
  }

  lemma Quotient(x: real, n: real)
    requires n > 0.0
    ensures x / n == 0.0 <==> x == 0.0
  {
  }

  lemma SquareTells(x: real)
    ensures x * x >= 0.0 && (x * x == 0.0 <==> x == 0.0)
  {
    SquaresOrder(0.0, if x < 0.0 then -x else x);
    assert (-x) * (-x) == x * x;
  }

  lemma {:induction false} SumOfNonNegatives(q: seq<real>)
    requires forall i :: 0 <= i < |q| ==> q[i] >= 0.0
    ensures Sum(q) >= 0.0 && (Sum(q) == 0.0 <==> forall i :: 0 <= i < |q| ==> q[i] == 0.0)
  {
    if q != [] {
      SumOfNonNegatives(q[..|q| - 1]);
      assert forall i :: 0 <= i < |q| - 1 ==> q[..|q| - 1][i] == q[i];
    }
  }

  // ---------------------------------------------------------------- volume, parabola, threshold

  /** The volume factor is the latest volume over the mean of the earlier ones, between nothing and ten,
      and one where that mean is not positive. */
  lemma VolumeFactorTells(h: seq<Snapshot>)
    requires |h| >= 2
    ensures
      var v, f := Volumes(h), VolumeFactor(h);
      var now, avg := v[|v| - 1], Mean(v[..|v| - 1]);
      if avg <= 0.0 then f == 1.0
      else if now < 0.0 then f == 0.0
      else if now > 10.0 * avg then f == 10.0
      else f * avg == now
  {
    var v := Volumes(h);
    hide Volumes, Mean;
    var now, avg := v[|v| - 1], Mean(v[..|v| - 1]);
    if avg > 0.0 {
      var ratio := now / avg;
      assert ratio * avg == now;
      Ordered(ratio, 10.0, avg);
      Ordered(0.0, ratio, avg);
      assert 0.0 * avg == 0.0;
    }
  }

  lemma SizesTell(s: seq<real>, i: nat)
    requires i < |s|
    ensures |Sizes(s)| == |s| && Sizes(s)[i] == if s[i] < 0.0 then -s[i] else s[i]
  {
  }

  lemma RatioOver(a: real, b: real, c: real)
    requires b > 0.0
    ensures a / b > c <==> a > c * b
    ensures a / b < c <==> a < c * b
  {
    var r := a / b;
    assert r * b == a;
    Ordered(r, c, b);
    Ordered(c, r, b);
  }

  /** A move is parabolic exactly when it is more than twice the mean size of the earlier ones. */
  lemma ParabolicIff(h: seq<Snapshot>)
    requires |h| >= 2
    ensures
      var usual := Mean(Sizes(Earlier(h)));
      IsParabolic(h) <==> usual > 0.0 && (Latest(h) > 2.0 * usual || -Latest(h) > 2.0 * usual)
  {
    var usual := Mean(Sizes(Earlier(h)));
    var latest := Abs(Latest(h));
    assert latest > 2.0 * usual <==> Latest(h) > 2.0 * usual || -Latest(h) > 2.0 * usual;
    hide Mean, Sizes, Abs;
    if usual > 0.0 { RatioOver(latest, usual, 2.0); }
  }

  /** The evidence after every effective update, in order. */
  function Evidence(ops: seq<Op>): seq<real> {
    if ops == [] then []
    else
      var op := ops[|ops| - 1];
      Evidence(ops[..|ops| - 1]) +
      (if op.Update? && |After(ops[..|ops| - 1]).history| >= 2 then [CusumOf(After(ops)).cusum] else [])
  }

  lemma NextReading(st: CusumState, h: seq<Snapshot>, sigma: real)
    requires |h| >= 2
    ensures
      var next := NextCusum(st, h, sigma);
      next.recent == LastN(st.recent + [next.cusum], 60) && next.threshold == Threshold(next.recent)
  {
    hide Increment, IsParabolic, Threshold;
  }

  lemma OtherStepsKeepReading(s: Subnet, op: Op)
    requires !(op.Update? && |s.history| >= 2)
    ensures CusumOf(Apply(s, op)).recent == CusumOf(s).recent && CusumOf(Apply(s, op)).threshold == CusumOf(s).threshold
  {
    hide Advanced, Extended;
  }

  lemma ReadingStep(s: Subnet, op: Op, earlier: seq<real>)
    requires CusumOf(s).recent == LastN(earlier, 60) && CusumOf(s).threshold == Threshold(CusumOf(s).recent)
    ensures
      var t := CusumOf(Apply(s, op));
      && t.recent == LastN(earlier + (if op.Update? && |s.history| >= 2 then [t.cusum] else []), 60)
      && t.threshold == Threshold(t.recent)
  {
    hide Threshold, NextCusum, LastN;
    if op.Update? && |s.history| >= 2 {
      NextReading(CusumOf(s), s.history, op.sigma);
      LastOneMore(earlier, CusumOf(Apply(s, op)).cusum);
    } else {
      OtherStepsKeepReading(s, op);
      assert earlier + [] == earlier;
    }
  }

  lemma {:induction false} ReadingsFollow(ops: seq<Op>)
    ensures CusumOf(After(ops)).recent == LastN(Evidence(ops), 60)
    ensures CusumOf(After(ops)).threshold == Threshold(CusumOf(After(ops)).recent)
  {
    if ops == [] {
      NothingReadsOne();
    } else {
      hide Threshold, Apply, LastN;
      ReadingsFollow(ops[..|ops| - 1]);
      ReadingStep(After(ops[..|ops| - 1]), ops[|ops| - 1], Evidence(ops[..|ops| - 1]));
    }
  }

  lemma NothingReadsOne()
    ensures Threshold([]) == 1.0
  {
  }

  /** In every run the rolling history is the evidence of the last sixty updates, and the threshold is
      read off it: one, or the 95th percentile of its positive values if that is more. */
  lemma ThresholdIsReadOff(ops: seq<Op>)
    ensures CusumOf(After(ops)).recent == LastN(Evidence(ops), 60)
    ensures
      var top := Positives(CusumOf(After(ops)).recent);
      CusumOf(After(ops)).threshold == if top == [] || Percentile95(top) <= 1.0 then 1.0 else Percentile95(top)
  {
    ReadingsFollow(ops);
    hide Percentile95, After, Evidence;
  }

  lemma LastOneMore(s: seq<real>, x: real)
    ensures LastN(LastN(s, 60) + [x], 60) == LastN(s + [x], 60)
  {
  }

  /** How far an adaptation moves the drift. */
  lemma AdaptationStep(k: real, score: real)
    requires 0.2 <= k <= 0.5
    ensures score < 0.4 && score != 0.0 ==> AdaptedK(k, score) == if k < 0.3 then 0.2 else k - 0.1
    ensures score > 0.7 ==> AdaptedK(k, score) == if k < 0.45 then k + 0.05 else 0.5
    ensures (0.4 <= score <= 0.7 || score == 0.0) ==> AdaptedK(k, score) == k
  {
  }

  // ---------------------------------------------------------------- phases from prices

  function Window(h: seq<Snapshot>): (prices: seq<real>)
    ensures |prices| == Min(|h|, 20)
    ensures forall i :: 0 <= i < |prices| ==> prices[i] == h[|h| - |prices| + i].price
  {
    Prices(LastN(h, 20))
  }

  /** Near the peak: positive somewhere, and now within three percent of every price of the window. */
  lemma NearPeakIff(h: seq<Snapshot>)
    requires h != []
    ensures NearPeak(h) <==>
            && (exists x :: x in Window(h) && x > 0.0)
            && forall x :: x in Window(h) ==> h[|h| - 1].price >= 0.97 * x
  {
    var prices := Window(h);
    var top := Greatest(prices);
    assert top in prices;
    hide Greatest, Prices, Window;
  }

  /** Flat: nothing positive, or every price of the window within one percent of every other. */
  lemma FlatIff(h: seq<Snapshot>)
    requires h != []
    ensures Flat(h) <==>
            || (forall x :: x in Window(h) ==> x <= 0.0)
            || (forall x, y :: x in Window(h) && y in Window(h) ==> y > 0.99 * x)
  {
    FlatTells(h);
    hide Greatest, Smallest, Prices, Window, Flat;
    var prices := Window(h);
    var top, bottom := Greatest(prices), Smallest(prices);
    if top > 0.0 {
      forall x, y | x in prices && y in prices ensures bottom > 0.99 * top ==> y > 0.99 * x {
        assert bottom <= y && x <= top;
      }
    }
  }

  lemma FlatTells(h: seq<Snapshot>)
    requires h != []
    ensures
      var top, bottom := Greatest(Window(h)), Smallest(Window(h));
      Flat(h) <==> top <= 0.0 || bottom > 0.99 * top
  {
    hide Greatest, Smallest, Prices;
    var top, bottom := Greatest(Window(h)), Smallest(Window(h));
    if top > 0.0 { RatioOver(top - bottom, top, 0.01); }
  }

  predicate PriceRose(h: seq<Snapshot>) { |h| >= 2 && h[|h| - 1].price > h[|h| - 2].price }

  predicate PriceFell(h: seq<Snapshot>) { |h| >= 2 && h[|h| - 1].price < h[|h| - 2].price }

  /** What a phase detected afresh takes: which way the last price moved, and how much evidence there is. */
  lemma DetectionTells(h: seq<Snapshot>, st: CusumState, current: Phase)
    requires h != [] && Classify(h, st, current) != current
    ensures
      match Classify(h, st, current)
      case Parabolic => st.parabolic && st.cusum > 0.8 * st.threshold
      case Markup => PriceRose(h) && st.cusum > st.threshold
      case Distribution =>
        !PriceRose(h) && st.cusum >= 0.6 * st.threshold && forall x :: x in Window(h) ==> h[|h| - 1].price >= 0.97 * x
      case Decline => PriceFell(h) && st.cusum < 0.5 * st.threshold
      case Accumulation => st.cusum < 0.5 && !(current.Decline? || current.Distribution?)
      case ReAccumulation => st.cusum < 0.5 && (current.Decline? || current.Distribution?)
  {
    NearPeakIff(h);
    hide NearPeak, Flat, Window;
  }

  /** And what is enough for one, whatever the current phase. */
  lemma DetectionFollows(h: seq<Snapshot>, st: CusumState, current: Phase)
    requires h != []
    ensures st.parabolic && st.cusum > 0.8 * st.threshold ==> Classify(h, st, current) == Parabolic
    ensures !st.parabolic && PriceRose(h) && st.cusum > st.threshold ==> Classify(h, st, current) == Markup
    ensures !st.parabolic && PriceFell(h) && st.cusum < 0.5 * st.threshold && st.threshold > 0.0 ==>
              Classify(h, st, current) == Decline
    ensures !st.parabolic && !PriceRose(h) && NearPeak(h) && st.cusum >= 0.6 * st.threshold ==>
              Classify(h, st, current) == Distribution
  {
    hide NearPeak, Flat;
  }

  // ---------------------------------------------------------------- the pump leg

  function ApplyAll(s: Subnet, ops: seq<Op>): Subnet {
    if ops == [] then s else Apply(ApplyAll(s, ops[..|ops| - 1]), ops[|ops| - 1])
  }

  /** Steps within a leg: anything but leaving the pump phases. */
  predicate StaysInLeg(ops: seq<Op>) {
    forall i :: 0 <= i < |ops| ==> ops[i].Enter? ==> Pumping(ops[i].phase)
  }

  lemma {:induction false} LegGoesOn(s: Subnet, ops: seq<Op>)
    requires s.phase.Some? && Pumping(s.phase.value.phase) && StaysInLeg(ops) && |s.history| + |ops| <= 600
    ensures
      var t := ApplyAll(s, ops);
      && t.phase.Some? && Pumping(t.phase.value.phase) && t.phase.value.progress.start == s.phase.value.progress.start
      && |s.history| <= |t.history| <= |s.history| + |ops| && t.history[..|s.history|] == s.history
  {
    if ops != [] {
      LegGoesOn(s, ops[..|ops| - 1]);
      var u := ApplyAll(s, ops[..|ops| - 1]);
      LegStep(u, ops[|ops| - 1]);
    }
  }

  lemma LegStep(u: Subnet, op: Op)
    requires u.phase.Some? && Pumping(u.phase.value.phase) && (op.Enter? ==> Pumping(op.phase)) && |u.history| < 600
    ensures
      var t := Apply(u, op);
      && t.phase.Some? && Pumping(t.phase.value.phase) && t.phase.value.progress.start == u.phase.value.progress.start
      && |u.history| <= |t.history| <= |u.history| + 1 && t.history[..|u.history|] == u.history
  {
    hide NextCusum, AdaptedK, Depth, Change;
  }

  /** The magnitude of a leg, however it moves between markup and parabolic, is the gain from the price
      at its first phase to the highest price since. */
  lemma LegIsMeasuredFromEntry(s: Subnet, first: Phase, ops: seq<Op>, next: Phase) returns (since: seq<real>, t: Subnet)
    requires s.phase.Some? && !Pumping(s.phase.value.phase) && Pumping(first) && s.history != []
    requires StaysInLeg(ops) && |s.history| + |ops| <= 600 && (next.Distribution? || next.Decline?)
    ensures t == Transitioned(ApplyAll(Transitioned(s, first), ops), next) && t.phase.Some?
    ensures |t.history| >= |s.history| && since == Prices(t.history[|s.history| - 1..])
    ensures since != [] && since[0] == s.history[|s.history| - 1].price
    ensures
      var g := t.phase.value.progress;
      && g.peak == Some(Greatest(since))
      && (since[0] > 0.0 ==> g.magnitude * since[0] == (Greatest(since) - since[0]) * 100.0)
      && (since[0] <= 0.0 ==> g.magnitude == 0.0)
  {
    hide Transitioned, ApplyAll, Greatest, Prices;
    LegEntered(s, first);
    LegGoesOn(Transitioned(s, first), ops);
    var leg := ApplyAll(Transitioned(s, first), ops);
    t := Transitioned(leg, next);
    var start := |s.history| - 1;
    assert leg.history[start] == leg.history[..|s.history|][start];
    since := LegMeasured(leg, next, start);
  }

  lemma LegMeasured(leg: Subnet, next: Phase, start: nat) returns (since: seq<real>)
    requires leg.phase.Some? && Pumping(leg.phase.value.phase) && (next.Distribution? || next.Decline?)
    requires leg.phase.value.progress.start == Some(start) && start < |leg.history|
    ensures
      var t := Transitioned(leg, next);
      && t.phase.Some? && t.history == leg.history && since == Prices(leg.history[start..]) && since != []
      && since[0] == leg.history[start].price && t.phase.value.progress.peak == Some(Greatest(since))
      && (since[0] > 0.0 ==> t.phase.value.progress.magnitude * since[0] == (Greatest(since) - since[0]) * 100.0)
      && (since[0] <= 0.0 ==> t.phase.value.progress.magnitude == 0.0)
  {
    hide Greatest, Change, Transitioned;
    LegEnds(leg, next);
    since := Prices(leg.history[start..]);
    if since[0] > 0.0 { GainTells(since[0], Greatest(since)); }
  }

  lemma LegEnds(leg: Subnet, next: Phase)
    requires leg.phase.Some? && Pumping(leg.phase.value.phase) && (next.Distribution? || next.Decline?)
    ensures
      var ps := leg.phase.value;
      Transitioned(leg, next) ==
      leg.(phase := Some(PhaseState(next, Advanced(ps.progress, leg.history, ps.phase, next))))
  {
    hide Advanced;
  }

  lemma LegEntered(s: Subnet, first: Phase)
    requires s.phase.Some? && !Pumping(s.phase.value.phase) && Pumping(first) && s.history != []
    ensures
      var t := Transitioned(s, first);
      && t.phase.Some? && t.phase.value.phase == first && t.history == s.history
      && t.phase.value.progress.start == Some(|s.history| - 1)
  {
    hide Greatest, Prices, Change, Depth;
  }

  lemma GainTells(from: real, to: real)
    requires from > 0.0
    ensures Change(from, to) * 100.0 * from == (to - from) * 100.0
  {
    ChangeTells(from, to);
  }

  /** How deep the price stands below the leg's peak when the cycle closes. */
  lemma DepthTells(g: Progress, h: seq<Snapshot>)
    requires h != [] && g.peak.Some? && g.peak.value > 0.0
    ensures Depth(g, h) * g.peak.value == (h[|h| - 1].price - g.peak.value) * 100.0
  {
    GainTells(g.peak.value, h[|h| - 1].price);
    hide Change;
  }

  /** A step measures only when a pump phase is left for distribution or decline; any other keeps what
      the open cycle has measured. */
  lemma OtherStepsKeepMagnitude(s: Subnet, op: Op)
    requires s.phase.Some? && Apply(s, op).phase.Some?
    requires op.Enter? ==> !(Pumping(s.phase.value.phase) && (op.phase.Distribution? || op.phase.Decline?))
    requires Apply(s, op).cycles == s.cycles
    ensures
      var g, g' := s.phase.value.progress, Apply(s, op).phase.value.progress;
      (g'.magnitude == g.magnitude && g'.peak == g.peak) || (g' == NEW_PROGRESS && op.Enter?)
  {
    hide NextCusum, AdaptedK, Depth, Change, Extended;
  }

  /** What is stored when a cycle closes: the phases left, the magnitude measured, the depth below its peak. */
  lemma ClosedCycleTells(s: Subnet, next: Phase)
    requires s.phase.Some? && s.phase.value.phase != next && Quiet(next)
    requires OpenCycle(s.phase.value)
    requires s.phase.value.phase.Decline? || Decline in s.phase.value.progress.phases
    ensures
      var g, t := s.phase.value.progress, Transitioned(s, next);
      && t.cycles != [] && t.phase == Some(PhaseState(next, NEW_PROGRESS))
      && var c := t.cycles[|t.cycles| - 1];
         && c.phases == g.phases + [s.phase.value.phase] && c.magnitude == g.magnitude && c.id == |s.cycles| + 1
         && (s.history != [] && g.peak.Some? && g.peak.value > 0.0 ==>
               c.depth * g.peak.value == (s.history[|s.history| - 1].price - g.peak.value) * 100.0)
  {
    hide Advanced, Depth, OpenCycle, LastN;
    var ps := s.phase.value;
    ClosingMeasuresNothing(ps, s.history, next);
    var g := Advanced(ps.progress, s.history, ps.phase, next);
    if s.history != [] && g.peak.Some? && g.peak.value > 0.0 { DepthTells(g, s.history); }
  }

  lemma ClosingMeasuresNothing(ps: PhaseState, h: seq<Snapshot>, next: Phase)
    requires OpenCycle(ps) && ps.phase != next && Quiet(next)
    ensures
      var g, t := ps.progress, Advanced(ps.progress, h, ps.phase, next);
      t.phases == g.phases + [ps.phase] && t.magnitude == g.magnitude && t.peak == g.peak
  {
    AdvancedIsOneCycle(ps, h, next);
    hide OneCycle, OpenCycle;
  }
}
