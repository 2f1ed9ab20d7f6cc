/** What the outcome ledger records, in prices and seconds. */
module OutcomePrices {
  import opened Prelude
  import opened OutcomeLedger

  // ---------------------------------------------------------------- rounding and grades

  /** Rounding finds a nearest multiple, and of two equally near ones the even. */
  lemma RoundedIsNearest(x: real, scale: real) returns (n: int)
    requires scale > 0.0
    ensures Rounded(x, scale) == n as real / scale && n as real - 0.5 <= x * scale <= n as real + 0.5
    ensures x * scale == n as real - 0.5 || x * scale == n as real + 0.5 ==> n % 2 == 0
  {
    var f := (x * scale).Floor;
    var d := x * scale - f as real;
    n := if d < 0.5 || (d == 0.5 && f % 2 == 0) then f else f + 1;
  }

  lemma ChangeOver(p: real, x: real, c: real)
    requires p > 0.0
    ensures PercentChange(p, x) > c <==> (x - p) * 100.0 > c * p
    ensures PercentChange(p, x) < c <==> (x - p) * 100.0 < c * p
  {
    var q := PercentChange(p, x);
    assert q * p == (x - p) * 100.0 by {
      var r := (x - p) / p;
      assert r * p == x - p;
    }
    Scales(q, c, p);
  }

  lemma Scales(x: real, y: real, p: real)
    requires p > 0.0
    ensures x > y <==> x * p > y * p
    ensures x < y <==> x * p < y * p
  {
    var d := x - y;
    assert d * p == x * p - y * p;
    assert d > 0.0 ==> d * p > 0.0;
    assert d < 0.0 ==> d * p < 0.0;
  }

  predicate Above(p: real, x: real, percent: real) { (x - p) * 100.0 > percent * p }

  predicate Below(p: real, x: real, percent: real) { (x - p) * 100.0 < -percent * p }

  /** A recorded horizon is graded by how far its price lies from the snapshot price. */
  lemma GradeFollowsPrice(h: Horizon, r: Receipt, hours: real)
    requires Recorded(h, r, hours) && r.price.value > 0.0
    ensures
      var p, x := r.price.value, h.price.value;
      && (h.grade == Some(Pump) <==> Above(p, x, 5.005))
      && (h.grade == Some(MildPump) <==> Above(p, x, 2.005) && !Above(p, x, 5.005))
      && (h.grade == Some(Dump) <==> Below(p, x, 5.005))
      && (h.grade == Some(MildDump) <==> Below(p, x, 2.005) && !Below(p, x, 5.005))
      && (h.grade == Some(Stable) <==> !Above(p, x, 2.005) && !Below(p, x, 2.005))
      && (h.pct.None? <==> h.grade == Some(Stable))
  {
    var p, x := r.price.value, h.price.value;
    GradeIff(PercentChange(p, x));
    ChangeOver(p, x, 5.005);
    ChangeOver(p, x, 2.005);
    ChangeOver(p, x, -5.005);
    ChangeOver(p, x, -2.005);
    hide HorizonOutcome, PercentChange;
  }

  // ---------------------------------------------------------------- right and wrong calls

  datatype Call = Upward | Downward | Sideways

  function CallOf(verdict: string, direction: string): Call {
    if verdict == "bullish" || direction == "up" then Upward
    else if verdict == "bearish" || direction == "down" then Downward
    else Sideways
  }

  /** A call is right exactly if the change has the size and the sign it called. */
  lemma RightIff(verdict: string, direction: string, change: real)
    ensures
      var (grade, pct) := HorizonOutcome(change);
      IsCorrect(verdict, direction, grade, pct) <==>
      match CallOf(verdict, direction)
      case Upward => change > 2.005
      case Downward => change < -2.005
      case Sideways => -2.005 <= change <= 2.005
  {
    GradeIff(change);
    UpwardPct(change);
    hide HorizonOutcome;
  }

  lemma UpwardPct(change: real)
    ensures
      var (grade, pct) := HorizonOutcome(change);
      pct.Some? && pct.value > 2.0 ==> grade.Pump? || grade.MildPump?
  {
    hide Round2;
  }

  /** A credit is right by the snapshot price and the recorded one-hour price alone. */
  predicate RightByPrice(call: Call, p: real, x: real) {
    match call
    case Upward => Above(p, x, 2.005)
    case Downward => Below(p, x, 2.005)
    case Sideways => !Above(p, x, 2.005) && !Below(p, x, 2.005)
  }

  /** In every run each credit is right exactly if the recorded one-hour price lies more than 2.005
      percent above the snapshot price for a bullish or up call, more than 2.005 percent below for any
      other bearish or down call, and in between for the rest. */
  lemma CreditsFollowPrices(ops: seq<Op>, i: nat, r: Receipt)
    requires IsRun(ops) && i < |After(ops).store.log| && r in After(ops).receipts
    requires r.message == After(ops).store.log[i].message
    ensures
      var row := RowOf(After(ops).store.outcomes, r.message);
      && row.Some? && row.value.h1.price.Some? && r.price.Some? && r.verdict.Some?
      && (r.price.value > 0.0 ==>
            (After(ops).store.log[i].correct <==>
             RightByPrice(CallOf(r.verdict.value, r.direction), r.price.value, row.value.h1.price.value)))
  {
    RunsKeepWorldOk(ops);
    hide IsRun, After, WorldOk, RowOf, CallOf, RightByPrice;
    CreditFollowsPrice(After(ops), i, r);
  }

  lemma CreditFollowsPrice(w: World, i: nat, r: Receipt)
    requires WorldOk(w) && i < |w.store.log| && r in w.receipts && r.message == w.store.log[i].message
    ensures
      var row := RowOf(w.store.outcomes, r.message);
      && row.Some? && row.value.h1.price.Some? && r.price.Some? && r.verdict.Some?
      && (r.price.value > 0.0 ==>
            (w.store.log[i].correct <==>
             RightByPrice(CallOf(r.verdict.value, r.direction), r.price.value, row.value.h1.price.value)))
  {
    hide WorldOk, RowOf, IsCorrect, CallOf, RightByPrice, RowOk;
    var row := RowOf(w.store.outcomes, r.message);
    CreditIsOfReceipt(w, i, r);
    RowIsOfReceipt(w, r);
    FirstHorizonIsRecorded(row.value, r);
    if r.price.value > 0.0 { RightFollowsPrice(r, row.value.h1); }
  }

  lemma CreditIsOfReceipt(w: World, i: nat, r: Receipt)
    requires WorldOk(w) && i < |w.store.log| && r in w.receipts && r.message == w.store.log[i].message
    ensures FitsReceipt(w.store.log[i], r, RowOf(w.store.outcomes, r.message))
  {
    hide RowOf, LogOk, RowsOk, FitsReceipt;
    var e := w.store.log[i];
    assert IsCredit(e, w.receipts, w.store.outcomes);
    var x :| x in w.receipts && FitsReceipt(e, x, RowOf(w.store.outcomes, e.message));
    assert x.message == e.message by { FitsMessage(e, x, RowOf(w.store.outcomes, e.message)); }
    assert x == r;
  }

  lemma FitsMessage(e: Scored, r: Receipt, row: Option<Row>)
    requires FitsReceipt(e, r, row)
    ensures r.message == e.message
  {
  }

  lemma RowIsOfReceipt(w: World, r: Receipt)
    requires WorldOk(w) && r in w.receipts && RowOf(w.store.outcomes, r.message).Some?
    ensures RowOk(RowOf(w.store.outcomes, r.message).value, r)
  {
    hide RowOf, LogOk, RowOk, IsCredit;
  }

  lemma FirstHorizonIsRecorded(row: Row, r: Receipt)
    requires RowOk(row, r)
    ensures Recorded(row.h1, r, 1.0)
  {
  }

  lemma RightFollowsPrice(r: Receipt, h: Horizon)
    requires Recorded(h, r, 1.0) && r.price.value > 0.0 && r.verdict.Some?
    ensures IsCorrect(r.verdict.value, r.direction, h.grade.value, h.pct) <==>
            RightByPrice(CallOf(r.verdict.value, r.direction), r.price.value, h.price.value)
  {
    var p, x := r.price.value, h.price.value;
    RightIff(r.verdict.value, r.direction, PercentChange(p, x));
    ChangeOver(p, x, 2.005);
    ChangeOver(p, x, -2.005);
    hide HorizonOutcome, PercentChange, IsCorrect, CallOf;
  }

  // ---------------------------------------------------------------- what a turn does

  /** A turn saves exactly when price and snapshot are usable and a horizon is due that has no price. */
  lemma SavesIff(p: Pending, g: Reading)
    ensures Saves(p, g) <==>
            && p.receipt.price.Some? && p.receipt.price.value != 0.0 && p.receipt.at.Some? && g.price.Some?
            && var elapsed := g.now - p.receipt.at.value;
               || (elapsed >= 3600.0 && (p.seen.None? || p.seen.value.h1.price.None?))
               || (elapsed >= 14400.0 && (p.seen.None? || p.seen.value.h4.price.None?))
               || (elapsed >= 86400.0 && (p.seen.None? || p.seen.value.h24.price.None?))
  {
    hide HorizonOutcome, PercentChange, Rounded;
  }

  /** What a turn saves: for each horizon due the price found, stamped after it was due, and for a move
      how long it took, to a hundredth of an hour. */
  lemma DataTells(p: Pending, g: Reading)
    requires Saves(p, g)
    ensures
      var data := OutcomeData(p, g);
      && (data.h1 != BLANK ==> data.h1.price == g.price && data.h1.at == Some(g.at1))
      && (data.h4 != BLANK ==> data.h4.price == g.price && data.h4.at == Some(g.at4))
      && (data.h24 != BLANK ==> data.h24.price == g.price && data.h24.at == Some(g.at24))
      && (data.timeToPump.Some? ==>
            var elapsed := g.now - p.receipt.at.value;
            -18.0 <= data.timeToPump.value * 3600.0 - elapsed <= 18.0)
  {
    hide HorizonOutcome, PercentChange;
    var hours := (g.now - p.receipt.at.value) / 3600.0;
    var n := RoundedIsNearest(hours, 100.0);
    hide Rounded;
    assert hours * 3600.0 == g.now - p.receipt.at.value;
  }

  /** A turn that saves nothing changes nothing, and only a first save of a message with a verdict counts. */
  lemma ScoresIff(p: Pending, g: Reading)
    ensures Scores(p, g) <==> Saves(p, g) && p.receipt.verdict.Some? && p.seen.None? && g.counts
    ensures forall s: Store :: !Saves(p, g) ==> Handle(s, p, g) == s
  {
  }

  /** The list a pass reads is complete: every receipt whose row is missing or lacks its 24-hour time. */
  lemma {:induction false} UnresolvedIsComplete(receipts: seq<Receipt>, o: seq<Outcome>, r: Receipt)
    requires r in receipts
    requires RowOf(o, r.message).None? || RowOf(o, r.message).value.h24.at.None?
    ensures Pending(r, RowOf(o, r.message)) in Unresolved(receipts, o)
  {
    hide RowOf;
    var before, last := receipts[..|receipts| - 1], receipts[|receipts| - 1];
    assert receipts == before + [last];
    if r in before { UnresolvedIsComplete(before, o, r); }
  }

  /** Trimming takes white space off both ends and nothing else. */
  lemma {:induction false} StripTrims(s: string) returns (before: string, after: string)
    ensures s == before + Strip(s) + after
    ensures forall c :: c in before || c in after ==> IsSpace(c)
    decreases |s|
  {
    hide IsSpace;
    before, after := "", "";
    if s != "" && IsSpace(s[0]) {
      before, after := StripTrims(s[1..]);
      before := [s[0]] + before;
    } else if s != "" && IsSpace(s[|s| - 1]) {
      before, after := StripTrims(s[..|s| - 1]);
      after := after + [s[|s| - 1]];
    }
  }

  /** A credit goes to the author's id with the white space around it gone; an id, and likewise a
      shown name, of nothing but white space has a stand-in. */
  lemma AuthorIsTrimmed(author: string) returns (before: string, after: string)
    ensures if forall c :: c in author ==> IsSpace(c)
      then AuthorKey(author) == "unknown" && AuthorName(author) == "Unknown"
      else
        && AuthorName(author) == AuthorKey(author) != "" && author == before + AuthorKey(author) + after
        && !IsSpace(AuthorKey(author)[0]) && !IsSpace(AuthorKey(author)[|AuthorKey(author)| - 1])
    ensures forall c :: c in before || c in after ==> IsSpace(c)
  {
    hide IsSpace;
    before, after := StripTrims(author);
    assert Strip(author) != "" ==> Strip(author)[0] in author;
  }
}
