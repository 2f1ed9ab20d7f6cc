/** Price outcomes of messages: grading at 1, 4 and 24 hours over repeated passes, and the author
    tallies fed by them. Times are in seconds. */
module OutcomeLedger {
  import opened Prelude

  const HOUR := 3600.0

  // ---------------------------------------------------------------- grading

  datatype Grade = Pump | MildPump | Dump | MildDump | Stable

  /** Rounding to one part in `scale`, ties to the even neighbour. */
  function Rounded(x: real, scale: real): real
    requires scale > 0.0
  {
    var y := x * scale;
    var f := y.Floor;
    var d := y - f as real;
    (if d < 0.5 || (d == 0.5 && f % 2 == 0) then f as real else (f + 1) as real) / scale
  }

  function Round2(x: real): real { Rounded(x, 100.0) }

  /** The grade of a change in percent, with the rounded change unless it is stable. */
  function HorizonOutcome(change: real): (Grade, Option<real>)
  {
    var pct := Round2(change);
    if pct > 5.0 then (Pump, Some(pct))
    else if pct > 2.0 then (MildPump, Some(pct))
    else if pct < -5.0 then (Dump, Some(pct))
    else if pct < -2.0 then (MildDump, Some(pct))
    else (Stable, None)
  }

  /** A change is graded by the unrounded thresholds 5.005 and 2.005, and carries its rounded value
      exactly when it is not stable. */
  lemma GradeIff(change: real)
    ensures
      var (grade, pct) := HorizonOutcome(change);
      && (grade == Pump <==> change > 5.005)
      && (grade == MildPump <==> 2.005 < change <= 5.005)
      && (grade == Dump <==> change < -5.005)
      && (grade == MildDump <==> -5.005 <= change < -2.005)
      && (pct == None <==> grade == Stable)
      && (pct.Some? ==> -0.005 <= pct.value - change <= 0.005)
  {
  }

  // ---------------------------------------------------------------- tables

  /** The four columns of one horizon. */
  datatype Horizon = Horizon(price: Option<real>, at: Option<real>, grade: Option<Grade>, pct: Option<real>)

  /** The columns of an outcome row, and of the data a save is given. */
  datatype Row = Row(h1: Horizon, h4: Horizon, h24: Horizon, price7d: Option<real>,
                     pctMax: Option<real>, timeToPump: Option<real>, duration: Option<real>,
                     resurgence: Option<real>, outcome: Option<Grade>)
  datatype Outcome = Outcome(message: int, row: Row)

  /** A message with its price snapshot; a None is a missing price or an unreadable timestamp. */
  datatype Receipt = Receipt(message: int, author: string, name: string, verdict: Option<string>, direction: string,
                             price: Option<real>, at: Option<real>)

  /** A receipt still waiting for its 24-hour price, with the outcome row it had when it was read. */
  datatype Pending = Pending(receipt: Receipt, seen: Option<Row>)

  datatype Tally = Tally(name: string, total: nat, correct: nat, accuracy: real)
  datatype Scored = Scored(message: int, author: string, name: string, correct: bool)

  const BLANK := Horizon(None, None, None, None)

  function Coalesce<T>(a: Option<T>, b: Option<T>): Option<T> { if a.Some? then a else b }

  function CoalesceHorizon(a: Horizon, b: Horizon): Horizon {
    Horizon(Coalesce(a.price, b.price), Coalesce(a.at, b.at), Coalesce(a.grade, b.grade), Coalesce(a.pct, b.pct))
  }

  /** A caller older than the per-horizon columns may correct the one-hour price. */
  predicate IsLegacy(data: Row) { data.h1.price.Some? && data.h1.at.None? && data.h1.grade.None? }

  function Merged(row: Row, data: Row): Row {
    var h1 := CoalesceHorizon(row.h1, data.h1);
    Row(if IsLegacy(data) then h1.(price := data.h1.price) else h1,
        CoalesceHorizon(row.h4, data.h4), CoalesceHorizon(row.h24, data.h24),
        Coalesce(row.price7d, data.price7d), data.pctMax, data.timeToPump,
        data.duration, data.resurgence, data.outcome)
  }

  /** The first row of a message. */
  function IndexOf(o: seq<Outcome>, m: int): (r: Option<nat>)
    ensures r.Some? ==> r.value < |o| && o[r.value].message == m && forall j :: 0 <= j < r.value ==> o[j].message != m
    ensures r.None? ==> forall j :: 0 <= j < |o| ==> o[j].message != m
  {
    if o == [] then None
    else
      var before := IndexOf(o[..|o| - 1], m);
      if before.Some? then before else if o[|o| - 1].message == m then Some(|o| - 1) else None
  }

  function RowOf(o: seq<Outcome>, m: int): Option<Row> {
    var i := IndexOf(o, m);
    if i.Some? then Some(o[i.value].row) else None
  }

  function Saved(o: seq<Outcome>, m: int, data: Row): seq<Outcome> {
    var i := IndexOf(o, m);
    if i.Some? then o[i.value := Outcome(m, Merged(o[i.value].row, data))] else o + [Outcome(m, data)]
  }

  predicate IsUnresolved(row: Option<Row>) { row.None? || row.value.h24.at.None? }

  /** Behind every row of a message that does not come later. */
  function InsertPending(p: Pending, rows: seq<Pending>): (r: seq<Pending>)
    ensures forall x :: x in r <==> x == p || x in rows
  {
    if rows == [] || p.receipt.message < rows[0].receipt.message then [p] + rows
    else [rows[0]] + InsertPending(p, rows[1..])
  }

  /** The unresolved receipts in the order of their messages. */
  function Unresolved(receipts: seq<Receipt>, o: seq<Outcome>): seq<Pending> {
    if receipts == [] then []
    else
      var r := receipts[|receipts| - 1];
      var row := RowOf(o, r.message);
      var rows := Unresolved(receipts[..|receipts| - 1], o);
      if IsUnresolved(row) then InsertPending(Pending(r, row), rows) else rows
  }

  predicate IsSpace(c: char) {
    || c in " \t\n\r" || '\U{0B}' <= c <= '\U{0C}' || '\U{1C}' <= c <= '\U{1F}' || c == '\U{85}' || c == '\U{A0}'
    || c == '\U{1680}' || '\U{2000}' <= c <= '\U{200A}' || '\U{2028}' <= c <= '\U{2029}' || c == '\U{202F}'
    || c == '\U{205F}' || c == '\U{3000}'
  }

  /** Without white space at either end. */
  function Strip(s: string): (r: string)
    ensures r != "" ==> !IsSpace(r[0]) && !IsSpace(r[|r| - 1])
    decreases |s|
  {
    if s == "" then s
    else if IsSpace(s[0]) then Strip(s[1..])
    else if IsSpace(s[|s| - 1]) then Strip(s[..|s| - 1])
    else s
  }

  function AuthorKey(author: string): string { if Strip(author) == "" then "unknown" else Strip(author) }

  function AuthorName(name: string): string { if Strip(name) == "" then "Unknown" else Strip(name) }

  function Counted(tallies: map<string, Tally>, author: string, name: string, correct: bool): map<string, Tally> {
    var key := AuthorKey(author);
    var total := (if key in tallies then tallies[key].total else 0) + 1;
    var right := (if key in tallies then tallies[key].correct else 0) + (if correct then 1 else 0);
    tallies[key := Tally(AuthorName(name), total, right, Rounded(right as real / total as real, 10000.0))]
  }

  // ---------------------------------------------------------------- one pass

  /** What a pass meets at one message: the clock, the price found, the clock again as each horizon
      is stamped, and whether the call is eligible and its counting succeeds. */
  datatype Reading = Reading(now: real, price: Option<real>, at1: real, at4: real, at24: real, counts: bool)

  /** The tables a pass writes; the log is a history of the increments, which nothing reads. */
  datatype Store = Store(outcomes: seq<Outcome>, tallies: map<string, Tally>, log: seq<Scored>)

  predicate Usable(r: Receipt, g: Reading) { r.price.Some? && r.at.Some? && g.price.Some? && r.price.value != 0.0 }

  function PercentChange(from: real, to: real): real
    requires from != 0.0
  {
    (to - from) / from * 100.0
  }

  function Emitted(hours: real, seen: Horizon, r: Receipt, g: Reading, at: real): Horizon
    requires Usable(r, g)
  {
    if g.now - r.at.value < hours * HOUR || seen.price.Some? then BLANK
    else
      var (grade, pct) := HorizonOutcome(PercentChange(r.price.value, g.price.value));
      Horizon(g.price, Some(at), Some(grade), pct)
  }

  /** The data a pass gathers for one message. */
  function OutcomeData(p: Pending, g: Reading): Row
    requires Usable(p.receipt, g)
  {
    var r := p.receipt;
    var h1 := Emitted(1.0, if p.seen.Some? then p.seen.value.h1 else BLANK, r, g, g.at1);
    var h4 := Emitted(4.0, if p.seen.Some? then p.seen.value.h4 else BLANK, r, g, g.at4);
    var h24 := Emitted(24.0, if p.seen.Some? then p.seen.value.h24 else BLANK, r, g, g.at24);
    var (grade, pct) := HorizonOutcome(PercentChange(r.price.value, g.price.value));
    var any := h1 != BLANK || h4 != BLANK || h24 != BLANK;
    Row(h1, h4, h24, if g.now - r.at.value >= 168.0 * HOUR then g.price else None,
        if any then pct else None,
        if any && pct.Some? then Some(Rounded((g.now - r.at.value) / HOUR, 100.0)) else None, None, None,
        if any then Some(grade) else None)
  }

  predicate Saves(p: Pending, g: Reading) {
    Usable(p.receipt, g) &&
    var data := OutcomeData(p, g);
    data.h1.price.Some? || data.h4.price.Some? || data.h24.price.Some?
  }

  predicate Scores(p: Pending, g: Reading) {
    Saves(p, g) && p.receipt.verdict.Some? && p.seen.None? && g.counts
  }

  lemma SavedHasOutcome(p: Pending, g: Reading)
    requires Saves(p, g)
    ensures OutcomeData(p, g).outcome.Some?
  {
  }

  /** `_is_correct_prediction`. */
  predicate IsCorrect(verdict: string, direction: string, grade: Grade, pct: Option<real>) {
    if verdict == "bullish" || direction == "up" then grade.Pump? || grade.MildPump? || (pct.Some? && pct.value > 2.0)
    else if verdict == "bearish" || direction == "down" then grade.Dump? || grade.MildDump?
    else grade.Stable?
  }

  /** A scored call is right or wrong by the outcome just saved. */
  predicate IsRight(p: Pending, g: Reading)
    requires Scores(p, g)
  {
    var data := OutcomeData(p, g);
    IsCorrect(p.receipt.verdict.value, p.receipt.direction, data.outcome.value, data.pctMax)
  }

  function CreditOf(p: Pending, g: Reading): Scored
    requires Scores(p, g)
  {
    Scored(p.receipt.message, AuthorKey(p.receipt.author), AuthorName(p.receipt.name), IsRight(p, g))
  }

  function Handle(s: Store, p: Pending, g: Reading): Store {
    if !Saves(p, g) then s
    else
      var outcomes := Saved(s.outcomes, p.receipt.message, OutcomeData(p, g));
      if Scores(p, g) then
        Store(outcomes, Counted(s.tallies, p.receipt.author, p.receipt.name, IsRight(p, g)), s.log + [CreditOf(p, g)])
      else s.(outcomes := outcomes)
  }

  /** A pass that got as far as there are readings. */
  function Handled(s: Store, rows: seq<Pending>, readings: seq<Reading>): Store
    requires |readings| <= |rows|
  {
    if readings == [] then s
    else
      var n := |readings| - 1;
      Handle(Handled(s, rows, readings[..n]), rows[n], readings[n])
  }

  // ---------------------------------------------------------------- the database and the tracker

  class Database {
    var receipts: seq<Receipt>
    var outcomes: seq<Outcome>
    var tallies: map<string, Tally>
    ghost var log: seq<Scored>

    constructor ()
      ensures receipts == [] && Tables() == Store([], map[], [])
    {
      receipts, outcomes, tallies, log := [], [], map[], [];
    }

    ghost function Tables(): Store reads this { Store(outcomes, tallies, log) }

    method GetUnresolvedOutcomes() returns (rows: seq<Pending>)
      ensures rows == Unresolved(receipts, outcomes)
    {
      rows := [];
      for i := 0 to |receipts|
        invariant rows == Unresolved(receipts[..i], outcomes)
      {
        assert receipts[..i + 1][..i] == receipts[..i];
        var existing := FindRow(receipts[i].message);
        var row := if existing.Some? then Some(outcomes[existing.value].row) else None;
        if row.None? || row.value.h24.at.None? { rows := InsertPending(Pending(receipts[i], row), rows); }
      }
      assert receipts[..|receipts|] == receipts;
    }

    method FindRow(message: int) returns (i: Option<nat>)
      ensures i == IndexOf(outcomes, message)
    {
      for j := 0 to |outcomes|
        invariant forall k :: 0 <= k < j ==> outcomes[k].message != message
      {
        if outcomes[j].message == message { return Some(j); }
      }
      return None;
    }

    method SavePriceOutcome(message: int, data: Row)
      modifies this`outcomes
      ensures outcomes == Saved(old(outcomes), message, data)
    {
      var i := FindRow(message);
      if i.Some? {
        var was := outcomes[i.value].row;
        var row := Row(CoalesceHorizon(was.h1, data.h1), CoalesceHorizon(was.h4, data.h4),
                       CoalesceHorizon(was.h24, data.h24), Coalesce(was.price7d, data.price7d),
                       data.pctMax, data.timeToPump, data.duration, data.resurgence, data.outcome);
        outcomes := outcomes[i.value := Outcome(message, row)];
        if data.h1.price.Some? && data.h1.at.None? && data.h1.grade.None? {
          outcomes := outcomes[i.value := Outcome(message, row.(h1 := row.h1.(price := data.h1.price)))];
        }
        return;
      }
      outcomes := outcomes + [Outcome(message, data)];
    }

    method IncrementAuthorReliability(ghost message: int, author: string, name: string, correct: bool)
      modifies this`tallies, this`log
      ensures tallies == Counted(old(tallies), author, name, correct)
      ensures log == old(log) + [Scored(message, AuthorKey(author), AuthorName(name), correct)]
    {
      hide Strip, Rounded;
      var key, shown := Strip(author), Strip(name);
      if key == "" { key := "unknown"; }
      if shown == "" { shown := "Unknown"; }
      var total, right := 0, 0;
      if key in tallies { total, right := tallies[key].total, tallies[key].correct; }
      total := total + 1;
      if correct { right := right + 1; }
      tallies := tallies[key := Tally(shown, total, right, Rounded(right as real / total as real, 10000.0))];
      log := log + [Scored(message, key, shown, correct)];
    }
  }

  class PriceTracker {
    const db: Database

    constructor (db: Database)
      ensures this.db == db
    {
      this.db := db;
    }

    /** One background pass; it stops early when the readings do. */
    method CheckOutcomes(readings: seq<Reading>)
      modifies db
      ensures db.receipts == old(db.receipts)
      ensures
        var rows := Unresolved(db.receipts, old(db.outcomes));
        db.Tables() == Handled(old(db.Tables()), rows, readings[..Min(|readings|, |rows|)])
    {
      hide Handle, Unresolved, Saved, Counted;
      var rows := db.GetUnresolvedOutcomes();
      var n := 0;
      while n < |rows| && n < |readings|
        invariant 0 <= n <= |rows| && n <= |readings|
        invariant db.receipts == old(db.receipts)
        invariant db.Tables() == Handled(old(db.Tables()), rows, readings[..n])
      {
        assert readings[..n + 1][..n] == readings[..n];
        HandleMessage(rows[n], readings[n]);
        n := n + 1;
      }
    }

    method HandleMessage(p: Pending, g: Reading)
      modifies db
      ensures db.receipts == old(db.receipts) && db.Tables() == Handle(old(db.Tables()), p, g)
    {
      hide OutcomeData, Saved, Counted;
      var r := p.receipt;
      if r.price.None? || r.at.None? || g.price.None? || r.price.value == 0.0 { return; }
      var data := GatherOutcome(p, g);
      if data.h1.price.Some? || data.h4.price.Some? || data.h24.price.Some? {
        db.SavePriceOutcome(r.message, data);
        if r.verdict.Some? && p.seen.None? && g.counts {
          SavedHasOutcome(p, g);
          var right := IsCorrect(r.verdict.value, r.direction, data.outcome.value, data.pctMax);
          db.IncrementAuthorReliability(r.message, r.author, r.name, right);
        }
      }
    }

    /** The horizons that have matured and are still empty, all graded by the one price found. */
    method GatherOutcome(p: Pending, g: Reading) returns (data: Row)
      requires Usable(p.receipt, g)
      ensures data == OutcomeData(p, g)
    {
      hide HorizonOutcome, PercentChange, Rounded;
      var r := p.receipt;
      var (grade, pct) := HorizonOutcome(PercentChange(r.price.value, g.price.value));
      var elapsed := g.now - r.at.value;
      var hours := Rounded(elapsed / HOUR, 100.0);
      data := Row(BLANK, BLANK, BLANK, None, None, None, None, None, None);
      if !(elapsed < 1.0 * HOUR || (p.seen.Some? && p.seen.value.h1.price.Some?)) {
        data := data.(h1 := Horizon(g.price, Some(g.at1), Some(grade), pct), outcome := Some(grade), pctMax := pct,
                      timeToPump := if pct.Some? then Some(hours) else None);
      }
      if !(elapsed < 4.0 * HOUR || (p.seen.Some? && p.seen.value.h4.price.Some?)) {
        data := data.(h4 := Horizon(g.price, Some(g.at4), Some(grade), pct), outcome := Some(grade), pctMax := pct,
                      timeToPump := if pct.Some? then Some(hours) else None);
      }
      if !(elapsed < 24.0 * HOUR || (p.seen.Some? && p.seen.value.h24.price.Some?)) {
        data := data.(h24 := Horizon(g.price, Some(g.at24), Some(grade), pct), outcome := Some(grade), pctMax := pct,
                      timeToPump := if pct.Some? then Some(hours) else None);
      }
      if elapsed >= 168.0 * HOUR { data := data.(price7d := g.price); }
    }
  }

  // ---------------------------------------------------------------- runs

  datatype World = World(receipts: seq<Receipt>, store: Store)
  datatype Op = Receive(receipt: Receipt) | Pass(readings: seq<Reading>)

  const NOTHING_YET := World([], Store([], map[], []))

  function Apply(w: World, op: Op): World {
    match op
    case Receive(r) => w.(receipts := w.receipts + [r])
    case Pass(readings) =>
      var rows := Unresolved(w.receipts, w.store.outcomes);
      w.(store := Handled(w.store, rows, readings[..Min(|readings|, |rows|)]))
  }

  function After(ops: seq<Op>): World {
    if ops == [] then NOTHING_YET else Apply(After(ops[..|ops| - 1]), ops[|ops| - 1])
  }

  ghost predicate LegalReading(g: Reading) { g.now <= g.at1 <= g.at4 <= g.at24 }

  /** One receipt per message, and a clock that does not run backwards within a message. */
  ghost predicate Legal(w: World, op: Op) {
    match op
    case Receive(r) => forall x :: x in w.receipts ==> x.message != r.message
    case Pass(readings) => forall g :: g in readings ==> LegalReading(g)
  }

  ghost predicate IsRun(ops: seq<Op>) {
    forall i :: 0 <= i < |ops| ==> Legal(After(ops[..i]), ops[i])
  }

  // ---------------------------------------------------------------- what a row is

  /** A recorded horizon: graded from its own price, stamped no earlier than its maturity. */
  ghost predicate Recorded(h: Horizon, r: Receipt, hours: real) {
    && h.price.Some? && h.at.Some? && r.price.Some? && r.price.value != 0.0 && r.at.Some?
    && h.at.value >= r.at.value + hours * HOUR
    && (h.grade, h.pct) == (var (grade, pct) := HorizonOutcome(PercentChange(r.price.value, h.price.value));
                            (Some(grade), pct))
  }

  function Latest(row: Row): Horizon {
    if row.h24 != BLANK then row.h24 else if row.h4 != BLANK then row.h4 else row.h1
  }

  /** Horizons fill in order; the summary columns repeat the latest one; a seven-day price is the
      24-hour price of a pass that came seven days late. */
  ghost predicate RowOk(row: Row, r: Receipt) {
    && Recorded(row.h1, r, 1.0)
    && (row.h4 == BLANK || Recorded(row.h4, r, 4.0))
    && (row.h24 == BLANK || (Recorded(row.h24, r, 24.0) && row.h4 != BLANK))
    && (row.outcome, row.pctMax) == (Latest(row).grade, Latest(row).pct)
    && (row.timeToPump.Some? <==> row.pctMax.Some?)
    && (row.price7d.Some? ==> row.price7d == row.h24.price && Recorded(row.h24, r, 168.0))
  }

  ghost predicate HorizonKept(a: Horizon, b: Horizon) { a != BLANK ==> b == a }

  /** Every recorded horizon is still there, column by column. */
  ghost predicate RowKept(a: Row, b: Row) {
    && HorizonKept(a.h1, b.h1) && HorizonKept(a.h4, b.h4) && HorizonKept(a.h24, b.h24)
    && (a.price7d.Some? ==> b.price7d == a.price7d)
    && (!IsUnresolved(Some(a)) ==> b == a)
  }

  ghost predicate OneRowEach(o: seq<Outcome>) {
    forall i, j :: 0 <= i < j < |o| ==> o[i].message != o[j].message
  }

  lemma SavedRows(o: seq<Outcome>, m: int, data: Row)
    requires OneRowEach(o)
    ensures OneRowEach(Saved(o, m, data))
    ensures forall k :: RowOf(Saved(o, m, data), k) ==
              if k != m then RowOf(o, k)
              else if RowOf(o, m).Some? then Some(Merged(RowOf(o, m).value, data)) else Some(data)
  {
    hide Merged;
    var after := Saved(o, m, data);
    forall k ensures RowOf(after, k) ==
                     if k != m then RowOf(o, k)
                     else if RowOf(o, m).Some? then Some(Merged(RowOf(o, m).value, data)) else Some(data)
    {
      var i, j := IndexOf(o, k), IndexOf(after, k);
      assert forall n :: 0 <= n < |o| ==> after[n].message == o[n].message;
      if i.Some? { assert after[i.value].message == k; }
      if k == m { assert after[if i.Some? then i.value else |o|].message == k; }
    }
  }

  /** A save keeps every column it finds filled, but for the one-hour price, which changes exactly
      when the data is an older caller's correction. */
  lemma SaveKeepsFilled(row: Row, data: Row)
    requires row.h1.price.Some?
    ensures
      var next := Merged(row, data);
      && (next.h1.price == row.h1.price <==>
          data.h1.price in {None, row.h1.price} || data.h1.at.Some? || data.h1.grade.Some?)
      && (row.h1.at.Some? ==> next.h1.at == row.h1.at) && (row.h1.grade.Some? ==> next.h1.grade == row.h1.grade)
      && (row.h4.price.Some? ==> next.h4.price == row.h4.price)
      && (row.h24.price.Some? ==> next.h24.price == row.h24.price)
  {
  }

  /** The heart of a pass: from a good row, or none, a save makes a good row that keeps it. */
  lemma SaveMakesGoodRow(p: Pending, g: Reading)
    requires Saves(p, g) && LegalReading(g) && IsUnresolved(p.seen)
    requires p.seen.Some? ==> RowOk(p.seen.value, p.receipt)
    ensures
      var data := OutcomeData(p, g);
      if p.seen.Some? then
        RowOk(Merged(p.seen.value, data), p.receipt) && RowKept(p.seen.value, Merged(p.seen.value, data))
      else RowOk(data, p.receipt)
  {
  }

  /** A usable reading of a waiting receipt leaves exactly the horizons recorded that were recorded
      before or have matured, and a seven-day price exactly if it comes seven days late. */
  lemma MaturedIsRecordedIff(p: Pending, g: Reading)
    requires Usable(p.receipt, g) && IsUnresolved(p.seen)
    requires p.seen.Some? ==> RowOk(p.seen.value, p.receipt)
    ensures
      var was := if p.seen.Some? then p.seen.value else Row(BLANK, BLANK, BLANK, None, None, None, None, None, None);
      var now := if Saves(p, g) then Merged(was, OutcomeData(p, g)) else was;
      var elapsed := g.now - p.receipt.at.value;
      && (now.h1 != BLANK <==> was.h1 != BLANK || elapsed >= 3600.0)
      && (now.h4 != BLANK <==> was.h4 != BLANK || elapsed >= 14400.0)
      && (now.h24 != BLANK <==> elapsed >= 86400.0)
      && (now.price7d.Some? <==> elapsed >= 604800.0)
  {
  }

  /** The rounded change a recorded horizon was graded by, and whether that is a move. */
  function ChangeAt(r: Receipt, h: Horizon): real
    requires r.price.Some? && r.price.value != 0.0 && h.price.Some?
  {
    Round2(PercentChange(r.price.value, h.price.value))
  }

  predicate Moves(change: real) { change > 2.0 || change < -2.0 }

  predicate Covers(max: Option<real>, h: Horizon) { h.pct.Some? ==> max.Some? && h.pct.value <= max.value }

  predicate PctMaxIsLargest(row: Row) {
    Covers(row.pctMax, row.h1) && Covers(row.pctMax, row.h4) && Covers(row.pctMax, row.h24)
  }

  /** The latest price is a move at least as far up as the price of `h`, if that is a move. */
  predicate Tops(r: Receipt, last: Horizon, h: Horizon)
    requires r.price.Some? && r.price.value != 0.0 && last.price.Some? && (h == BLANK || h.price.Some?)
  {
    h != BLANK && Moves(ChangeAt(r, h)) ==> Moves(ChangeAt(r, last)) && ChangeAt(r, h) <= ChangeAt(r, last)
  }

  /** `pump_pct_max` is the largest recorded percentage exactly when the latest recorded price tops
      every other. */
  lemma PctMaxIsLargestIff(row: Row, r: Receipt)
    requires RowOk(row, r)
    ensures PctMaxIsLargest(row) <==>
            Tops(r, Latest(row), row.h1) && Tops(r, Latest(row), row.h4) && Tops(r, Latest(row), row.h24)
  {
    hide Rounded, PercentChange;
  }

  // ---------------------------------------------------------------- what every run keeps

  ghost predicate OneReceiptEach(receipts: seq<Receipt>) {
    forall i, j :: 0 <= i < j < |receipts| ==> receipts[i].message != receipts[j].message
  }

  ghost predicate IsReceived(receipts: seq<Receipt>, m: int) { exists r :: r in receipts && r.message == m }

  /** One row per message at most, each belonging to a receipt and in order. */
  ghost predicate RowsOk(o: seq<Outcome>, receipts: seq<Receipt>) {
    && OneRowEach(o)
    && (forall r :: r in receipts && RowOf(o, r.message).Some? ==> RowOk(RowOf(o, r.message).value, r))
    && (forall m :: RowOf(o, m).Some? ==> IsReceived(receipts, m))
  }

  ghost predicate RowsKept(a: seq<Outcome>, b: seq<Outcome>) {
    forall m :: RowOf(a, m).Some? ==> RowOf(b, m).Some? && RowKept(RowOf(a, m).value, RowOf(b, m).value)
  }

  function CountOf(log: seq<Scored>, key: string): nat {
    if log == [] then 0 else CountOf(log[..|log| - 1], key) + (if log[|log| - 1].author == key then 1 else 0)
  }

  function CorrectOf(log: seq<Scored>, key: string): nat {
    if log == [] then 0
    else CorrectOf(log[..|log| - 1], key) + (if log[|log| - 1].author == key && log[|log| - 1].correct then 1 else 0)
  }

  /** The name an author was last credited under. */
  function LastName(log: seq<Scored>, key: string): string {
    if log == [] then ""
    else if log[|log| - 1].author == key then log[|log| - 1].name
    else LastName(log[..|log| - 1], key)
  }

  /** The tallies are the log counted up. */
  ghost predicate TalliesMatch(tallies: map<string, Tally>, log: seq<Scored>) {
    forall key ::
      if key in tallies then
        var t := tallies[key];
        && t.total == CountOf(log, key) > 0 && t.correct == CorrectOf(log, key)
        && t.name == LastName(log, key) && t.accuracy == Rounded(t.correct as real / t.total as real, 10000.0)
      else CountOf(log, key) == 0 == CorrectOf(log, key)
  }

  /** No message is counted twice, and each that is counted has its row. */
  ghost predicate LogOk(s: Store) {
    && (forall i, j :: 0 <= i < j < |s.log| ==> s.log[i].message != s.log[j].message)
    && (forall i :: 0 <= i < |s.log| ==> RowOf(s.outcomes, s.log[i].message).Some?)
    && TalliesMatch(s.tallies, s.log)
  }

  /** An entry of the log credits the author of a received message that has a verdict, and calls it
      right exactly when the one-hour grade on record says so. */
  ghost predicate IsCredit(e: Scored, receipts: seq<Receipt>, o: seq<Outcome>) {
    exists r :: r in receipts && FitsReceipt(e, r, RowOf(o, e.message))
  }

  ghost predicate FitsReceipt(e: Scored, r: Receipt, row: Option<Row>) {
    && r.message == e.message && r.verdict.Some? && AuthorKey(r.author) == e.author && AuthorName(r.name) == e.name
    && row.Some? && row.value.h1.grade.Some?
    && (e.correct <==> IsCorrect(r.verdict.value, r.direction, row.value.h1.grade.value, row.value.h1.pct))
  }

  ghost predicate WorldOk(w: World) {
    && OneReceiptEach(w.receipts) && RowsOk(w.store.outcomes, w.receipts) && LogOk(w.store)
    && forall i :: 0 <= i < |w.store.log| ==> IsCredit(w.store.log[i], w.receipts, w.store.outcomes)
  }

  lemma CountingMatches(tallies: map<string, Tally>, log: seq<Scored>, p: Pending, g: Reading)
    requires TalliesMatch(tallies, log) && Scores(p, g)
    ensures TalliesMatch(Counted(tallies, p.receipt.author, p.receipt.name, IsRight(p, g)), log + [CreditOf(p, g)])
  {
    hide AuthorKey, AuthorName, Rounded, IsRight, Scores;
    var more := log + [CreditOf(p, g)];
    assert more[..|log|] == log && more[|log|] == CreditOf(p, g);
  }

  lemma RowsKeptTrans(a: seq<Outcome>, b: seq<Outcome>, c: seq<Outcome>)
    requires RowsKept(a, b) && RowsKept(b, c)
    ensures RowsKept(a, c)
  {
  }

  /** Handling one message writes that message's row only, keeps what it held and counts it at most once. */
  lemma HandleKeeps(s: Store, p: Pending, g: Reading, receipts: seq<Receipt>)
    requires WorldOk(World(receipts, s)) && LegalReading(g)
    requires p.receipt in receipts && IsUnresolved(p.seen) && p.seen == RowOf(s.outcomes, p.receipt.message)
    ensures
      var t := Handle(s, p, g);
      && WorldOk(World(receipts, t)) && RowsKept(s.outcomes, t.outcomes)
      && forall k :: k != p.receipt.message ==> RowOf(t.outcomes, k) == RowOf(s.outcomes, k)
  {
    hide RowOf, Saved, Merged, OutcomeData, RowOk, RowKept, Counted, TalliesMatch, IsUnresolved, Strip, IsCredit;
    KeepsItself(s.outcomes);
    var t := Handle(s, p, g);
    if Saves(p, g) {
      var m := p.receipt.message;
      SavedRows(s.outcomes, m, OutcomeData(p, g));
      SaveMakesGoodRow(p, g);
      assert IsReceived(receipts, m);
      assert forall r :: r in receipts && r.message == m ==> r == p.receipt;
      if Scores(p, g) {
        CountingMatches(s.tallies, s.log, p, g);
        CreditFits(p, g, receipts, t.outcomes);
      }
    }
    assert RowsKept(s.outcomes, t.outcomes);
    hide RowsKept;
    forall e | IsCredit(e, receipts, s.outcomes) ensures IsCredit(e, receipts, t.outcomes) {
      CreditStays(e, receipts, s.outcomes, t.outcomes);
    }
  }

  lemma CreditFits(p: Pending, g: Reading, receipts: seq<Receipt>, o: seq<Outcome>)
    requires Scores(p, g) && p.receipt in receipts && RowOf(o, p.receipt.message) == Some(OutcomeData(p, g))
    ensures IsCredit(CreditOf(p, g), receipts, o)
  {
    hide HorizonOutcome, PercentChange, RowOf, Rounded;
    assert FitsReceipt(CreditOf(p, g), p.receipt, RowOf(o, p.receipt.message));
  }

  lemma CreditStays(e: Scored, receipts: seq<Receipt>, o: seq<Outcome>, o': seq<Outcome>)
    requires IsCredit(e, receipts, o) && RowsKept(o, o')
    ensures IsCredit(e, receipts, o')
  {
    hide RowOf;
    var r :| r in receipts && FitsReceipt(e, r, RowOf(o, e.message));
    assert FitsReceipt(e, r, RowOf(o', e.message));
  }

  lemma KeepsItself(o: seq<Outcome>)
    ensures forall m :: RowOf(o, m).Some? ==> RowKept(RowOf(o, m).value, RowOf(o, m).value)
  {
  }

  /** Each row is an unresolved receipt with the outcome row it has. */
  ghost predicate RowsFit(rows: seq<Pending>, receipts: seq<Receipt>, o: seq<Outcome>) {
    forall i :: 0 <= i < |rows| ==> rows[i].receipt in receipts && IsUnresolved(rows[i].seen)
                                    && rows[i].seen == RowOf(o, rows[i].receipt.message)
  }

  lemma {:induction false} UnresolvedRows(receipts: seq<Receipt>, o: seq<Outcome>)
    ensures RowsFit(Unresolved(receipts, o), receipts, o)
  {
    hide RowOf, IsUnresolved;
    if receipts != [] {
      var before, r := receipts[..|receipts| - 1], receipts[|receipts| - 1];
      UnresolvedRows(before, o);
      assert receipts == before + [r];
      var known, rows := Unresolved(before, o), Unresolved(receipts, o);
      forall i | 0 <= i < |rows| ensures rows[i].receipt in receipts && IsUnresolved(rows[i].seen)
                                         && rows[i].seen == RowOf(o, rows[i].receipt.message) {
        assert rows[i] in rows;
        if rows[i] in known {
          var k :| 0 <= k < |known| && known[k] == rows[i];
        }
      }
    }
  }

  ghost predicate MessagesAscend(rows: seq<Pending>) {
    forall i, j :: 0 <= i < j < |rows| ==> rows[i].receipt.message < rows[j].receipt.message
  }

  lemma {:induction false} InsertPendingAscends(p: Pending, rows: seq<Pending>)
    requires MessagesAscend(rows) && forall x :: x in rows ==> x.receipt.message != p.receipt.message
    ensures MessagesAscend(InsertPending(p, rows))
  {
    if rows != [] && rows[0].receipt.message <= p.receipt.message {
      InsertPendingAscends(p, rows[1..]);
      var r := InsertPending(p, rows[1..]);
      forall j | 0 <= j < |r| ensures rows[0].receipt.message < r[j].receipt.message {
        assert r[j] in r && rows[0] in rows;
      }
    }
  }

  /** With one receipt per message, the list read at the start of a pass ascends strictly. */
  lemma {:induction false} UnresolvedAscend(receipts: seq<Receipt>, o: seq<Outcome>)
    requires OneReceiptEach(receipts)
    ensures MessagesAscend(Unresolved(receipts, o))
  {
    hide RowOf, IsUnresolved;
    if receipts != [] {
      var before, r := receipts[..|receipts| - 1], receipts[|receipts| - 1];
      UnresolvedAscend(before, o);
      UnresolvedRows(before, o);
      var known := Unresolved(before, o);
      forall x | x in known ensures x.receipt.message != r.message {
        var k :| 0 <= k < |known| && known[k] == x;
        assert known[k].receipt in before;
      }
      InsertPendingAscends(Pending(r, RowOf(o, r.message)), known);
    }
  }

  /** A pass, however far it gets, keeps the tables in order and loses nothing recorded. */
  lemma {:induction false} PassKeeps(w: World, rows: seq<Pending>, readings: seq<Reading>)
    requires WorldOk(w) && rows == Unresolved(w.receipts, w.store.outcomes) && |readings| <= |rows|
    requires forall g :: g in readings ==> LegalReading(g)
    ensures
      var t := Handled(w.store, rows, readings);
      && WorldOk(World(w.receipts, t)) && RowsKept(w.store.outcomes, t.outcomes)
      && forall i :: |readings| <= i < |rows| ==> RowOf(t.outcomes, rows[i].receipt.message) == rows[i].seen
  {
    hide RowOf, RowKept, Handle, Unresolved, RowsOk, LogOk, LegalReading;
    UnresolvedRows(w.receipts, w.store.outcomes);
    UnresolvedAscend(w.receipts, w.store.outcomes);
    if readings == [] {
      KeepsItself(w.store.outcomes);
    } else {
      var n := |readings| - 1;
      PassKeeps(w, rows, readings[..n]);
      var s := Handled(w.store, rows, readings[..n]);
      HandleKeeps(s, rows[n], readings[n], w.receipts);
      RowsKeptTrans(w.store.outcomes, s.outcomes, Handle(s, rows[n], readings[n]).outcomes);
    }
  }

  lemma StepKeeps(w: World, op: Op)
    requires WorldOk(w) && Legal(w, op)
    ensures WorldOk(Apply(w, op)) && RowsKept(w.store.outcomes, Apply(w, op).store.outcomes)
  {
    match op
    case Receive(r) =>
      hide RowOf, RowOk, LogOk, RowKept, FitsReceipt;
      KeepsItself(w.store.outcomes);
      assert forall x :: x in w.receipts ==> x in w.receipts + [r];
      forall m | RowOf(w.store.outcomes, m).Some? ensures IsReceived(w.receipts + [r], m) {
        var x :| x in w.receipts && x.message == m;
        assert x in w.receipts + [r];
      }
    case Pass(readings) =>
      hide WorldOk, LegalReading, RowsKept, Handled;
      var rows := Unresolved(w.receipts, w.store.outcomes);
      PassKeeps(w, rows, readings[..Min(|readings|, |rows|)]);
  }

  lemma PrefixIsRun(ops: seq<Op>, n: nat)
    requires IsRun(ops) && n <= |ops|
    ensures IsRun(ops[..n])
  {
    forall i | 0 <= i < n ensures Legal(After(ops[..n][..i]), ops[..n][i]) {
      assert ops[..n][..i] == ops[..i];
    }
  }

  /** In every run: at most one row per message, each with its horizons filled in order, graded from
      their own prices and dated no earlier than due; and each message counted for its author once
      at most. */
  lemma {:induction false} RunsKeepWorldOk(ops: seq<Op>)
    requires IsRun(ops)
    ensures WorldOk(After(ops))
  {
    if ops != [] {
      var n := |ops| - 1;
      PrefixIsRun(ops, n);
      RunsKeepWorldOk(ops[..n]);
      StepKeeps(After(ops[..n]), ops[n]);
    }
  }

  /** What a run has recorded by its `n`-th step it holds unchanged at its end. */
  lemma {:induction false} RecordedOnce(ops: seq<Op>, n: nat)
    requires IsRun(ops) && n <= |ops|
    ensures RowsKept(After(ops[..n]).store.outcomes, After(ops).store.outcomes)
    decreases |ops|
  {
    if n == |ops| {
      assert ops[..n] == ops;
      KeepsItself(After(ops).store.outcomes);
    } else {
      var last := |ops| - 1;
      PrefixIsRun(ops, last);
      RecordedOnce(ops[..last], n);
      assert ops[..last][..n] == ops[..n];
      RunsKeepWorldOk(ops[..last]);
      StepKeeps(After(ops[..last]), ops[last]);
      RowsKeptTrans(After(ops[..n]).store.outcomes, After(ops[..last]).store.outcomes, After(ops).store.outcomes);
    }
  }

  // ---------------------------------------------------------------- how often a message is counted

  /** How often the log credits a message. */
  function Credits(log: seq<Scored>, m: int): nat {
    if log == [] then 0 else Credits(log[..|log| - 1], m) + (if log[|log| - 1].message == m then 1 else 0)
  }

  /** How many receipts of a message a pass reads and scores. */
  function ScoredReceipts(rows: seq<Pending>, readings: seq<Reading>, m: int): nat
    requires |readings| <= |rows|
  {
    if readings == [] then 0
    else
      var n := |readings| - 1;
      ScoredReceipts(rows, readings[..n], m) +
      (if rows[n].receipt.message == m && Scores(rows[n], readings[n]) then 1 else 0)
  }

  function ScoredBy(w: World, op: Op, m: int): nat {
    if op.Receive? then 0
    else
      var rows := Unresolved(w.receipts, w.store.outcomes);
      ScoredReceipts(rows, op.readings[..Min(|op.readings|, |rows|)], m)
  }

  /** A pass credits a message once for every receipt of it that it scores. */
  lemma {:induction false} PassCredits(s: Store, rows: seq<Pending>, readings: seq<Reading>, m: int)
    requires |readings| <= |rows|
    ensures Credits(Handled(s, rows, readings).log, m) == Credits(s.log, m) + ScoredReceipts(rows, readings, m)
  {
    hide Scores, Saves, OutcomeData, Saved, Counted;
    if readings != [] {
      var n := |readings| - 1;
      PassCredits(s, rows, readings[..n], m);
      var t := Handled(s, rows, readings[..n]);
      HandleCredits(t, rows[n], readings[n], m);
    }
  }

  lemma HandleCredits(s: Store, p: Pending, g: Reading, m: int)
    ensures Credits(Handle(s, p, g).log, m) ==
            Credits(s.log, m) + (if p.receipt.message == m && Scores(p, g) then 1 else 0)
  {
    hide OutcomeData, Saved, Counted, Usable;
    if Scores(p, g) {
      var more := s.log + [CreditOf(p, g)];
      assert more[..|s.log|] == s.log;
    }
  }

  /** A message with a row is never scored again. */
  lemma {:induction false} RecordedIsNotScored(rows: seq<Pending>, readings: seq<Reading>, m: int)
    requires |readings| <= |rows|
    requires forall i :: 0 <= i < |rows| && rows[i].receipt.message == m ==> rows[i].seen.Some?
    ensures ScoredReceipts(rows, readings, m) == 0
  {
    if readings != [] { RecordedIsNotScored(rows, readings[..|readings| - 1], m); }
  }

  ghost predicate CreditedHaveRows(s: Store, m: int) {
    OneRowEach(s.outcomes) && (Credits(s.log, m) > 0 ==> RowOf(s.outcomes, m).Some?)
  }

  lemma HandleKeepsCredited(s: Store, p: Pending, g: Reading, m: int)
    requires CreditedHaveRows(s, m)
    ensures CreditedHaveRows(Handle(s, p, g), m)
  {
    HandleCredits(s, p, g, m);
    hide RowOf, Saved, OutcomeData, Merged, Counted, Credits, Usable;
    if Saves(p, g) { SavedRows(s.outcomes, p.receipt.message, OutcomeData(p, g)); }
  }

  lemma {:induction false} PassKeepsCredited(s: Store, rows: seq<Pending>, readings: seq<Reading>, m: int)
    requires |readings| <= |rows| && CreditedHaveRows(s, m)
    ensures CreditedHaveRows(Handled(s, rows, readings), m)
  {
    hide CreditedHaveRows, Handle;
    if readings != [] {
      var n := |readings| - 1;
      PassKeepsCredited(s, rows, readings[..n], m);
      HandleKeepsCredited(Handled(s, rows, readings[..n]), rows[n], readings[n], m);
    }
  }

  lemma {:induction false} CreditedAlwaysHaveRows(ops: seq<Op>, m: int)
    ensures CreditedHaveRows(After(ops).store, m)
  {
    if ops != [] {
      var w, op := After(ops[..|ops| - 1]), ops[|ops| - 1];
      CreditedAlwaysHaveRows(ops[..|ops| - 1], m);
      hide CreditedHaveRows, Handled, Unresolved;
      if op.Pass? {
        var rows := Unresolved(w.receipts, w.store.outcomes);
        PassKeepsCredited(w.store, rows, op.readings[..Min(|op.readings|, |rows|)], m);
      }
    }
  }

  /** One step adds the receipts it scores, and scores none of a message already credited. */
  lemma StepCredits(w: World, op: Op, m: int)
    requires CreditedHaveRows(w.store, m)
    ensures Credits(Apply(w, op).store.log, m) == Credits(w.store.log, m) + ScoredBy(w, op, m)
    ensures Credits(w.store.log, m) > 0 ==> ScoredBy(w, op, m) == 0
  {
    if op.Pass? {
      hide Unresolved, Handled, RowOf, Credits;
      var rows := Unresolved(w.receipts, w.store.outcomes);
      var readings := op.readings[..Min(|op.readings|, |rows|)];
      PassCredits(w.store, rows, readings, m);
      UnresolvedRows(w.receipts, w.store.outcomes);
      if Credits(w.store.log, m) > 0 {
        forall i | 0 <= i < |rows| && rows[i].receipt.message == m ensures rows[i].seen.Some? {
          assert rows[i].seen == RowOf(w.store.outcomes, rows[i].receipt.message);
        }
        RecordedIsNotScored(rows, readings, m);
      }
    }
  }

  ghost predicate NeverScoredTwice(ops: seq<Op>, m: int) {
    forall i :: 0 <= i < |ops| ==> ScoredBy(After(ops[..i]), ops[i], m) <= 1
  }

  lemma NeverTwiceStep(ops: seq<Op>, m: int)
    requires ops != []
    ensures NeverScoredTwice(ops, m) <==>
            NeverScoredTwice(ops[..|ops| - 1], m) && ScoredBy(After(ops[..|ops| - 1]), ops[|ops| - 1], m) <= 1
  {
    hide ScoredBy, After;
    var n := |ops| - 1;
    assert forall i :: 0 <= i < n ==> ops[..n][..i] == ops[..i] && ops[..n][i] == ops[i];
    if NeverScoredTwice(ops[..n], m) && ScoredBy(After(ops[..n]), ops[n], m) <= 1 {
      forall i | 0 <= i < |ops| ensures ScoredBy(After(ops[..i]), ops[i], m) <= 1 {
        if i < n { assert ScoredBy(After(ops[..n][..i]), ops[..n][i], m) <= 1; }
      }
    }
    if NeverScoredTwice(ops, m) {
      forall i | 0 <= i < n ensures ScoredBy(After(ops[..n][..i]), ops[..n][i], m) <= 1 {
        assert ScoredBy(After(ops[..i]), ops[i], m) <= 1;
      }
    }
  }

  /** In any run at all, with any number of snapshots per message: a message is credited at most once
      exactly when no pass reads and scores two receipts of it. */
  lemma {:induction false} CountedOnceIff(ops: seq<Op>, m: int)
    ensures Credits(After(ops).store.log, m) <= 1 <==> NeverScoredTwice(ops, m)
  {
    if ops != [] {
      var n := |ops| - 1;
      CountedOnceIff(ops[..n], m);
      CreditedAlwaysHaveRows(ops[..n], m);
      hide CreditedHaveRows, ScoredBy, Apply, Credits, NeverScoredTwice;
      StepCredits(After(ops[..n]), ops[n], m);
      NeverTwiceStep(ops, m);
    }
  }

  /** Two snapshots of one message are two receipts of one pass: its author is counted twice. */
  lemma TwoSnapshotsCountTwice(r: Receipt, g: Reading)
    requires Usable(r, g) && g.now >= r.at.value + HOUR && r.verdict.Some? && g.counts
    ensures
      var w := Apply(Apply(Apply(NOTHING_YET, Receive(r)), Receive(r)), Pass([g, g]));
      Credits(w.store.log, r.message) == 2
  {
    var p, s, w := Pending(r, None), Store([], map[], []), Apply(Apply(NOTHING_YET, Receive(r)), Receive(r));
    UnseenScores(r, g);
    hide Scores, Handled, RowOf, Handle;
    TwoRows(r);
    assert w.receipts == [r] + [r];
    assert [g, g][..2] == [g, g] && [g, g][..1] == [g] && [g][..0] == [];
    assert ScoredReceipts([p, p], [], r.message) == 0 && ScoredReceipts([p, p], [g], r.message) == 1;
    PassCredits(s, [p, p], [g, g], r.message);
  }

  lemma UnseenScores(r: Receipt, g: Reading)
    requires Usable(r, g) && g.now >= r.at.value + HOUR && r.verdict.Some? && g.counts
    ensures Scores(Pending(r, None), g)
  {
    hide HorizonOutcome, PercentChange;
    assert g.now - r.at.value >= 1.0 * HOUR;
  }

  lemma TwoRows(r: Receipt)
    ensures Unresolved([r] + [r], []) == [Pending(r, None), Pending(r, None)]
  {
    var p := Pending(r, None);
    assert RowOf([], r.message) == None;
    assert [r][..0] == [] && ([r] + [r])[..1] == [r] && Unresolved([], []) == [];
    assert InsertPending(p, []) == [p] && InsertPending(p, [p]) == [p] + InsertPending(p, []);
  }

  /** A pump at one hour and none at four: `pump_pct_max` is empty although a pump was recorded. */
  lemma LatestIsNotLargest()
    ensures
      var r := Receipt(1, "a", "A", None, "", Some(100.0), Some(0.0));
      var early := Reading(HOUR, Some(150.0), HOUR, HOUR, HOUR, false);
      var late := Reading(4.0 * HOUR, Some(100.0), 4.0 * HOUR, 4.0 * HOUR, 4.0 * HOUR, false);
      var w := Apply(Apply(Apply(NOTHING_YET, Receive(r)), Pass([early])), Pass([late]));
      var row := RowOf(w.store.outcomes, 1);
      row.Some? && row.value.h1.pct == Some(50.0) && row.value.pctMax == None && !PctMaxIsLargest(row.value)
  {
    var r := Receipt(1, "a", "A", None, "", Some(100.0), Some(0.0));
    var early := Reading(HOUR, Some(150.0), HOUR, HOUR, HOUR, false);
    var late := Reading(4.0 * HOUR, Some(100.0), 4.0 * HOUR, 4.0 * HOUR, 4.0 * HOUR, false);
    var w1 := Apply(NOTHING_YET, Receive(r));
    var first := OutcomeData(Pending(r, None), early);
    var w2 := World([r], Store([Outcome(1, first)], map[], []));
    assert HorizonOutcome(PercentChange(100.0, 150.0)) == (Pump, Some(50.0));
    assert HorizonOutcome(PercentChange(100.0, 100.0)) == (Stable, None);
    hide HorizonOutcome, PercentChange, Rounded;
    OnePassOnOne(w1, r, early);
    assert Apply(w1, Pass([early])) == w2;
    OnePassOnOne(w2, r, late);
  }

  /** A pass over a single receipt. */
  lemma OnePassOnOne(w: World, r: Receipt, g: Reading)
    requires w.receipts == [r] && IsUnresolved(RowOf(w.store.outcomes, r.message))
    ensures Apply(w, Pass([g])) == w.(store := Handle(w.store, Pending(r, RowOf(w.store.outcomes, r.message)), g))
  {
    hide RowOf, Handle;
    var o, rows := w.store.outcomes, [Pending(r, RowOf(w.store.outcomes, r.message))];
    assert [r][..0] == [] && Unresolved([], o) == [];
    assert Unresolved([r], o) == rows;
    assert [g][..Min(1, 1)] == [g] && [g][..0] == [];
    assert Handled(w.store, rows, []) == w.store;
    assert Handled(w.store, rows, [g]) == Handle(w.store, rows[0], g);
  }
}
