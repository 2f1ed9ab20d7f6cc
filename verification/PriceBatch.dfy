/**
 The deadline-bounded price batch and the fetch metadata derived from it. The order in which
 workers finish and the moment the deadline cuts the collection are a script of events.
 */
module PriceBatch {
  import opened Prelude

  datatype Outcome = Fetched | RpcError | NoPrice | BatchExpired

  datatype Row = Row(netuid: int, price: real)

  /** What a worker returns for one future: a row exactly when the outcome is ok. */
  datatype Fetch = GotRow(price: real) | Failed(error: Outcome)

  /** A finished future is collected, a wait slice ends, or the deadline has passed. */
  datatype Event = Completed(future: nat) | SliceEnds | DeadlinePassed

  function OutcomeOf(f: Fetch): Outcome {
    match f
    case GotRow(_) => Fetched
    case Failed(e) => if e.NoPrice? then NoPrice else RpcError
  }

  /** A row is an ok outcome, a missing price is told apart from an RPC error, and only the deadline
      expires. */
  lemma OutcomeTells(f: Fetch)
    ensures OutcomeOf(f) == Fetched <==> f.GotRow?
    ensures OutcomeOf(f) == NoPrice <==> f == Failed(NoPrice)
    ensures OutcomeOf(f) == RpcError <==> f.Failed? && f != Failed(NoPrice)
    ensures OutcomeOf(f) != BatchExpired
  {
  }

  // ---------------------------------------------------------------- sorting rows

  function InsertRow(r: Row, s: seq<Row>): (t: seq<Row>)
    ensures forall x :: x in t <==> x == r || x in s
  {
    if s == [] || r.netuid <= s[0].netuid then [r] + s
    else [s[0]] + InsertRow(r, s[1..])
  }

  /** `rows.sort(key=netuid)`. */
  function SortRows(s: seq<Row>): (t: seq<Row>)
    ensures forall x :: x in t <==> x in s
  {
    if s == [] then [] else InsertRow(s[0], SortRows(s[1..]))
  }

  ghost predicate RowsAscend(s: seq<Row>) {
    forall i, j :: 0 <= i < j < |s| ==> s[i].netuid < s[j].netuid
  }

  /** Sorting loses no row and doubles none. */
  lemma {:induction false} SortKeepsRows(s: seq<Row>)
    ensures multiset(SortRows(s)) == multiset(s)
  {
    if s != [] {
      SortKeepsRows(s[1..]);
      InsertKeepsRows(s[0], SortRows(s[1..]));
      assert s == [s[0]] + s[1..];
    }
  }

  lemma {:induction false} InsertKeepsRows(r: Row, s: seq<Row>)
    ensures multiset(InsertRow(r, s)) == multiset{r} + multiset(s)
  {
    if s != [] && r.netuid > s[0].netuid {
      InsertKeepsRows(r, s[1..]);
      assert s == [s[0]] + s[1..];
    }
  }

  ghost predicate RowsDistinct(s: seq<Row>) {
    forall i, j :: 0 <= i < j < |s| ==> s[i].netuid != s[j].netuid
  }

  lemma {:induction false} InsertRowAscends(r: Row, s: seq<Row>)
    requires RowsAscend(s) && forall x :: x in s ==> x.netuid != r.netuid
    ensures RowsAscend(InsertRow(r, s))
  {
    if s != [] && r.netuid > s[0].netuid {
      InsertRowAscends(r, s[1..]);
      var t := InsertRow(r, s[1..]);
      forall j | 0 <= j < |t| ensures s[0].netuid < t[j].netuid {
        assert t[j] in t;
      }
    } else if s != [] {
      assert s[0] in s;
    }
  }

  lemma {:induction false} SortRowsAscends(s: seq<Row>)
    requires RowsDistinct(s)
    ensures RowsAscend(SortRows(s))
  {
    if s != [] {
      SortRowsAscends(s[1..]);
      InsertRowAscends(s[0], SortRows(s[1..]));
    }
  }

  // ---------------------------------------------------------------- the batch

  datatype Batch = Batch(rows: seq<Row>, outcomes: map<int, Outcome>, expired: bool)

  /** One future per position of the request. */
  function Futures(n: nat): (r: set<nat>)
    ensures forall i: nat :: i in r <==> i < n
  {
    if n == 0 then {} else Futures(n - 1) + {n - 1}
  }

  function Seen(done: seq<nat>): set<nat> { set i | i in done }

  /** The futures the script completes before the deadline ends the loop, in that order. */
  function Completion(remaining: set<nat>, script: seq<Event>): seq<nat>
  {
    if script == [] || remaining == {} then []
    else
      match script[0]
      case DeadlinePassed => []
      case SliceEnds => Completion(remaining, script[1..])
      case Completed(i) =>
        if i in remaining then [i] + Completion(remaining - {i}, script[1..]) else Completion(remaining, script[1..])
  }

  ghost predicate AllIn(s: seq<nat>, x: set<nat>) { forall k :: 0 <= k < |s| ==> s[k] in x }

  lemma {:induction false} CompletionIsOrderly(remaining: set<nat>, script: seq<Event>)
    ensures Distinct(Completion(remaining, script))
    ensures AllIn(Completion(remaining, script), remaining)
  {
    if script != [] && remaining != {} {
      match script[0] {
        case Completed(i) =>
          if i in remaining {
            CompletionIsOrderly(remaining - {i}, script[1..]);
          } else {
            CompletionIsOrderly(remaining, script[1..]);
          }
        case SliceEnds => CompletionIsOrderly(remaining, script[1..]);
        case DeadlinePassed =>
      }
    }
  }

  /** One more event completes one more future exactly if it is the completion of one that is still
      out and the deadline has not passed. */
  lemma {:induction false} CompletionGrows(remaining: set<nat>, script: seq<Event>, e: Event)
    ensures
      var done := Completion(remaining, script);
      Completion(remaining, script + [e]) ==
      if e.Completed? && e.future in remaining && e.future !in done && DeadlinePassed !in script
      then done + [e.future] else done
  {
    if script == [] {
      assert [e][1..] == [];
    } else if remaining != {} {
      assert (script + [e])[1..] == script[1..] + [e];
      assert script == [script[0]] + script[1..];
      if script[0].Completed? && script[0].future in remaining {
        CompletionGrows(remaining - {script[0].future}, script[1..], e);
      } else if !script[0].DeadlinePassed? {
        CompletionGrows(remaining, script[1..], e);
      }
    }
  }

  /** A position of the request is collected exactly if it completes before the deadline passes. */
  lemma {:induction false} CollectedIff(requested: seq<int>, script: seq<Event>, i: nat)
    ensures i in InOrder(requested, script) <==>
            i < |requested| &&
            exists k :: 0 <= k < |script| && script[k] == Completed(i) && DeadlinePassed !in script[..k]
    decreases |script|
  {
    if script != [] {
      var before, e := script[..|script| - 1], script[|script| - 1];
      assert script == before + [e];
      CollectedIff(requested, before, i);
      CompletionGrows(Futures(|requested|), before, e);
      forall k | 0 <= k <= |before| ensures script[..k] == before[..k] {
      }
    }
  }

  predicate AreFutures(requested: seq<int>, done: seq<nat>) {
    forall k :: 0 <= k < |done| ==> done[k] < |requested|
  }

  /** The rows of completed futures, as they are appended. */
  function RowsIn(requested: seq<int>, work: nat -> Fetch, done: seq<nat>): seq<Row>
    requires AreFutures(requested, done)
  {
    if done == [] then []
    else
      var i := done[|done| - 1];
      RowsIn(requested, work, done[..|done| - 1]) +
      (if work(i).GotRow? then [Row(requested[i], work(i).price)] else [])
  }

  /** The outcomes of completed futures; of two copies of a netuid the later one stays. */
  function OutcomesIn(requested: seq<int>, work: nat -> Fetch, done: seq<nat>): map<int, Outcome>
    requires AreFutures(requested, done)
  {
    if done == [] then map[]
    else
      var i := done[|done| - 1];
      OutcomesIn(requested, work, done[..|done| - 1])[requested[i] := OutcomeOf(work(i))]
  }

  function NetuidsOf(requested: seq<int>, futures: set<nat>): set<int>
    requires forall i :: i in futures ==> i < |requested|
  {
    set i | i in futures :: requested[i]
  }

  function InOrder(requested: seq<int>, script: seq<Event>): (done: seq<nat>)
    ensures AreFutures(requested, done) && Distinct(done)
  {
    CompletionIsOrderly(Futures(|requested|), script);
    Completion(Futures(|requested|), script)
  }

  function BatchOf(requested: seq<int>, work: nat -> Fetch, script: seq<Event>): Batch
  {
    var done := InOrder(requested, script);
    var left := Futures(|requested|) - Seen(done);
    var outcomes := OutcomesIn(requested, work, done) + map n | n in NetuidsOf(requested, left) :: BatchExpired;
    Batch(SortRows(RowsIn(requested, work, done)), outcomes, exists n :: n in outcomes && outcomes[n].BatchExpired?)
  }

  method GetSubnetPriceRowsBatch(requested: seq<int>, work: nat -> Fetch, script: seq<Event>) returns (b: Batch)
    ensures b == BatchOf(requested, work, script)
  {
    hide RowsIn, OutcomesIn, SortRows, InOrder, Futures, Seen, NetuidsOf;
    var rows, outcomes, remaining := CollectCompleted(requested, work, script);
    outcomes := outcomes + map n | n in NetuidsOf(requested, remaining) :: BatchExpired;
    var expired := exists n :: n in outcomes && outcomes[n].BatchExpired?;
    b := Batch(SortRows(rows), outcomes, expired);
  }

  /** The collecting loop: rows and outcomes of what completed, and what is left to expire. */
  method CollectCompleted(requested: seq<int>, work: nat -> Fetch, script: seq<Event>)
    returns (rows: seq<Row>, outcomes: map<int, Outcome>, remaining: set<nat>)
    ensures
      var done := InOrder(requested, script);
      && rows == RowsIn(requested, work, done) && outcomes == OutcomesIn(requested, work, done)
      && remaining == Futures(|requested|) - Seen(done)
  {
    hide RowsIn, OutcomesIn, CaughtUp, InOrder, Futures, Seen;
    rows, outcomes, remaining := [], map[], Futures(|requested|);
    ghost var done: seq<nat> := [];
    Started(requested, work, script);
    var turn := 0;
    while remaining != {} && turn < |script| && !script[turn].DeadlinePassed?
      invariant 0 <= turn <= |script| && AreFutures(requested, done)
      invariant CaughtUp(requested, script, turn, done, remaining)
      invariant rows == RowsIn(requested, work, done) && outcomes == OutcomesIn(requested, work, done)
    {
      OneTurn(requested, script, turn, done, remaining);
      match script[turn] {
        case SliceEnds =>
        case Completed(i) =>
          if i in remaining {
            OneMoreDone(requested, work, done, i);
            remaining := remaining - {i};
            outcomes := outcomes[requested[i] := OutcomeOf(work(i))];
            if work(i).GotRow? { rows := rows + [Row(requested[i], work(i).price)]; }
            done := done + [i];
          }
      }
      turn := turn + 1;
    }
    LastTurn(requested, script, turn, done, remaining);
  }

  /** How far the loop has got: what it has collected, and what the script still completes. */
  ghost predicate CaughtUp(requested: seq<int>, script: seq<Event>, turn: nat, done: seq<nat>, remaining: set<nat>) {
    && turn <= |script| && remaining == Futures(|requested|) - Seen(done)
    && InOrder(requested, script) == done + Completion(remaining, script[turn..])
  }

  lemma Started(requested: seq<int>, work: nat -> Fetch, script: seq<Event>)
    ensures CaughtUp(requested, script, 0, [], Futures(|requested|))
    ensures RowsIn(requested, work, []) == [] && OutcomesIn(requested, work, []) == map[]
  {
    assert script[0..] == script;
  }

  lemma OneTurn(requested: seq<int>, script: seq<Event>, turn: nat, done: seq<nat>, remaining: set<nat>)
    requires CaughtUp(requested, script, turn, done, remaining)
    requires remaining != {} && turn < |script| && !script[turn].DeadlinePassed?
    ensures
      var e := script[turn];
      if e.Completed? && e.future in remaining then
        e.future < |requested| && CaughtUp(requested, script, turn + 1, done + [e.future], remaining - {e.future})
      else CaughtUp(requested, script, turn + 1, done, remaining)
  {
    assert script[turn..][1..] == script[turn + 1..];
    if script[turn].Completed? && script[turn].future in remaining {
      var i := script[turn].future;
      var rest := Completion(remaining - {i}, script[turn + 1..]);
      assert done + ([i] + rest) == done + [i] + rest;
      assert Seen(done + [i]) == Seen(done) + {i};
    }
  }

  lemma LastTurn(requested: seq<int>, script: seq<Event>, turn: nat, done: seq<nat>, remaining: set<nat>)
    requires CaughtUp(requested, script, turn, done, remaining)
    requires remaining == {} || turn == |script| || script[turn].DeadlinePassed?
    ensures done == InOrder(requested, script) && remaining == Futures(|requested|) - Seen(done)
  {
    assert done + [] == done;
  }

  lemma OneMoreDone(requested: seq<int>, work: nat -> Fetch, done: seq<nat>, i: nat)
    requires AreFutures(requested, done) && i < |requested|
    ensures RowsIn(requested, work, done + [i]) ==
            RowsIn(requested, work, done) + (if work(i).GotRow? then [Row(requested[i], work(i).price)] else [])
    ensures OutcomesIn(requested, work, done + [i]) ==
            OutcomesIn(requested, work, done)[requested[i] := OutcomeOf(work(i))]
    ensures Seen(done + [i]) == Seen(done) + {i}
  {
    assert (done + [i])[..|done|] == done;
  }

  // ---------------------------------------------------------------- what a batch tells

  lemma {:induction false} RowsAreOfDone(requested: seq<int>, work: nat -> Fetch, done: seq<nat>, r: Row)
    requires AreFutures(requested, done)
    ensures r in RowsIn(requested, work, done) <==>
            exists i :: i in done && requested[i] == r.netuid && work(i) == GotRow(r.price)
  {
    if done != [] {
      var before, last := done[..|done| - 1], done[|done| - 1];
      assert done == before + [last];
      RowsAreOfDone(requested, work, before, r);
    }
  }

  lemma {:induction false} OutcomesAreOfDone(requested: seq<int>, work: nat -> Fetch, done: seq<nat>, n: int)
    requires AreFutures(requested, done)
    ensures n in OutcomesIn(requested, work, done) <==> exists i :: i in done && requested[i] == n
    ensures n in OutcomesIn(requested, work, done) ==>
            exists i :: i in done && requested[i] == n && OutcomesIn(requested, work, done)[n] == OutcomeOf(work(i))
  {
    if done != [] {
      var before, last := done[..|done| - 1], done[|done| - 1];
      assert done == before + [last];
      OutcomesAreOfDone(requested, work, before, n);
      if requested[last] == n { assert last in done; }
    }
  }

  /** For any request, repeated netuids included: there is one outcome per netuid, expired exactly when
      some copy of it was not completed and else that of a completed copy; and a row exactly for every
      completed copy that got one. */
  lemma BatchTellsTheCopies(requested: seq<int>, work: nat -> Fetch, script: seq<Event>, n: int)
    ensures
      var b, done := BatchOf(requested, work, script), InOrder(requested, script);
      && (n in b.outcomes <==> n in requested)
      && (n in b.outcomes ==>
            if exists i: nat :: i < |requested| && requested[i] == n && i !in done then b.outcomes[n] == BatchExpired
            else exists i :: i in done && requested[i] == n && b.outcomes[n] == OutcomeOf(work(i)))
      && (forall price :: Row(n, price) in b.rows <==>
            exists i :: i in done && requested[i] == n && work(i) == GotRow(price))
  {
    var b, done := BatchOf(requested, work, script), InOrder(requested, script);
    var left := Futures(|requested|) - Seen(done);
    assert forall i: nat :: i in left <==> i < |requested| && i !in done;
    OutcomesAreOfDone(requested, work, done, n);
    assert n in NetuidsOf(requested, left) <==> exists i: nat :: i < |requested| && requested[i] == n && i !in done;
    forall price ensures Row(n, price) in b.rows <==>
                         exists i :: i in done && requested[i] == n && work(i) == GotRow(price) {
      RowsAreOfDone(requested, work, done, Row(n, price));
    }
  }

  /** Of the copies that completed, the one that completed last decides. */
  lemma {:induction false} LastCopyDecides(requested: seq<int>, work: nat -> Fetch, done: seq<nat>, k: nat)
    requires AreFutures(requested, done) && k < |done|
    requires forall m :: k < m < |done| ==> requested[done[m]] != requested[done[k]]
    ensures requested[done[k]] in OutcomesIn(requested, work, done)
    ensures OutcomesIn(requested, work, done)[requested[done[k]]] == OutcomeOf(work(done[k]))
  {
    if k < |done| - 1 {
      assert done == done[..|done| - 1] + [done[|done| - 1]];
      LastCopyDecides(requested, work, done[..|done| - 1], k);
    }
  }

  /** One outcome per requested id, and one row per ok outcome, in netuid order. */
  ghost predicate Settles(requested: seq<int>, work: nat -> Fetch, done: seq<nat>, b: Batch) {
    && b.outcomes.Keys == Members(requested)
    && (forall i :: 0 <= i < |requested| ==>
          b.outcomes[requested[i]] == if i in done then OutcomeOf(work(i)) else BatchExpired)
    && RowsAscend(b.rows)
    && (forall r :: r in b.rows ==> r.netuid in requested)
    && (forall i :: 0 <= i < |requested| ==>
          forall price :: Row(requested[i], price) in b.rows <==> i in done && work(i) == GotRow(price))
    && (b.expired <==> exists i: nat :: i < |requested| && i !in done)
  }

  lemma {:induction false} RowsOfDistinct(requested: seq<int>, work: nat -> Fetch, done: seq<nat>)
    requires AreFutures(requested, done) && Distinct(requested) && Distinct(done)
    ensures RowsDistinct(RowsIn(requested, work, done))
  {
    if done != [] {
      var before, last := done[..|done| - 1], done[|done| - 1];
      RowsOfDistinct(requested, work, before);
      var rows := RowsIn(requested, work, before);
      forall k | 0 <= k < |rows| ensures rows[k].netuid != requested[last] {
        RowsAreOfDone(requested, work, before, rows[k]);
      }
    }
  }

  lemma DistinctOutcome(requested: seq<int>, work: nat -> Fetch, script: seq<Event>, i: nat)
    requires Distinct(requested) && i < |requested|
    ensures
      var b, done := BatchOf(requested, work, script), InOrder(requested, script);
      && requested[i] in b.outcomes
      && b.outcomes[requested[i]] == (if i in done then OutcomeOf(work(i)) else BatchExpired)
      && (forall price :: Row(requested[i], price) in b.rows <==> i in done && work(i) == GotRow(price))
  {
    hide BatchOf, InOrder, OutcomeOf;
    BatchTellsTheCopies(requested, work, script, requested[i]);
    assert forall j: nat :: j < |requested| && requested[j] == requested[i] ==> j == i;
  }

  lemma BatchRowsAscend(requested: seq<int>, work: nat -> Fetch, script: seq<Event>)
    requires Distinct(requested)
    ensures RowsAscend(BatchOf(requested, work, script).rows)
  {
    var done := InOrder(requested, script);
    RowsOfDistinct(requested, work, done);
    SortRowsAscends(RowsIn(requested, work, done));
  }

  /** For distinct netuids, under any completion order and any cut, the batch settles every one. */
  lemma DistinctBatchSettles(requested: seq<int>, work: nat -> Fetch, script: seq<Event>)
    requires Distinct(requested)
    ensures Settles(requested, work, InOrder(requested, script), BatchOf(requested, work, script))
  {
    var b, done := BatchOf(requested, work, script), InOrder(requested, script);
    BatchRowsAscend(requested, work, script);
    ExpiredIff(requested, work, script);
    hide BatchOf, InOrder, RowsAscend, Distinct;
    forall n ensures n in b.outcomes <==> n in requested
             ensures n !in requested ==> forall price :: Row(n, price) !in b.rows {
      BatchTellsTheCopies(requested, work, script, n);
    }
    forall r | r in b.rows ensures r.netuid in requested {
      assert Row(r.netuid, r.price) in b.rows;
    }
    forall i: nat | i < |requested|
      ensures b.outcomes[requested[i]] == (if i in done then OutcomeOf(work(i)) else BatchExpired)
      ensures forall price :: Row(requested[i], price) in b.rows <==> i in done && work(i) == GotRow(price)
    {
      DistinctOutcome(requested, work, script, i);
    }
  }

  lemma ExpiredIff(requested: seq<int>, work: nat -> Fetch, script: seq<Event>)
    ensures BatchOf(requested, work, script).expired <==>
            exists i: nat :: i < |requested| && i !in InOrder(requested, script)
  {
    var b, done := BatchOf(requested, work, script), InOrder(requested, script);
    if exists i: nat :: i < |requested| && i !in done {
      var i: nat :| i < |requested| && i !in done;
      BatchTellsTheCopies(requested, work, script, requested[i]);
    }
    if n :| n in b.outcomes && b.outcomes[n].BatchExpired? {
      BatchTellsTheCopies(requested, work, script, n);
    }
  }

  /** Every row belongs to a netuid whose outcome is ok. */
  ghost predicate RowsAgree(b: Batch) {
    forall r :: r in b.rows ==> r.netuid in b.outcomes && b.outcomes[r.netuid] == Fetched
  }

  lemma DistinctAgree(requested: seq<int>, work: nat -> Fetch, script: seq<Event>)
    requires Distinct(requested)
    ensures RowsAgree(BatchOf(requested, work, script))
  {
    var b, done := BatchOf(requested, work, script), InOrder(requested, script);
    DistinctBatchSettles(requested, work, script);
    hide BatchOf, InOrder, Settles;
    forall r | r in b.rows ensures r.netuid in b.outcomes && b.outcomes[r.netuid] == Fetched {
      assert r.netuid in RowNetuids(b.rows);
      FetchedIffRow(requested, work, done, b, r.netuid);
    }
  }

  lemma RepeatedDisagree(requested: seq<int>, i: nat, j: nat)
    requires i < |requested| && j < |requested| && i != j && requested[i] == requested[j]
    ensures !RowsAgree(BatchOf(requested, (k: nat) => GotRow(1.0), [Completed(i), DeadlinePassed]))
  {
    var work: nat -> Fetch, script := (k: nat) => GotRow(1.0), [Completed(i), DeadlinePassed];
    var all := Futures(|requested|);
    assert script[1..] == [DeadlinePassed] && Completion(all - {i}, [DeadlinePassed]) == [];
    assert InOrder(requested, script) == [i] && i in [i] && j !in [i];
    BatchTellsTheCopies(requested, work, script, requested[i]);
    hide BatchOf, InOrder;
    assert Row(requested[i], 1.0) in BatchOf(requested, work, script).rows;
  }

  /** Rows and outcomes agree in every batch a request can lead to exactly when it repeats no netuid. */
  lemma AgreeIffDistinct(requested: seq<int>)
    ensures Distinct(requested) <==>
            forall work: nat -> Fetch, script: seq<Event> :: RowsAgree(BatchOf(requested, work, script))
  {
    hide BatchOf, RowsAgree;
    if Distinct(requested) {
      forall work: nat -> Fetch, script: seq<Event> ensures RowsAgree(BatchOf(requested, work, script)) {
        DistinctAgree(requested, work, script);
      }
    } else {
      var i, j :| 0 <= i < j < |requested| && requested[i] == requested[j];
      RepeatedDisagree(requested, i, j);
    }
  }

  /** A netuid asked for twice can have its row and still count as expired. */
  lemma RepeatedNetuidCanDisagree(n: int, price: real, work: nat -> Fetch)
    requires work(0) == GotRow(price)
    ensures
      var b := BatchOf([n, n], work, [Completed(0), DeadlinePassed]);
      Row(n, price) in b.rows && n in b.outcomes && b.outcomes[n] == BatchExpired
  {
    var script := [Completed(0), DeadlinePassed];
    assert script[1..] == [DeadlinePassed];
    assert Completion(Futures(2) - {0}, [DeadlinePassed]) == [];
    assert InOrder([n, n], script) == [0];
    assert [n, n][1] == n && 1 !in [0];
    BatchTellsTheCopies([n, n], work, script, n);
  }

  // ---------------------------------------------------------------- fetch metadata

  datatype DegradedReason = NotDegraded | BatchDeadline | FetchErrors

  datatype Meta = Meta(requested: seq<int>, completed: seq<int>, missing: seq<int>, complete: bool,
                       reason: DegradedReason, batchExpired: bool)

  function RowNetuids(rows: seq<Row>): set<int> { set r | r in rows :: r.netuid }

  function Without(s: seq<int>, x: set<int>): (t: seq<int>)
    ensures forall n :: n in t <==> n in s && n !in x
  {
    if s == [] then [] else (if s[0] in x then [] else [s[0]]) + Without(s[1..], x)
  }

  function FetchMeta(requested: seq<int>, rows: seq<Row>, expired: bool, outcomes: map<int, Outcome>): Meta
  {
    var completed := SortedSet(RowNetuids(rows));
    var missing := Without(requested, RowNetuids(rows));
    var complete := missing == [];
    var reason :=
      if complete then NotDegraded
      else if exists n :: n in missing && n in outcomes && outcomes[n].BatchExpired? then BatchDeadline
      else FetchErrors;
    Meta(requested, completed, missing, complete, reason, expired)
  }

  /** Completed and missing partition the request, the refresh is complete exactly when every id
      is ok, and the reason is the deadline exactly when some id expired. */
  lemma MetaTellsTheBatch(requested: seq<int>, work: nat -> Fetch, done: seq<nat>, b: Batch)
    requires Settles(requested, work, done, b)
    ensures
      var m := FetchMeta(requested, b.rows, b.expired, b.outcomes);
      && StrictlyAscending(m.completed)
      && (forall n :: n in m.completed <==> n in requested && b.outcomes[n] == Fetched)
      && (forall n :: n in m.missing <==> n in requested && b.outcomes[n] != Fetched)
      && (m.complete <==> forall n :: n in requested ==> b.outcomes[n] == Fetched)
      && (m.reason == BatchDeadline <==> exists n :: n in requested && b.outcomes[n] == BatchExpired)
      && (m.reason == NotDegraded <==> m.complete)
      && (m.batchExpired <==> m.reason == BatchDeadline)
  {
    var m := FetchMeta(requested, b.rows, b.expired, b.outcomes);
    forall n ensures n in RowNetuids(b.rows) <==> n in requested && b.outcomes[n] == Fetched {
      FetchedIffRow(requested, work, done, b, n);
    }
    CompleteIff(requested, RowNetuids(b.rows));
    ExpiredIds(requested, work, done, b);
    hide Settles;
  }

  lemma CompleteIff(requested: seq<int>, x: set<int>)
    ensures Without(requested, x) == [] <==> forall n :: n in requested ==> n in x
  {
    var missing := Without(requested, x);
    if missing == [] {
      forall n | n in requested ensures n in x {
        assert n !in missing;
      }
    } else {
      var n := missing[0];
      assert n in missing;
      assert n in requested && n !in x;
    }
  }

  lemma ExpiredIds(requested: seq<int>, work: nat -> Fetch, done: seq<nat>, b: Batch)
    requires Settles(requested, work, done, b)
    ensures forall n :: n in requested ==> n in b.outcomes
    ensures b.expired <==> exists n :: n in requested && b.outcomes[n] == BatchExpired
  {
    assert forall n :: n in requested ==> n in Members(requested);
    hide Members, RowsAscend;
    if b.expired {
      var i: nat :| i < |requested| && i !in done;
      var n := requested[i];
      assert n in requested && b.outcomes[n] == BatchExpired;
    } else {
      forall n | n in requested ensures b.outcomes[n] != BatchExpired {
        var i: nat :| i < |requested| && requested[i] == n;
        assert i in done && b.outcomes[requested[i]] == OutcomeOf(work(i));
      }
    }
  }

  lemma FetchedIffRow(requested: seq<int>, work: nat -> Fetch, done: seq<nat>, b: Batch, n: int)
    requires Settles(requested, work, done, b)
    ensures n in requested ==> n in b.outcomes
    ensures n in RowNetuids(b.rows) <==> n in requested && b.outcomes[n] == Fetched
  {
    assert n in requested ==> n in Members(requested);
    if n in RowNetuids(b.rows) {
      var r :| r in b.rows && r.netuid == n;
      var i: nat :| i < |requested| && requested[i] == n;
      assert Row(requested[i], r.price) in b.rows;
    }
    if n in requested && b.outcomes[n] == Fetched {
      var i: nat :| i < |requested| && requested[i] == n;
      assert i in done && Row(requested[i], work(i).price) in b.rows;
    }
  }

  /** The lite fetch end to end, for any completion order and any deadline cut; the request is made
      distinct and sorted first. */
  method CollectChainRows(netuids: seq<int>, work: nat -> Fetch, script: seq<Event>)
    returns (rows: seq<Row>, requested: seq<int>, outcomes: map<int, Outcome>, m: Meta)
    ensures outcomes.Keys == Members(netuids) == Members(requested) && StrictlyAscending(requested)
    ensures RowsAscend(rows)
    ensures forall n :: (exists r :: r in rows && r.netuid == n) <==> n in requested && outcomes[n] == Fetched
    ensures forall n :: n in m.completed <==> n in requested && outcomes[n] == Fetched
    ensures forall n :: n in m.missing <==> n in requested && outcomes[n] != Fetched
    ensures m.complete <==> forall n :: n in requested ==> outcomes[n] == Fetched
    ensures m.reason == BatchDeadline <==> exists n :: n in requested && outcomes[n] == BatchExpired
    ensures m.batchExpired <==> m.reason == BatchDeadline
  {
    hide BatchOf;
    requested := SortedSet(Members(netuids));
    SortedSetMembers(Members(netuids));
    var b := GetSubnetPriceRowsBatch(requested, work, script);
    DistinctBatchSettles(requested, work, script);
    rows, outcomes := b.rows, b.outcomes;
    m := FetchMeta(requested, rows, b.expired, outcomes);
    MetaTellsTheBatch(requested, work, InOrder(requested, script), b);
    forall n ensures (exists r :: r in rows && r.netuid == n) <==> n in requested && outcomes[n] == Fetched {
      FetchedIffRow(requested, work, InOrder(requested, script), b, n);
      assert n in RowNetuids(rows) <==> exists r :: r in rows && r.netuid == n;
    }
  }
}
