/** The retry sweep: it claims the rows longest due, and every claim or failure pushes a row back. */
module RetryQueue {
  import Outbox

  type RowId = nat

  datatype Row = Row(due: nat, attempts: nat, parked: bool)

  type Rows = map<RowId, Row>

  predicate Eligible(rows: Rows, now: nat, y: RowId) {
    y in rows && rows[y].due <= now && !rows[y].parked
  }

  function EligibleRows(rows: Rows, now: nat): set<RowId> {
    set y | y in rows && Eligible(rows, now, y)
  }

  /** ORDER BY nextAttemptAt LIMIT limit, ties broken either way. */
  ghost predicate IsPick(rows: Rows, now: nat, limit: nat, picked: set<RowId>) {
    && picked <= EligibleRows(rows, now)
    && |picked| == (if |EligibleRows(rows, now)| < limit then |EligibleRows(rows, now)| else limit)
    && forall y, z :: y in picked && z in EligibleRows(rows, now) - picked ==> rows[y].due <= rows[z].due
  }

  /** The claim's own update: each picked row is pushed one backoff step ahead before any work is done. */
  function Claimed(rows: Rows, now: nat, picked: set<RowId>): Rows {
    map y | y in rows :: if y in picked then rows[y].(due := now + Outbox.Delay(0)) else rows[y]
  }

  /** How processing one claimed row ended, and when. */
  datatype Outcome = Resolved | Failed(at: nat) | LeftAlone

  function Settled(rows: Rows, y: RowId, outcome: Outcome): Rows {
    if y !in rows then rows
    else
      match outcome
      case Resolved => rows - {y}
      case LeftAlone => rows
      case Failed(at) =>
        var attempts := rows[y].attempts + 1;
        rows[y := Row(at + Outbox.Delay(attempts), attempts, rows[y].parked || attempts >= Outbox.MAX_ATTEMPTS)]
  }

  datatype Queue = Queue(now: nat, rows: Rows)

  datatype Event =
    | Stage(y: RowId, at: nat)
    | Sweep(at: nat, limit: nat, picked: set<RowId>)
    | Settle(y: RowId, outcome: Outcome)

  /** Clocks run forward; a sweep picks as the query does; only a claimed row is settled, and before it is due again or not at all. */
  ghost predicate Enabled(q: Queue, e: Event) {
    match e
    case Stage(y, at) => q.now <= at && y !in q.rows
    case Sweep(at, limit, picked) => q.now <= at && IsPick(q.rows, at, limit, picked)
    case Settle(y, outcome) => (outcome.Failed? ==> q.now <= outcome.at) && (y in q.rows ==> !q.rows[y].parked)
  }

  ghost function Step(q: Queue, e: Event): Queue
    requires Enabled(q, e)
  {
    match e
    case Stage(y, at) => Queue(at, q.rows[y := Row(at, 0, false)])
    case Sweep(at, limit, picked) => Queue(at, Claimed(q.rows, at, picked))
    case Settle(y, outcome) => Queue(if outcome.Failed? then outcome.at else q.now, Settled(q.rows, y, outcome))
  }

  ghost predicate EnabledRun(q: Queue, es: seq<Event>)
    decreases |es|
  {
    es != [] ==> Enabled(q, es[0]) && EnabledRun(Step(q, es[0]), es[1..])
  }

  /** Does some sweep of the run claim x? */
  predicate Claims(es: seq<Event>, x: RowId) {
    exists k :: 0 <= k < |es| && es[k].Sweep? && x in es[k].picked
  }

  function Sweeps(es: seq<Event>, limit: nat): nat
    decreases |es|
  {
    if es == [] then 0 else (if es[0].Sweep? && es[0].limit == limit then 1 else 0) + Sweeps(es[1..], limit)
  }

  /** x and the rows due no later than it: all that can go before it. */
  function Ahead(rows: Rows, due: nat): set<RowId> {
    set y | y in rows && !rows[y].parked && rows[y].due <= due
  }

  lemma SweepShrinksAhead(rows: Rows, now: nat, limit: nat, picked: set<RowId>, x: RowId)
    requires IsPick(rows, now, limit, picked) && Eligible(rows, now, x) && x !in picked
    ensures |picked| == limit && picked <= Ahead(rows, rows[x].due)
    ensures Ahead(Claimed(rows, now, picked), rows[x].due) == Ahead(rows, rows[x].due) - picked
  {
    var all := EligibleRows(rows, now);
    assert x in all;
    if |picked| == |all| { SubsetEqual(picked, all); }
  }

  lemma SubsetEqual(a: set<RowId>, b: set<RowId>)
    requires a <= b && |a| == |b|
    ensures a == b
  {
    assert b == a + (b - a);
    assert |b - a| == 0;
  }

  lemma SubsetSmaller(a: set<RowId>, b: set<RowId>)
    requires a <= b
    ensures |a| <= |b| && |b - a| == |b| - |a|
  {
    assert b == a + (b - a);
  }

  /** Waiting: due by now, and not parked. */
  ghost predicate Waiting(q: Queue, x: RowId) {
    x in q.rows && q.rows[x].due <= q.now && !q.rows[x].parked
  }

  lemma SomethingAhead(q: Queue, x: RowId)
    requires Waiting(q, x)
    ensures |Ahead(q.rows, q.rows[x].due)| >= 1
  {
    SubsetSmaller({x}, Ahead(q.rows, q.rows[x].due));
  }

  lemma StepShrinksAhead(q: Queue, e: Event, x: RowId)
    requires Enabled(q, e) && Waiting(q, x) && !(e.Settle? && e.y == x) && !(e.Sweep? && x in e.picked)
    requires e.Stage? ==> q.rows[x].due < e.at
    ensures var q' := Step(q, e);
            && Waiting(q', x) && q'.rows[x].due == q.rows[x].due
            && |Ahead(q'.rows, q.rows[x].due)| <= |Ahead(q.rows, q.rows[x].due)| - (if e.Sweep? then e.limit else 0)
  {
    var q', due := Step(q, e), q.rows[x].due;
    match e
    case Stage(y, at) => assert Ahead(q'.rows, due) == Ahead(q.rows, due);
    case Sweep(at, n, picked) =>
      SweepShrinksAhead(q.rows, at, n, picked, x);
      SubsetSmaller(picked, Ahead(q.rows, due));
    case Settle(y, outcome) =>
      assert Ahead(q'.rows, due) <= Ahead(q.rows, due);
      SubsetSmaller(Ahead(q'.rows, due), Ahead(q.rows, due));
  }

  lemma SweepsTimes(es: seq<Event>, limit: nat)
    requires es != []
    ensures Sweeps(es, limit) * limit == (if es[0].Sweep? && es[0].limit == limit then limit else 0) + Sweeps(es[1..], limit) * limit
  {}

  /**
   No starvation. Let x be due, and m rows (x among them) due no later than x.
   However the others fail, however many new rows arrive at a later time than x
   fell due, in a run with n sweeps of `limit` rows where n * limit reaches m,
   some sweep claims x: within ceil(m / limit) sweeps it gets its turn.
   */
  lemma {:induction false} NoStarvation(q: Queue, es: seq<Event>, x: RowId, limit: nat)
    requires EnabledRun(q, es)
    requires Waiting(q, x)
    requires forall k :: 0 <= k < |es| && es[k].Settle? ==> es[k].y != x
    requires forall k :: 0 <= k < |es| && es[k].Stage? ==> q.rows[x].due < es[k].at
    requires |Ahead(q.rows, q.rows[x].due)| <= Sweeps(es, limit) * limit
    ensures Claims(es, x)
    decreases |es|
  {
    hide Ahead, Enabled, Step, Waiting;
    SomethingAhead(q, x);
    if es == [] {
      assert false;
    } else if es[0].Sweep? && x in es[0].picked {
      assert Claims(es, x);
    } else {
      var rest := es[1..];
      assert forall k :: 0 <= k < |rest| ==> rest[k] == es[k + 1];
      StepShrinksAhead(q, es[0], x);
      SweepsTimes(es, limit);
      NoStarvation(Step(q, es[0]), rest, x, limit);
      var k :| 0 <= k < |rest| && rest[k].Sweep? && x in rest[k].picked;
      assert es[k + 1].Sweep? && x in es[k + 1].picked;
    }
  }

  /** How often the run records a failure of x. */
  function Failures(es: seq<Event>, x: RowId): nat
    decreases |es|
  {
    if es == [] then 0 else (if es[0].Settle? && es[0].y == x && es[0].outcome.Failed? then 1 else 0) + Failures(es[1..], x)
  }

  ghost function Run(q: Queue, es: seq<Event>): Queue
    requires EnabledRun(q, es)
    decreases |es|
  {
    if es == [] then q else Run(Step(q, es[0]), es[1..])
  }

  ghost predicate CountOK(row: Row) {
    row.attempts <= Outbox.MAX_ATTEMPTS && (row.parked <==> row.attempts == Outbox.MAX_ATTEMPTS)
  }

  /** A row that keeps failing is parked by its fourteenth recorded failure, exactly, and no sweep picks it again. */
  lemma {:induction false} ParkedAfterFourteen(q: Queue, es: seq<Event>, x: RowId)
    requires EnabledRun(q, es) && x in q.rows && CountOK(q.rows[x])
    requires forall k :: 0 <= k < |es| && es[k].Settle? && es[k].y == x ==> es[k].outcome != Resolved
    ensures var q' := Run(q, es);
            && x in q'.rows && CountOK(q'.rows[x])
            && q'.rows[x].attempts == q.rows[x].attempts + Failures(es, x)
            && (q'.rows[x].parked <==> q.rows[x].attempts + Failures(es, x) == Outbox.MAX_ATTEMPTS)
            && (q.rows[x].parked ==> !Claims(es, x))
    decreases |es|
  {
    if es != [] {
      var rest := es[1..];
      assert forall k :: 0 <= k < |rest| ==> rest[k] == es[k + 1];
      ParkedAfterFourteen(Step(q, es[0]), rest, x);
      forall k | 0 <= k < |es| && es[k].Sweep? && x in es[k].picked ensures !q.rows[x].parked {
        if k > 0 { assert rest[k - 1] == es[k]; }
      }
    }
  }

  /** A picked row is next due in an hour, a failed one after as many failures' backoff, parked from the fourteenth. */
  lemma PushedBack(rows: Rows, now: nat, picked: set<RowId>, y: RowId, at: nat)
    requires y in rows
    ensures Claimed(rows, now, picked).Keys == rows.Keys
    ensures Claimed(rows, now, picked)[y] == if y in picked then Row(now + 3_600_000, rows[y].attempts, rows[y].parked) else rows[y]
    ensures Settled(rows, y, Failed(at))
            == rows[y := Row(at + Outbox.Delay(rows[y].attempts + 1), rows[y].attempts + 1, rows[y].parked || rows[y].attempts + 1 >= 14)]
  {
    Outbox.BackoffDoubles(0);
  }

  function SetOf(ids: seq<RowId>): set<RowId> {
    set y | y in ids
  }

  /** The table a sweep works on. */
  class Table {
    var rows: Rows

    /** The row due first among the candidates. */
    method FirstDue(candidates: set<RowId>) returns (y: RowId)
      requires candidates != {} && candidates <= rows.Keys
      ensures y in candidates && forall z :: z in candidates ==> rows[y].due <= rows[z].due
    {
      y :| y in candidates;
      var rest := candidates - {y};
      while rest != {}
        invariant rest <= candidates && y in candidates
        invariant forall z :: z in candidates - rest ==> rows[y].due <= rows[z].due
        decreases rest
      {
        var z :| z in rest;
        if rows[z].due < rows[y].due { y := z; }
        rest := rest - {z};
      }
    }

    method ClaimEligible(limit: nat, now: nat) returns (claimed: seq<RowId>)
      modifies this
      ensures IsPick(old(rows), now, limit, SetOf(claimed))
      ensures rows == Claimed(old(rows), now, SetOf(claimed))
      ensures |SetOf(claimed)| == |claimed|
    {
      hide IsPick, Claimed, SetOf, Eligible;
      var open := EligibleRows(rows, now);
      claimed := [];
      NobodyPicked(rows, open);
      while open != {} && |claimed| < limit
        invariant rows == old(rows) && FirstPicked(rows, EligibleRows(rows, now), SetOf(claimed), open)
        invariant |SetOf(claimed)| == |claimed| <= limit
        decreases open
      {
        var y := FirstDue(open);
        OneMorePicked(rows, EligibleRows(rows, now), claimed, open, y);
        claimed := claimed + [y];
        open := open - {y};
      }
      AllPicked(rows, now, limit, claimed, open);
      rows := Claimed(rows, now, SetOf(claimed));
    }
  }

  /** The rows split into those picked and those still open, none of which was due before a picked one. */
  ghost predicate FirstPicked(rows: Rows, all: set<RowId>, picked: set<RowId>, open: set<RowId>) {
    && open + picked == all && open !! picked && all <= rows.Keys
    && forall y, z :: y in picked && z in open ==> rows[y].due <= rows[z].due
  }

  lemma NobodyPicked(rows: Rows, all: set<RowId>)
    requires all <= rows.Keys
    ensures FirstPicked(rows, all, SetOf([]), all) && |SetOf([])| == 0
  {}

  lemma OneMorePicked(rows: Rows, all: set<RowId>, claimed: seq<RowId>, open: set<RowId>, y: RowId)
    requires FirstPicked(rows, all, SetOf(claimed), open) && |SetOf(claimed)| == |claimed|
    requires y in open && forall z :: z in open ==> rows[y].due <= rows[z].due
    ensures FirstPicked(rows, all, SetOf(claimed + [y]), open - {y}) && |SetOf(claimed + [y])| == |claimed| + 1
  {
    assert SetOf(claimed + [y]) == SetOf(claimed) + {y};
  }

  lemma AllPicked(rows: Rows, now: nat, limit: nat, claimed: seq<RowId>, open: set<RowId>)
    requires FirstPicked(rows, EligibleRows(rows, now), SetOf(claimed), open)
    requires |SetOf(claimed)| == |claimed| <= limit && (open == {} || |claimed| >= limit)
    ensures IsPick(rows, now, limit, SetOf(claimed))
  {
    SubsetSmaller(SetOf(claimed), EligibleRows(rows, now));
    assert EligibleRows(rows, now) - SetOf(claimed) == open;
  }
}
