/**
 Completion, reversal and dispatch over whole runs. Every event is one
 transaction that commits or leaves no trace; a refusal is a step that stays put.
 */
module StockRuns {
  import opened Wrappers
  import opened Numbers
  import opened InventoryLedger
  import opened BatchCompletion
  import opened StockCredits

  /** A volume the callers accept: every loaded or returned volume is checked to be positive. */
  type Volume = v: real | v > 0.0 witness 1.0

  datatype TicketStatus = Open | Complete | Cancelled

  /** `comps` are the components the ticket keeps from completion on: no edit gets past a terminal ticket. */
  datatype Ticket = Ticket(status: TicketStatus, reversed: bool, volume: Volume, mixId: nat, comps: Components)

  datatype Fate = Undecided | Dumped | Reclaimed

  /** Concrete a trip brought back, whether it came back too late to keep, and the later trip that used it up. */
  datatype Drum = Drum(returned: Volume, fullWaste: bool, fate: Fate, consumedBy: Option<nat>)

  datatype Trip = Trip(ticketId: nat, truckId: nat, closed: bool, reclaimed: Option<real>, drum: Option<Drum>)

  /** Trips in order of creation; a trip's id is its position. */
  datatype Yard = Yard(stock: Stock, tickets: map<nat, Ticket>, trips: seq<Trip>)

  datatype Event =
    | Release(t: nat, volume: Volume, mixId: nat)
    | Finish(t: nat, resolved: seq<Resolved>, comps: Components, allowed: map<MaterialId, real>)
    | Cancel(t: nat)
    | Reverse(t: nat)
    | Dispatch(t: nat, truckId: nat, resourcesFree: bool)
    | Reassign(k: nat, truckId: nat, resourcesFree: bool)
    | Close(k: nat, drum: Option<Drum>)
    | Decide(k: nat, fate: Fate)
    | Measure(s: StorageId, reading: real)
    | Refit(s: StorageId, reading: real, capacity: Option<real>)
    | Resize(s: StorageId, newCapacity: real)

  predicate HasTrip(trips: seq<Trip>, t: nat) {
    exists k :: 0 <= k < |trips| && trips[k].ticketId == t
  }

  predicate TruckOut(trips: seq<Trip>, truckId: nat) {
    exists k :: 0 <= k < |trips| && trips[k].truckId == truckId && !trips[k].closed
  }

  /** The truck's most recently created closed trip. */
  function LastClosed(trips: seq<Trip>, truckId: nat): (k: Option<nat>)
    ensures k.Some? ==> k.value < |trips| && trips[k.value].truckId == truckId && trips[k.value].closed
    ensures forall i :: 0 <= i < |trips| && trips[i].truckId == truckId && trips[i].closed ==> k.Some? && i <= k.value
  {
    if trips == [] then None
    else if trips[|trips| - 1].truckId == truckId && trips[|trips| - 1].closed then Some(|trips| - 1)
    else LastClosed(trips[..|trips| - 1], truckId)
  }

  /** The trip whose leftover the truck still carries, if it may go into this mix. */
  function AvailableReclaim(y: Yard, truckId: nat, mixId: nat): (k: Option<nat>)
    ensures k.Some? ==>
              && k.value < |y.trips| && y.trips[k.value].truckId == truckId && y.trips[k.value].closed
              && y.trips[k.value].drum.Some?
              && y.trips[k.value].drum.value.fate == Reclaimed && y.trips[k.value].drum.value.consumedBy == None
              && y.trips[k.value].ticketId in y.tickets && y.tickets[y.trips[k.value].ticketId].mixId == mixId
  {
    match LastClosed(y.trips, truckId)
    case None => None
    case Some(k) =>
      var trip := y.trips[k];
      if trip.drum.None? || trip.drum.value.fate != Reclaimed || trip.drum.value.consumedBy.Some? then None
      else if trip.ticketId !in y.tickets || y.tickets[trip.ticketId].mixId != mixId then None
      else Some(k)
  }

  function FinishStep(y: Yard, t: nat, resolved: seq<Resolved>, comps: Components, allowed: map<MaterialId, real>): Yard {
    if t !in y.tickets || y.tickets[t].status != Open then y
    else
      match PostAll(y.stock, t, resolved, allowed)
      case Refused(_) => y
      case Completed(st, _) => y.(stock := st, tickets := y.tickets[t := y.tickets[t].(status := Complete, comps := comps)])
  }

  function ReverseStep(y: Yard, t: nat): Yard {
    if t !in y.tickets || y.tickets[t].status != Complete || HasTrip(y.trips, t) || y.tickets[t].reversed then y
    else
      var originals := CompletionRows(y.stock.rows, t);
      if originals == [] then y
      else
        match PostCredits(y.stock, ReversalCredits(originals), true)
        case CreditRefused(_) => y
        case Credited(st) => y.(stock := st, tickets := y.tickets[t := y.tickets[t].(reversed := true)])
  }

  function DispatchStep(y: Yard, t: nat, truckId: nat, resourcesFree: bool): Yard {
    if t !in y.tickets || y.tickets[t].status != Complete || y.tickets[t].reversed then y
    else if TruckOut(y.trips, truckId) || !resourcesFree || HasTrip(y.trips, t) then y
    else
      var ticket, trip := y.tickets[t], |y.trips|;
      match AvailableReclaim(y, truckId, ticket.mixId)
      case None => y.(trips := y.trips + [Trip(t, truckId, false, None, None)])
      case Some(k) =>
        var drum := y.trips[k].drum.value;
        var r := Min(drum.returned, ticket.volume);
        var created := Trip(t, truckId, false, Some(r), None);
        var credits := ReclaimCredits(CompletionRows(y.stock.rows, t), ticket.comps, trip, 1.0 - (1.0 - r / ticket.volume));
        match PostCredits(y.stock, credits, false)
        case CreditRefused(_) => y
        case Credited(st) =>
          var used := y.trips[k].(drum := Some(drum.(consumedBy := Some(trip))));
          y.(stock := st, trips := y.trips[k := used] + [created])
  }

  /** Another truck for a trip still in the yard; what it topped up on does not move with it. */
  function ReassignStep(y: Yard, k: nat, truckId: nat, resourcesFree: bool): Yard {
    if k >= |y.trips| || y.trips[k].closed || !resourcesFree then y
    else if exists i :: 0 <= i < |y.trips| && i != k && y.trips[i].truckId == truckId && !y.trips[i].closed then y
    else y.(trips := y.trips[k := y.trips[k].(truckId := truckId)])
  }

  function CloseStep(y: Yard, k: nat, drum: Option<Drum>): Yard {
    if k >= |y.trips| || y.trips[k].closed then y
    else y.(trips := y.trips[k := y.trips[k].(closed := true, drum := drum)])
  }

  function DecideStep(y: Yard, k: nat, fate: Fate): Yard {
    if k >= |y.trips| || y.trips[k].drum.None? then y
    else
      var drum := y.trips[k].drum.value;
      if drum.fullWaste || drum.consumedBy.Some? || drum.fate != Undecided then y
      else y.(trips := y.trips[k := y.trips[k].(drum := Some(drum.(fate := fate)))])
  }

  function WithStorage(y: Yard, s: StorageId, storage: Storage): Yard {
    y.(stock := y.stock.(stores := y.stock.stores[s := storage]))
  }

  function Capped(reading: real, capacity: Option<real>): real {
    if capacity.Some? then Min(reading, capacity.value) else reading
  }

  /** A reading by hand or by sensor. One above capacity is cut down to it by the former and refused to the latter. */
  function MeasureStep(y: Yard, s: StorageId, reading: real): Yard {
    if s !in y.stock.stores || reading < 0.0 then y
    else WithStorage(y, s, y.stock.stores[s].(level := Capped(reading, y.stock.stores[s].capacity)))
  }

  /** A chemical tank registered again, with a new capacity and a new level. */
  function RefitStep(y: Yard, s: StorageId, reading: real, capacity: Option<real>): Yard {
    if s !in y.stock.stores || reading < 0.0 || (capacity.Some? && capacity.value <= 0.0) then y
    else WithStorage(y, s, Storage(Capped(reading, capacity), capacity))
  }

  /** A silo's capacity corrected; its level stays, whatever it is. */
  function ResizeStep(y: Yard, s: StorageId, capacity: real): Yard {
    if s !in y.stock.stores || capacity == 0.0 then y
    else WithStorage(y, s, y.stock.stores[s].(capacity := Some(capacity)))
  }

  function Step(y: Yard, e: Event): Yard
    requires Enabled(e)
  {
    match e
    case Release(t, volume, mixId) =>
      if t in y.tickets then y else y.(tickets := y.tickets[t := Ticket(Open, false, volume, mixId, map[])])
    case Finish(t, resolved, comps, allowed) => FinishStep(y, t, resolved, comps, allowed)
    case Cancel(t) =>
      if t !in y.tickets || y.tickets[t].status != Open then y
      else y.(tickets := y.tickets[t := y.tickets[t].(status := Cancelled)])
    case Reverse(t) => ReverseStep(y, t)
    case Dispatch(t, truckId, resourcesFree) => DispatchStep(y, t, truckId, resourcesFree)
    case Reassign(k, truckId, resourcesFree) => ReassignStep(y, k, truckId, resourcesFree)
    case Close(k, drum) => CloseStep(y, k, drum)
    case Decide(k, fate) => DecideStep(y, k, fate)
    case Measure(s, reading) => MeasureStep(y, s, reading)
    case Refit(s, reading, capacity) => RefitStep(y, s, reading, capacity)
    case Resize(s, capacity) => ResizeStep(y, s, capacity)
  }

  /** What callers and the database check of an event on its own: masses not negative, components resolved from the ticket's own. */
  predicate Enabled(e: Event) {
    match e
    case Finish(_, resolved, comps, _) =>
      forall i :: 0 <= i < |resolved| ==> resolved[i].required >= 0.0 && resolved[i].materialId in comps
    case Close(_, drum) => drum.Some? ==> drum.value.consumedBy == None
    case _ => true
  }

  function Run(y: Yard, es: seq<Event>): Yard
    requires forall i :: 0 <= i < |es| ==> Enabled(es[i])
    decreases |es|
  {
    if es == [] then y else Run(Step(y, es[0]), es[1..])
  }

  /** A capacity is not set below what the store holds. */
  predicate Fits(y: Yard, e: Event) {
    e.Resize? && e.s in y.stock.stores && e.newCapacity != 0.0 ==> y.stock.stores[e.s].level <= e.newCapacity
  }

  predicate AllFit(y: Yard, es: seq<Event>)
    requires forall i :: 0 <= i < |es| ==> Enabled(es[i])
    decreases |es|
  {
    es == [] || (Fits(y, es[0]) && AllFit(Step(y, es[0]), es[1..]))
  }

  /** What an event of measuring changes a store by; no ledger row says so. */
  function Correction(y: Yard, e: Event, s: StorageId): real
    requires Enabled(e)
  {
    if (e.Measure? || e.Refit?) && e.s == s && s in y.stock.stores && s in Step(y, e).stock.stores
    then Step(y, e).stock.stores[s].level - y.stock.stores[s].level
    else 0.0
  }

  /** All that measuring changed a store by in a run. */
  function Corrections(y: Yard, es: seq<Event>, s: StorageId): real
    requires forall i :: 0 <= i < |es| ==> Enabled(es[i])
    decreases |es|
  {
    if es == [] then 0.0 else Correction(y, es[0], s) + Corrections(Step(y, es[0]), es[1..], s)
  }

  /** The opening stock that would have led to the same levels without the event's correction. */
  function Corrected(opening: Stock, y: Yard, e: Event): Stock
    requires Enabled(e)
  {
    if (e.Measure? || e.Refit? || e.Resize?) && e.s in opening.stores && e.s in Step(y, e).stock.stores then
      opening.(stores := opening.stores[e.s := Storage(opening.stores[e.s].level + Correction(y, e, e.s), Step(y, e).stock.stores[e.s].capacity)])
    else opening
  }

  function OpeningOf(opening: Stock, y: Yard, es: seq<Event>): Stock
    requires forall i :: 0 <= i < |es| ==> Enabled(es[i])
    decreases |es|
  {
    if es == [] then opening else OpeningOf(Corrected(opening, y, es[0]), Step(y, es[0]), es[1..])
  }

  // ---- The invariant ----------------------------------------------------------------

  /** Why a list of credits was posted: to undo a ticket, or to give back a trip's reclaimed share. */
  datatype Purpose = Undo | Share(trip: nat, fraction: real)

  function CreditFor(p: Purpose, row: Row): Credit {
    match p
    case Undo => ReversalCredit(row)
    case Share(trip, fraction) => ReclaimCreditOf(row, trip, fraction)
  }

  predicate IsCreditKey(p: Purpose, t: nat, key: Key) {
    match p
    case Undo => key.source == FromTicket && key.movement == CompletionReversal && key.sourceId == t
    case Share(trip, _) => key.source == FromTrip && key.movement == ReclaimCredit && key.sourceId == trip
  }

  /** Every completion row of the ticket has its credit in the ledger. */
  ghost predicate Repaid(rows: seq<Row>, t: nat, p: Purpose) {
    forall i :: 0 <= i < |rows| && IsCompletionOf(rows[i], t) ==>
      Recorded(rows, CreditFor(p, rows[i]).key, CreditFor(p, rows[i]).quantity)
  }

  predicate RowOwned(tickets: map<nat, Ticket>, trips: seq<Trip>, row: Row) {
    match (row.key.source, row.key.movement)
    case (FromTicket, BatchCompletion) =>
      && row.key.sourceId in tickets && tickets[row.key.sourceId].status == Complete
      && row.key.materialId in tickets[row.key.sourceId].comps && row.quantity <= -EPSILON
    case (FromTicket, CompletionReversal) => row.key.sourceId in tickets && tickets[row.key.sourceId].reversed
    case (FromTrip, ReclaimCredit) => row.key.sourceId < |trips|
    case _ => false
  }

  ghost predicate RowsOwned(y: Yard) {
    forall i :: 0 <= i < |y.stock.rows| ==> RowOwned(y.tickets, y.trips, y.stock.rows[i])
  }

  ghost predicate TicketsOK(y: Yard) {
    forall t :: t in y.tickets ==>
      (y.tickets[t].reversed ==> y.tickets[t].status == Complete && !HasTrip(y.trips, t) && Repaid(y.stock.rows, t, Undo))
  }

  /** The completion row a row of this ticket gives back, or is. */
  function OriginalKey(key: Key, t: nat): Key {
    Key(FromTicket, t, BatchCompletion, key.materialId, key.storageId)
  }

  ghost predicate RowPaired(trips: seq<Trip>, rows: seq<Row>, row: Row) {
    match row.key.source
    case FromTicket => HasRow(rows, OriginalKey(row.key, row.key.sourceId))
    case FromTrip => row.key.sourceId < |trips| && HasRow(rows, OriginalKey(row.key, trips[row.key.sourceId].ticketId))
  }

  /** No credit without the deduction it gives back, at the same store. */
  ghost predicate Paired(trips: seq<Trip>, rows: seq<Row>) {
    forall i :: 0 <= i < |rows| ==> RowPaired(trips, rows, rows[i])
  }

  /** The share of the ticket this trip carried over instead of batching it. */
  function ShareOf(y: Yard, k: nat): Purpose
    requires k < |y.trips| && y.trips[k].reclaimed.Some? && y.trips[k].ticketId in y.tickets
  {
    Share(k, y.trips[k].reclaimed.value / y.tickets[y.trips[k].ticketId].volume)
  }

  ghost predicate TripOK(y: Yard, k: nat)
    requires k < |y.trips|
  {
    var trip := y.trips[k];
    && trip.ticketId in y.tickets && y.tickets[trip.ticketId].status == Complete
    && (trip.reclaimed.Some? ==>
          0.0 < trip.reclaimed.value <= y.tickets[trip.ticketId].volume && Repaid(y.stock.rows, trip.ticketId, ShareOf(y, k)))
  }

  ghost predicate TripsOK(y: Yard) {
    && (forall k :: 0 <= k < |y.trips| ==> TripOK(y, k))
    && (forall j, k :: 0 <= j < k < |y.trips| ==> y.trips[j].ticketId != y.trips[k].ticketId)
  }

  /** Trip j topped up on what trip k brought back. */
  predicate Used(trips: seq<Trip>, k: nat, j: nat) {
    k < |trips| && trips[k].drum.Some? && trips[k].drum.value.consumedBy == Some(j)
  }

  ghost predicate DrumsOK(y: Yard) {
    && (forall k :: 0 <= k < |y.trips| && y.trips[k].drum.Some? ==> y.trips[k].closed)
    && (forall k: nat, j: nat :: Used(y.trips, k, j) ==>
          && k < j < |y.trips| && y.trips[k].drum.value.fate == Reclaimed
          && y.trips[k].ticketId in y.tickets && y.trips[j].ticketId in y.tickets
          && y.tickets[y.trips[k].ticketId].mixId == y.tickets[y.trips[j].ticketId].mixId
          && y.trips[j].reclaimed.Some? && y.trips[j].reclaimed.value <= y.trips[k].drum.value.returned)
    && (forall k: nat, k': nat, j: nat :: Used(y.trips, k, j) && Used(y.trips, k', j) ==> k == k')
    && (forall j :: 0 <= j < |y.trips| && y.trips[j].reclaimed.Some? ==> exists k: nat :: Used(y.trips, k, j))
  }

  ghost predicate Books(opening: Stock, y: Yard) {
    AllInBounds(y.stock) && UniqueKeys(y.stock.rows) && Conserves(opening, y.stock)
  }

  ghost predicate Inv(opening: Stock, y: Yard) {
    Books(opening, y) && RowsOwned(y) && Paired(y.trips, y.stock.rows) && TicketsOK(y) && TripsOK(y) && DrumsOK(y)
  }

  // ---- Rows, credits and repayment ---------------------------------------------------

  /** Exactly the ticket's completion rows, each once. */
  ghost predicate AreOriginals(rows: seq<Row>, t: nat, cr: seq<Row>) {
    && (forall i :: 0 <= i < |cr| ==> cr[i] in rows && IsCompletionOf(cr[i], t))
    && (forall i :: 0 <= i < |rows| && IsCompletionOf(rows[i], t) ==> rows[i] in cr)
    && (forall i, j :: 0 <= i < j < |cr| ==> cr[i].key != cr[j].key)
  }

  lemma {:induction false} CompletionRowsAre(rows: seq<Row>, t: nat)
    requires UniqueKeys(rows)
    ensures AreOriginals(rows, t, CompletionRows(rows, t))
  {
    if rows != [] {
      var before, last := rows[..|rows| - 1], rows[|rows| - 1];
      assert forall i :: 0 <= i < |before| ==> before[i] == rows[i];
      CompletionRowsAre(before, t);
      var cr := CompletionRows(before, t);
      forall i | 0 <= i < |cr| ensures cr[i].key != last.key && cr[i] in rows {
        assert cr[i] in before;
      }
    }
  }

  /** A ticket's completion rows turned into credits for one purpose. */
  function CreditsFor(p: Purpose, originals: seq<Row>): (credits: seq<Credit>)
    ensures |credits| == |originals|
    ensures forall i :: 0 <= i < |credits| ==> credits[i] == CreditFor(p, originals[i])
  {
    seq(|originals|, i requires 0 <= i < |originals| => CreditFor(p, originals[i]))
  }

  /** With every component still on the ticket and a positive share, no row goes without its credit. */
  lemma {:induction false} EveryRowCredited(originals: seq<Row>, comps: Components, trip: nat, fraction: real)
    requires forall i :: 0 <= i < |originals| ==> GetsCredit(originals[i], comps, fraction)
    ensures ReclaimCredits(originals, comps, trip, fraction) == CreditsFor(Share(trip, fraction), originals)
  {
    if originals != [] {
      var before := originals[..|originals| - 1];
      assert forall i :: 0 <= i < |before| ==> before[i] == originals[i];
      EveryRowCredited(before, comps, trip, fraction);
    }
  }

  predicate Positive(p: Purpose) {
    p.Share? ==> p.fraction > 0.0
  }

  lemma CreditsAreNew(rows: seq<Row>, t: nat, p: Purpose)
    requires UniqueKeys(rows) && Positive(p)
    requires forall i :: 0 <= i < |rows| ==> !IsCreditKey(p, t, rows[i].key)
    requires forall i :: 0 <= i < |rows| && IsCompletionOf(rows[i], t) ==> rows[i].quantity <= -EPSILON
    ensures NewCredits(rows, CreditsFor(p, CompletionRows(rows, t)))
    ensures forall k :: k in KeysOf(CreditsFor(p, CompletionRows(rows, t))) ==> IsCreditKey(p, t, k) && HasRow(rows, OriginalKey(k, t))
  {
    CompletionRowsAre(rows, t);
    var cr := CompletionRows(rows, t);
    var credits := CreditsFor(p, cr);
    forall i | 0 <= i < |credits|
      ensures 0.0 < credits[i].quantity && IsCreditKey(p, t, credits[i].key) && !HasRow(rows, credits[i].key)
      ensures HasRow(rows, OriginalKey(credits[i].key, t))
    {
      assert cr[i] in rows && IsCompletionOf(cr[i], t) && cr[i].key == OriginalKey(credits[i].key, t);
      assert credits[i] == CreditFor(p, cr[i]) && cr[i].quantity <= -EPSILON;
    }
    forall i, j | 0 <= i < j < |credits| ensures credits[i].key != credits[j].key {
      assert cr[i] in rows && cr[j] in rows;
      assert cr[i].key != cr[j].key && IsCompletionOf(cr[i], t) && IsCompletionOf(cr[j], t);
    }
  }

  lemma RepaidStays(rows: seq<Row>, rows': seq<Row>, t: nat, p: Purpose)
    requires rows <= rows' && Repaid(rows, t, p)
    requires forall i :: |rows| <= i < |rows'| ==> !IsCompletionOf(rows'[i], t) && !IsCreditKey(p, t, rows'[i].key)
    ensures Repaid(rows', t, p)
  {
    hide Recorded;
    forall i | 0 <= i < |rows'| && IsCompletionOf(rows'[i], t)
      ensures Recorded(rows', CreditFor(p, rows'[i]).key, CreditFor(p, rows'[i]).quantity)
    {
      assert rows'[i] == rows[i];
      RecordedStays(rows, rows', CreditFor(p, rows[i]).key, CreditFor(p, rows[i]).quantity);
    }
  }

  /** Posting a ticket's credits repays it, and nothing else in the ledger changes. */
  lemma PostingRepays(st: Stock, t: nat, p: Purpose, skipPosted: bool)
    requires AllInBounds(st) && UniqueKeys(st.rows) && Positive(p)
    requires forall i :: 0 <= i < |st.rows| ==> !IsCreditKey(p, t, st.rows[i].key)
    requires forall i :: 0 <= i < |st.rows| && IsCompletionOf(st.rows[i], t) ==> st.rows[i].quantity <= -EPSILON
    requires PostCredits(st, CreditsFor(p, CompletionRows(st.rows, t)), skipPosted).Credited?
    ensures var st' := PostCredits(st, CreditsFor(p, CompletionRows(st.rows, t)), skipPosted).stock;
            && AllInBounds(st') && UniqueKeys(st'.rows) && Conserves(st, st') && st.rows <= st'.rows
            && (forall i :: |st.rows| <= i < |st'.rows| ==>
                  IsCreditKey(p, t, st'.rows[i].key) && HasRow(st.rows, OriginalKey(st'.rows[i].key, t)))
            && Repaid(st'.rows, t, p)
  {
    hide PostCredits, Recorded, Conserves, AllInBounds;
    var cr := CompletionRows(st.rows, t);
    var credits := CreditsFor(p, cr);
    CreditsAreNew(st.rows, t, p);
    CompletionRowsAre(st.rows, t);
    CreditsRecorded(st, credits, skipPosted);
    var st' := PostCredits(st, credits, skipPosted).stock;
    forall i | 0 <= i < |st'.rows| && IsCompletionOf(st'.rows[i], t)
      ensures Recorded(st'.rows, CreditFor(p, st'.rows[i]).key, CreditFor(p, st'.rows[i]).quantity)
    {
      assert i < |st.rows| && st'.rows[i] == st.rows[i];
      var j :| 0 <= j < |cr| && cr[j] == st.rows[i];
      assert credits[j] == CreditFor(p, cr[j]);
    }
  }

  /** What a completion adds to the ledger: rows of its own, each taking stock out. */
  lemma {:induction false} CompletionGrows(st: Stock, t: nat, resolved: seq<Resolved>, allowed: map<MaterialId, real>)
    requires AllInBounds(st) && UniqueKeys(st.rows) && PostAll(st, t, resolved, allowed).Completed?
    requires forall i :: 0 <= i < |resolved| ==> resolved[i].required >= 0.0
    ensures var st' := PostAll(st, t, resolved, allowed).stock;
            && AllInBounds(st') && UniqueKeys(st'.rows) && Conserves(st, st') && st.rows <= st'.rows
            && forall i :: |st.rows| <= i < |st'.rows| ==>
                 && IsCompletionOf(st'.rows[i], t) && st'.rows[i].quantity <= -EPSILON
                 && exists c :: c in resolved && c.materialId == st'.rows[i].key.materialId
  {
    hide Post, Conserves, AllInBounds, UniqueKeys;
    if resolved == [] {
      ConservesItself(st);
    } else {
      var before, c := resolved[..|resolved| - 1], resolved[|resolved| - 1];
      CompletionGrows(st, t, before, allowed);
      var st1 := PostAll(st, t, before, allowed).stock;
      OneDeduction(st1, CompletionKey(t, c), c.required, Ceiling(allowed, c.materialId));
      var st2 := Post(st1, CompletionKey(t, c), -c.required, Ceiling(allowed, c.materialId)).0;
      ConservesTransitive(st, st1, st2);
      forall i | |st.rows| <= i < |st2.rows|
        ensures IsCompletionOf(st2.rows[i], t) && st2.rows[i].quantity <= -EPSILON
        ensures exists c :: c in resolved && c.materialId == st2.rows[i].key.materialId
      {
        if i < |st1.rows| {
          assert st2.rows[i] == st1.rows[i];
          var d :| d in before && d.materialId == st1.rows[i].key.materialId;
          assert d in resolved;
        } else {
          assert c in resolved;
        }
      }
    }
  }

  lemma ConservesItself(st: Stock)
    ensures Conserves(st, st)
  {}

  lemma OneDeduction(st: Stock, key: Key, required: real, maxAllowed: real)
    requires AllInBounds(st) && UniqueKeys(st.rows) && required >= 0.0
    ensures var st' := Post(st, key, -required, maxAllowed).0;
            && AllInBounds(st') && UniqueKeys(st'.rows) && Conserves(st, st') && st.rows <= st'.rows
            && forall i :: |st.rows| <= i < |st'.rows| ==> st'.rows[i].key == key && st'.rows[i].quantity <= -EPSILON
  {
    hide Conserves;
    PostConserves(st, key, -required, maxAllowed);
    PostAddsRow(st, key, required, maxAllowed);
  }

  lemma PostAddsRow(st: Stock, key: Key, required: real, maxAllowed: real)
    requires AllInBounds(st) && required >= 0.0 && UniqueKeys(st.rows)
    ensures var rows' := Post(st, key, -required, maxAllowed).0.rows;
            || rows' == st.rows
            || (exists q :: q <= -EPSILON && rows' == st.rows + [Row(key, q)] && UniqueKeys(rows'))
  {
    var (st', r) := Post(st, key, -required, maxAllowed);
    if st'.rows != st.rows {
      assert st'.rows == st.rows + [Row(key, r.applied)];
      assert InBounds(st.stores[key.storageId]) && r.applied <= 0.0;
      assert forall i :: 0 <= i < |st.rows| ==> st.rows[i].key != key;
    }
  }

  // ---- Every event keeps the invariant -------------------------------------------------

  lemma BooksGrow(opening: Stock, y: Yard, y': Yard)
    requires Books(opening, y) && AllInBounds(y'.stock) && UniqueKeys(y'.stock.rows) && Conserves(y.stock, y'.stock)
    ensures Books(opening, y')
  {
    ConservesTransitive(opening, y.stock, y'.stock);
  }

  lemma PairedGrows(trips: seq<Trip>, rows: seq<Row>, trips': seq<Trip>, rows': seq<Row>, t: nat, p: Purpose)
    requires Paired(trips, rows) && rows <= rows' && |trips| <= |trips'|
    requires forall k :: 0 <= k < |trips| ==> trips'[k].ticketId == trips[k].ticketId
    requires forall i :: |rows| <= i < |rows'| ==>
               IsCompletionOf(rows'[i], t) || (IsCreditKey(p, t, rows'[i].key) && HasRow(rows, OriginalKey(rows'[i].key, t)))
    requires p.Share? ==> p.trip < |trips'| && trips'[p.trip].ticketId == t
    ensures Paired(trips', rows')
  {
    forall key | HasRow(rows, key) ensures HasRow(rows', key) {
      var i :| 0 <= i < |rows| && rows[i].key == key;
      assert rows'[i] == rows[i];
    }
    forall i | 0 <= i < |rows'| ensures RowPaired(trips', rows', rows'[i]) {
      if i < |rows| { assert RowPaired(trips, rows, rows[i]) && rows'[i] == rows[i]; }
      if IsCompletionOf(rows'[i], t) { assert rows'[i].key == OriginalKey(rows'[i].key, t); }
    }
  }

  /** New rows that repay nobody else leave everyone else repaid. */
  lemma OthersStayRepaid(y: Yard, rows': seq<Row>, t: nat, p: Purpose)
    requires TicketsOK(y) && TripsOK(y) && y.stock.rows <= rows'
    requires forall i :: |y.stock.rows| <= i < |rows'| ==> IsCompletionOf(rows'[i], t) || IsCreditKey(p, t, rows'[i].key)
    requires t !in y.tickets || !y.tickets[t].reversed
    requires p.Share? ==> p.trip == |y.trips|
    requires HasTrip(y.trips, t) ==> forall i :: |y.stock.rows| <= i < |rows'| ==> !IsCompletionOf(rows'[i], t)
    ensures forall u :: u in y.tickets && y.tickets[u].reversed ==> Repaid(rows', u, Undo)
    ensures forall k :: 0 <= k < |y.trips| && TripOK(y, k) && y.trips[k].reclaimed.Some? ==> Repaid(rows', y.trips[k].ticketId, ShareOf(y, k))
  {
    hide Repaid;
    forall u | u in y.tickets && y.tickets[u].reversed ensures Repaid(rows', u, Undo) {
      RepaidStays(y.stock.rows, rows', u, Undo);
    }
    forall k | 0 <= k < |y.trips| && TripOK(y, k) && y.trips[k].reclaimed.Some?
      ensures Repaid(rows', y.trips[k].ticketId, ShareOf(y, k))
    {
      RepaidStays(y.stock.rows, rows', y.trips[k].ticketId, ShareOf(y, k));
    }
  }

  lemma FinishKeeps(opening: Stock, y: Yard, t: nat, resolved: seq<Resolved>, comps: Components, allowed: map<MaterialId, real>)
    requires Inv(opening, y) && Enabled(Finish(t, resolved, comps, allowed))
    ensures Inv(opening, FinishStep(y, t, resolved, comps, allowed)) && y.stock.rows <= FinishStep(y, t, resolved, comps, allowed).stock.rows
  {
    hide PostAll, Repaid, Conserves, AllInBounds, UniqueKeys, DrumsOK;
    var y' := FinishStep(y, t, resolved, comps, allowed);
    if y' != y {
      CompletionGrows(y.stock, t, resolved, allowed);
      forall k | 0 <= k < |y.trips| ensures y.trips[k].ticketId != t { assert TripOK(y, k); }
      OthersStayRepaid(y, y'.stock.rows, t, Undo);
      PairedGrows(y.trips, y.stock.rows, y'.trips, y'.stock.rows, t, Undo);
      BooksGrow(opening, y, y');
      forall i | 0 <= i < |y'.stock.rows| ensures RowOwned(y'.tickets, y'.trips, y'.stock.rows[i]) {
        if i < |y.stock.rows| { assert y'.stock.rows[i] == y.stock.rows[i]; }
      }
      forall k | 0 <= k < |y'.trips| ensures TripOK(y', k) { assert TripOK(y, k); }
      DrumsDependOnTrips(y, y');
    }
  }

  /** Every ticket is still there, and still of its mix. */
  ghost predicate SameMixes(y: Yard, y': Yard) {
    forall t :: t in y.tickets ==> t in y'.tickets && y'.tickets[t].mixId == y.tickets[t].mixId
  }

  lemma DrumsDependOnTrips(y: Yard, y': Yard)
    requires DrumsOK(y) && y'.trips == y.trips && SameMixes(y, y')
    ensures DrumsOK(y')
  {}

  lemma ReverseKeeps(opening: Stock, y: Yard, t: nat)
    requires Inv(opening, y)
    ensures Inv(opening, ReverseStep(y, t)) && y.stock.rows <= ReverseStep(y, t).stock.rows
  {
    hide PostCredits, Repaid, Conserves, AllInBounds, UniqueKeys, DrumsOK, Paired;
    var y' := ReverseStep(y, t);
    if y' != y {
      var cr := CompletionRows(y.stock.rows, t);
      assert CreditsFor(Undo, cr) == ReversalCredits(cr);
      assert forall i :: 0 <= i < |y.stock.rows| ==> RowOwned(y.tickets, y.trips, y.stock.rows[i]);
      PostingRepays(y.stock, t, Undo, true);
      OthersStayRepaid(y, y'.stock.rows, t, Undo);
      PairedGrows(y.trips, y.stock.rows, y'.trips, y'.stock.rows, t, Undo);
      BooksGrow(opening, y, y');
      forall i | 0 <= i < |y'.stock.rows| ensures RowOwned(y'.tickets, y'.trips, y'.stock.rows[i]) {
        if i < |y.stock.rows| { assert y'.stock.rows[i] == y.stock.rows[i]; }
      }
      forall k | 0 <= k < |y'.trips| ensures TripOK(y', k) { assert TripOK(y, k); }
      DrumsDependOnTrips(y, y');
    }
  }

  lemma EveryRowOfTicketCredited(y: Yard, t: nat, trip: nat, fraction: real)
    requires RowsOwned(y) && UniqueKeys(y.stock.rows) && t in y.tickets && fraction > 0.0
    ensures ReclaimCredits(CompletionRows(y.stock.rows, t), y.tickets[t].comps, trip, fraction)
            == CreditsFor(Share(trip, fraction), CompletionRows(y.stock.rows, t))
    ensures forall i :: 0 <= i < |y.stock.rows| && IsCompletionOf(y.stock.rows[i], t) ==> y.stock.rows[i].quantity <= -EPSILON
  {
    var cr := CompletionRows(y.stock.rows, t);
    CompletionRowsAre(y.stock.rows, t);
    forall i | 0 <= i < |cr| ensures GetsCredit(cr[i], y.tickets[t].comps, fraction) {
      assert cr[i] in y.stock.rows && IsCompletionOf(cr[i], t) && RowOwned(y.tickets, y.trips, cr[i]);
      assert Abs(cr[i].quantity) * fraction > 0.0;
    }
    EveryRowCredited(cr, y.tickets[t].comps, trip, fraction);
    forall i | 0 <= i < |y.stock.rows| && IsCompletionOf(y.stock.rows[i], t) ensures y.stock.rows[i].quantity <= -EPSILON {
      assert RowOwned(y.tickets, y.trips, y.stock.rows[i]);
    }
  }

  lemma NoCreditsYet(y: Yard, t: nat, fraction: real)
    requires RowsOwned(y)
    ensures forall i :: 0 <= i < |y.stock.rows| ==> !IsCreditKey(Share(|y.trips|, fraction), t, y.stock.rows[i].key)
  {
    forall i | 0 <= i < |y.stock.rows| ensures !IsCreditKey(Share(|y.trips|, fraction), t, y.stock.rows[i].key) {
      assert RowOwned(y.tickets, y.trips, y.stock.rows[i]);
    }
  }

  lemma TopUpKeeps(opening: Stock, y: Yard, t: nat, truckId: nat, k: nat)
    requires Inv(opening, y) && DispatchStep(y, t, truckId, true) != y
    requires t in y.tickets && AvailableReclaim(y, truckId, y.tickets[t].mixId) == Some(k)
    ensures Inv(opening, DispatchStep(y, t, truckId, true)) && y.stock.rows <= DispatchStep(y, t, truckId, true).stock.rows
  {
    hide PostCredits, Repaid, Conserves, AllInBounds, UniqueKeys, DrumsOK, LastClosed, AvailableReclaim, Paired, IsCreditKey, IsCompletionOf;
    var y', trip := DispatchStep(y, t, truckId, true), |y.trips|;
    var ticket := y.tickets[t];
    var r := Min(y.trips[k].drum.value.returned, ticket.volume);
    var fraction := 1.0 - (1.0 - r / ticket.volume);
    var p := Share(trip, fraction);
    assert fraction == r / ticket.volume && fraction > 0.0;
    EveryRowOfTicketCredited(y, t, trip, fraction);
    NoCreditsYet(y, t, fraction);
    PostingRepays(y.stock, t, p, false);
    OthersStayRepaid(y, y'.stock.rows, t, p);
    PairedGrows(y.trips, y.stock.rows, y'.trips, y'.stock.rows, t, p);
    BooksGrow(opening, y, y');
    RowsStayOwned(y, y', t, p);
    TripsGrow(y, y', t);
    DrumUsed(y, y', k);
  }

  /** A trip more, for a ticket that had none; the trips before it are the same but for what became of their drums. */
  predicate OneMoreTrip(y: Yard, y': Yard) {
    && |y'.trips| == |y.trips| + 1 && y'.tickets == y.tickets
    && forall j :: 0 <= j < |y.trips| ==> y'.trips[j] == y.trips[j].(drum := y'.trips[j].drum)
  }

  lemma RowsStayOwned(y: Yard, y': Yard, t: nat, p: Purpose)
    requires RowsOwned(y) && y.stock.rows <= y'.stock.rows && OneMoreTrip(y, y') && p.Share? && p.trip == |y.trips|
    requires forall i :: |y.stock.rows| <= i < |y'.stock.rows| ==> IsCreditKey(p, t, y'.stock.rows[i].key)
    ensures RowsOwned(y')
  {
    forall i | 0 <= i < |y'.stock.rows| ensures RowOwned(y'.tickets, y'.trips, y'.stock.rows[i]) {
      if i < |y.stock.rows| { assert y'.stock.rows[i] == y.stock.rows[i] && RowOwned(y.tickets, y.trips, y.stock.rows[i]); }
    }
  }

  lemma TripsGrow(y: Yard, y': Yard, t: nat)
    requires TicketsOK(y) && TripsOK(y) && OneMoreTrip(y, y') && !HasTrip(y.trips, t) && y'.trips[|y.trips|].ticketId == t
    requires t in y.tickets && !y.tickets[t].reversed
    requires TripOK(y', |y.trips|)
    requires forall u :: u in y.tickets && y.tickets[u].reversed ==> Repaid(y'.stock.rows, u, Undo)
    requires forall k :: 0 <= k < |y.trips| && TripOK(y, k) && y.trips[k].reclaimed.Some? ==>
               Repaid(y'.stock.rows, y.trips[k].ticketId, ShareOf(y, k))
    ensures TicketsOK(y') && TripsOK(y')
  {
    hide Repaid;
    forall k | 0 <= k < |y'.trips| ensures TripOK(y', k) {
      if k < |y.trips| { assert TripOK(y, k) && y'.trips[k] == y.trips[k].(drum := y'.trips[k].drum); }
    }
    forall j, k | 0 <= j < k < |y'.trips| ensures y'.trips[j].ticketId != y'.trips[k].ticketId {
      assert y'.trips[j] == y.trips[j].(drum := y'.trips[j].drum);
      if k < |y.trips| { assert y'.trips[k] == y.trips[k].(drum := y'.trips[k].drum); }
    }
    forall u | u in y'.tickets && y'.tickets[u].reversed ensures !HasTrip(y'.trips, u) {
      assert !HasTrip(y.trips, u);
      assert forall k :: 0 <= k < |y.trips| ==> y'.trips[k].ticketId == y.trips[k].ticketId;
    }
  }

  lemma DrumUsed(y: Yard, y': Yard, k: nat)
    requires DrumsOK(y) && OneMoreTrip(y, y') && k < |y.trips|
    requires y.trips[k].ticketId in y.tickets && y'.trips[|y.trips|].ticketId in y.tickets
    requires y.tickets[y.trips[k].ticketId].mixId == y.tickets[y'.trips[|y.trips|].ticketId].mixId
    requires y.trips[k].drum.Some? && y.trips[k].drum.value.fate == Reclaimed && y.trips[k].drum.value.consumedBy == None
    requires y'.trips[..|y.trips|] == y.trips[k := y.trips[k].(drum := Some(y.trips[k].drum.value.(consumedBy := Some(|y.trips|))))]
    requires var created := y'.trips[|y.trips|];
             && created.drum == None && created.reclaimed.Some?
             && created.reclaimed.value <= y.trips[k].drum.value.returned
    ensures DrumsOK(y')
  {
    var n := |y.trips|;
    forall j | 0 <= j < n
      ensures y'.trips[j] == if j == k then y.trips[k].(drum := Some(y.trips[k].drum.value.(consumedBy := Some(n)))) else y.trips[j]
    {
      assert y'.trips[..n][j] == y'.trips[j];
    }
    forall j: nat, i: nat ensures Used(y'.trips, j, i) <==> Used(y.trips, j, i) || (j == k && i == n) {}
    forall j: nat, i: nat | Used(y'.trips, j, i)
      ensures j < i < |y'.trips| && y'.trips[j].drum.value.fate == Reclaimed
              && y'.trips[j].ticketId in y'.tickets && y'.trips[i].ticketId in y'.tickets
              && y'.tickets[y'.trips[j].ticketId].mixId == y'.tickets[y'.trips[i].ticketId].mixId
              && y'.trips[i].reclaimed.Some? && y'.trips[i].reclaimed.value <= y'.trips[j].drum.value.returned
    {
      if !(j == k && i == n) { assert Used(y.trips, j, i); }
    }
    forall i | 0 <= i < |y'.trips| && y'.trips[i].reclaimed.Some? ensures exists j: nat :: Used(y'.trips, j, i) {
      if i < n {
        var j: nat :| Used(y.trips, j, i);
        assert Used(y'.trips, j, i);
      } else {
        assert Used(y'.trips, k, i);
      }
    }
  }

  lemma DispatchKeeps(opening: Stock, y: Yard, t: nat, truckId: nat, resourcesFree: bool)
    requires Inv(opening, y)
    ensures Inv(opening, DispatchStep(y, t, truckId, resourcesFree)) && y.stock.rows <= DispatchStep(y, t, truckId, resourcesFree).stock.rows
  {
    hide PostCredits, Repaid, Conserves, AllInBounds, UniqueKeys, DrumsOK, LastClosed, AvailableReclaim;
    var y' := DispatchStep(y, t, truckId, resourcesFree);
    if y' != y {
      match AvailableReclaim(y, truckId, y.tickets[t].mixId)
      case Some(k) => TopUpKeeps(opening, y, t, truckId, k);
      case None =>
        PairedGrows(y.trips, y.stock.rows, y'.trips, y'.stock.rows, t, Undo);
        TripsGrow(y, y', t);
        assert y'.trips == y.trips + [Trip(t, truckId, false, None, None)];
        DrumsUntouched(y, y');
        assert forall i :: 0 <= i < |y.stock.rows| ==> RowOwned(y.tickets, y.trips, y.stock.rows[i]);
    }
  }

  /** No drum changes hands when nothing is topped up. */
  lemma DrumsUntouched(y: Yard, y': Yard)
    requires DrumsOK(y) && |y.trips| <= |y'.trips| && y'.tickets == y.tickets
    requires forall j :: 0 <= j < |y.trips| ==>
               && y'.trips[j].ticketId == y.trips[j].ticketId && y'.trips[j].reclaimed == y.trips[j].reclaimed
               && (y'.trips[j].drum.Some? ==> y'.trips[j].closed || y'.trips[j] == y.trips[j])
               && (y.trips[j].drum.Some? && y.trips[j].drum.value.consumedBy.Some? ==> y'.trips[j].drum == y.trips[j].drum)
               && (y'.trips[j].drum.Some? && y'.trips[j].drum.value.consumedBy.Some? ==> y'.trips[j].drum == y.trips[j].drum)
    requires forall j :: |y.trips| <= j < |y'.trips| ==> y'.trips[j].drum == None && y'.trips[j].reclaimed == None
    ensures DrumsOK(y')
  {
    forall j: nat, i: nat ensures Used(y'.trips, j, i) <==> Used(y.trips, j, i) {}
    forall i | 0 <= i < |y'.trips| && y'.trips[i].reclaimed.Some? ensures exists j: nat :: Used(y'.trips, j, i) {
      var j: nat :| Used(y.trips, j, i);
      assert Used(y'.trips, j, i);
    }
  }

  /** Trips that change only in their truck, in being closed and in their drum leave the tickets as they were. */
  lemma TripsOnlyMarked(opening: Stock, y: Yard, y': Yard)
    requires Inv(opening, y) && y'.stock == y.stock && y'.tickets == y.tickets && |y'.trips| == |y.trips| && DrumsOK(y')
    requires forall j :: 0 <= j < |y.trips| ==>
               y'.trips[j] == y.trips[j].(drum := y'.trips[j].drum, closed := y'.trips[j].closed, truckId := y'.trips[j].truckId)
    ensures Inv(opening, y')
  {
    hide Repaid, Conserves, AllInBounds, UniqueKeys, DrumsOK;
    PairedGrows(y.trips, y.stock.rows, y'.trips, y'.stock.rows, 0, Undo);
    forall k | 0 <= k < |y'.trips| ensures TripOK(y', k) {
      assert TripOK(y, k) && y'.trips[k].reclaimed == y.trips[k].reclaimed && y'.trips[k].ticketId == y.trips[k].ticketId;
    }
    forall j, k | 0 <= j < k < |y'.trips| ensures y'.trips[j].ticketId != y'.trips[k].ticketId {
      assert y'.trips[j].ticketId == y.trips[j].ticketId && y'.trips[k].ticketId == y.trips[k].ticketId;
    }
    forall u | u in y'.tickets && y'.tickets[u].reversed ensures !HasTrip(y'.trips, u) {
      assert forall k :: 0 <= k < |y.trips| ==> y'.trips[k].ticketId == y.trips[k].ticketId;
    }
    forall i | 0 <= i < |y'.stock.rows| ensures RowOwned(y'.tickets, y'.trips, y'.stock.rows[i]) {}
  }

  lemma TicketOnlyOpened(opening: Stock, y: Yard, y': Yard, t: nat)
    requires Inv(opening, y) && y'.stock == y.stock && y'.trips == y.trips
    requires t in y.tickets ==> y.tickets[t].status == Open
    requires exists ticket :: y'.tickets == y.tickets[t := ticket] && !ticket.reversed
    requires SameMixes(y, y')
    ensures Inv(opening, y')
  {
    hide Repaid, Conserves, AllInBounds, UniqueKeys, DrumsOK;
    forall k | 0 <= k < |y'.trips| ensures TripOK(y', k) { assert TripOK(y, k); }
    forall i | 0 <= i < |y'.stock.rows| ensures RowOwned(y'.tickets, y'.trips, y'.stock.rows[i]) {
      assert RowOwned(y.tickets, y.trips, y.stock.rows[i]);
    }
    DrumsDependOnTrips(y, y');
  }

  lemma MeasureKeepsBooks(opening: Stock, y: Yard, e: Event)
    requires Books(opening, y) && Enabled(e) && Fits(y, e) && (e.Measure? || e.Refit? || e.Resize?)
    ensures Books(Corrected(opening, y, e), Step(y, e))
  {
    hide UniqueKeys, AllInBounds, Conserves;
    var y' := Step(y, e);
    if y' != y {
      SetByHand(opening, y.stock, e.s, y'.stock.stores[e.s]);
    } else {
      NothingSet(opening, y, e);
    }
  }

  lemma SetByHand(opening: Stock, st: Stock, s: StorageId, storage: Storage)
    requires AllInBounds(st) && Conserves(opening, st) && s in st.stores
    ensures s in opening.stores
    ensures InBounds(st.stores[s]) && (InBounds(storage) ==> AllInBounds(st.(stores := st.stores[s := storage])))
    ensures Conserves(opening.(stores := opening.stores[s := Storage(opening.stores[s].level + (storage.level - st.stores[s].level), storage.capacity)]),
                      st.(stores := st.stores[s := storage]))
  {
    hide RowSum;
  }

  lemma NothingSet(opening: Stock, y: Yard, e: Event)
    requires Conserves(opening, y.stock) && Enabled(e) && (e.Measure? || e.Refit? || e.Resize?) && Step(y, e) == y
    ensures Corrected(opening, y, e) == opening
  {
    if e.s in opening.stores {
      assert y.stock.stores[e.s].capacity == opening.stores[e.s].capacity;
      assert opening.stores[e.s := opening.stores[e.s]] == opening.stores;
    }
  }

  /** A store set by hand: the rows, and all that hangs on them, stay. */
  lemma MeasureKeeps(opening: Stock, y: Yard, e: Event)
    requires Inv(opening, y) && Enabled(e) && Fits(y, e) && (e.Measure? || e.Refit? || e.Resize?)
    ensures Inv(Corrected(opening, y, e), Step(y, e)) && y.stock.rows <= Step(y, e).stock.rows
  {
    hide Repaid, Paired, DrumsOK, UniqueKeys, Conserves, AllInBounds, Corrected, Fits;
    MeasureKeepsBooks(opening, y, e);
    var y' := Step(y, e);
    DrumsDependOnTrips(y, y');
    forall k | 0 <= k < |y'.trips| ensures TripOK(y', k) { assert TripOK(y, k); }
    forall i | 0 <= i < |y'.stock.rows| ensures RowOwned(y'.tickets, y'.trips, y'.stock.rows[i]) {
      assert RowOwned(y.tickets, y.trips, y.stock.rows[i]);
    }
  }

  /** From within bounds a step stays within them unless, and only unless, it sets a capacity below the level. */
  lemma InBoundsExactlyIfFits(opening: Stock, y: Yard, e: Event)
    requires Inv(opening, y) && Enabled(e)
    ensures AllInBounds(Step(y, e).stock) <==> Fits(y, e)
  {
    if Fits(y, e) {
      hide Step, Fits, AllInBounds, Inv;
      StepKeeps(opening, y, e);
      BoundsOfInv(Corrected(opening, y, e), Step(y, e));
    } else {
      assert !InBounds(Step(y, e).stock.stores[e.s]);
    }
  }

  lemma BoundsOfInv(opening: Stock, y: Yard)
    requires Inv(opening, y)
    ensures AllInBounds(y.stock)
  {}

  lemma StepKeeps(opening: Stock, y: Yard, e: Event)
    requires Inv(opening, y) && Enabled(e) && Fits(y, e)
    ensures Inv(Corrected(opening, y, e), Step(y, e)) && y.stock.rows <= Step(y, e).stock.rows
  {
    hide FinishStep, ReverseStep, DispatchStep, Repaid, Conserves, AllInBounds, UniqueKeys, RowsOwned;
    match e
    case Release(t, _, _) => if t !in y.tickets { TicketOnlyOpened(opening, y, Step(y, e), t); }
    case Finish(t, resolved, comps, allowed) => FinishKeeps(opening, y, t, resolved, comps, allowed);
    case Cancel(t) => if t in y.tickets && y.tickets[t].status == Open { TicketOnlyOpened(opening, y, Step(y, e), t); }
    case Reverse(t) => ReverseKeeps(opening, y, t);
    case Dispatch(t, truckId, resourcesFree) => DispatchKeeps(opening, y, t, truckId, resourcesFree);
    case Reassign(_, _, _) => MarkKeeps(opening, y, e);
    case Close(k, drum) => MarkKeeps(opening, y, e);
    case Decide(k, fate) => MarkKeeps(opening, y, e);
    case Measure(_, _) => MeasureKeeps(opening, y, e);
    case Refit(_, _, _) => MeasureKeeps(opening, y, e);
    case Resize(_, _) => MeasureKeeps(opening, y, e);
  }

  lemma MarkKeeps(opening: Stock, y: Yard, e: Event)
    requires Inv(opening, y) && Enabled(e) && (e.Reassign? || e.Close? || e.Decide?)
    ensures Inv(opening, Step(y, e)) && y.stock.rows <= Step(y, e).stock.rows
  {
    hide Repaid, Conserves, AllInBounds, UniqueKeys, RowsOwned, TicketsOK, TripsOK;
    DrumsUntouched(y, Step(y, e));
    TripsOnlyMarked(opening, y, Step(y, e));
  }

  /** A yard before its first ticket. */
  ghost predicate Start(y: Yard) {
    AllInBounds(y.stock) && y.stock.rows == [] && y.tickets == map[] && y.trips == []
  }

  lemma {:induction false} RunKeeps(opening: Stock, y: Yard, es: seq<Event>)
    requires Inv(opening, y) && (forall i :: 0 <= i < |es| ==> Enabled(es[i])) && AllFit(y, es)
    ensures Inv(OpeningOf(opening, y, es), Run(y, es))
    decreases |es|
  {
    hide Inv, Fits, Step, Corrected;
    if es != [] {
      StepKeeps(opening, y, es[0]);
      RunKeeps(Corrected(opening, y, es[0]), Step(y, es[0]), es[1..]);
    }
  }

  lemma StartKeeps(y: Yard)
    requires Start(y)
    ensures Inv(y.stock, y)
  {}

  lemma NoRowsNoSum(s: StorageId)
    ensures RowSum([], s) == 0.0
  {}

  lemma RunFromStart(y: Yard, es: seq<Event>)
    requires Start(y) && (forall i :: 0 <= i < |es| ==> Enabled(es[i])) && AllFit(y, es)
    ensures Inv(OpeningOf(y.stock, y, es), Run(y, es))
  {
    RunKeeps(y.stock, y, es);
  }

  // ---- Main results, over every run ------------------------------------------------------

  /** Stock is conserved, and never leaves the bounds it started in. */
  lemma StockIsConserved(y: Yard, es: seq<Event>)
    requires Start(y) && (forall i :: 0 <= i < |es| ==> Enabled(es[i])) && AllFit(y, es)
    ensures var end := Run(y, es).stock;
            && AllInBounds(end) && end.stores.Keys == y.stock.stores.Keys
            && forall s :: s in end.stores ==>
                 && Unrecorded(y.stock, s) <= Unrecorded(end, s)
                 && Abs(end.stores[s].level - y.stock.stores[s].level - Corrections(y, es, s) - RowSum(end.rows, s))
                    <= EPSILON * (Unrecorded(end, s) - Unrecorded(y.stock, s)) as real
  {
    hide Run, OpeningOf, Corrections, AllInBounds, RowsOwned, Paired, TicketsOK, TripsOK, DrumsOK, RowSum;
    RunFromStart(y, es);
    StartKeeps(y);
    OpeningIs(y.stock, y, es);
    forall s ensures RowSum(y.stock.rows, s) == 0.0 { NoRowsNoSum(s); }
  }

  lemma StoresOfInv(opening: Stock, y: Yard)
    requires Inv(opening, y)
    ensures y.stock.stores.Keys == opening.stores.Keys
  {}

  lemma {:induction false} OpeningIs(opening: Stock, y: Yard, es: seq<Event>)
    requires Inv(opening, y) && (forall i :: 0 <= i < |es| ==> Enabled(es[i])) && AllFit(y, es)
    ensures OpeningOf(opening, y, es).stores.Keys == opening.stores.Keys
    ensures OpeningOf(opening, y, es).rows == opening.rows && OpeningOf(opening, y, es).unrecorded == opening.unrecorded
    ensures forall s :: s in opening.stores ==> OpeningOf(opening, y, es).stores[s].level == opening.stores[s].level + Corrections(y, es, s)
    decreases |es|
  {
    if es != [] {
      hide Step, Fits, Inv;
      StepKeeps(opening, y, es[0]);
      StoresOfInv(opening, y);
      OpeningIs(Corrected(opening, y, es[0]), Step(y, es[0]), es[1..]);
      hide OpeningOf, Corrections;
      StoresOfInv(Corrected(opening, y, es[0]), Step(y, es[0]));
    }
  }

  /** What a ticket's completion and its reversal come to at one store, for one material. */
  function Net(rows: seq<Row>, t: nat, m: MaterialId, s: StorageId): real {
    QuantityOf(rows, Key(FromTicket, t, BatchCompletion, m, s)) + QuantityOf(rows, Key(FromTicket, t, CompletionReversal, m, s))
  }

  /** A credit's row against the completion row it gives back; no row counts as nothing. */
  lemma CreditAgainstRow(y: Yard, es: seq<Event>, key: Key, p: Purpose)
    requires Start(y) && (forall i :: 0 <= i < |es| ==> Enabled(es[i])) && AllFit(y, es)
    requires Positive(p) && key == OriginalKey(key, key.sourceId)
    requires Repaid(Run(y, es).stock.rows, key.sourceId, p)
    requires p.Share? ==> p.trip < |Run(y, es).trips| && Run(y, es).trips[p.trip].ticketId == key.sourceId
    ensures var rows := Run(y, es).stock.rows;
            QuantityOf(rows, key) <= 0.0
            && Recorded(rows, CreditFor(p, Row(key, QuantityOf(rows, key))).key, CreditFor(p, Row(key, QuantityOf(rows, key))).quantity)
  {
    RunFromStart(y, es);
    var rows := Run(y, es).stock.rows;
    if HasRow(rows, key) {
      QuantityOfRow(rows, key);
      var i :| 0 <= i < |rows| && rows[i] == Row(key, QuantityOf(rows, key));
      assert IsCompletionOf(rows[i], key.sourceId) && RowOwned(Run(y, es).tickets, Run(y, es).trips, rows[i]);
    } else {
      var credit := CreditFor(p, Row(key, 0.0)).key;
      NoSuchRow(rows, key);
      forall i | 0 <= i < |rows| ensures rows[i].key != credit {
        assert OriginalKey(credit, key.sourceId) == key;
      }
      NoSuchRow(rows, credit);
    }
  }

  /**
   A reversed ticket is undone at the store it drew from, within EPSILON (and
   within twice that for a row of between one and two EPSILON), and is on no trip.
   */
  lemma UndoIsExact(y: Yard, es: seq<Event>, t: nat, m: MaterialId, s: StorageId)
    requires Start(y) && (forall i :: 0 <= i < |es| ==> Enabled(es[i])) && AllFit(y, es)
    requires var end := Run(y, es); t in end.tickets && end.tickets[t].reversed
    ensures var end := Run(y, es);
            var taken := -QuantityOf(end.stock.rows, Key(FromTicket, t, BatchCompletion, m, s));
            && -2.0 * EPSILON < Net(end.stock.rows, t, m, s) <= 0.0
            && (taken <= EPSILON || 2.0 * EPSILON <= taken ==> -EPSILON <= Net(end.stock.rows, t, m, s))
            && !HasTrip(end.trips, t)
  {
    hide Run, Repaid;
    RunFromStart(y, es);
    CreditAgainstRow(y, es, Key(FromTicket, t, BatchCompletion, m, s), Undo);
  }

  const ONE_STORE := Yard(Stock(map[0 := Storage(100.0, Some(100.0))], [], map[]), map[], [])

  const ONE_ROW := Key(FromTicket, 0, BatchCompletion, 0, 0)

  /** One ticket completed from one store, the store then set by hand, the ticket then reversed. */
  function UndoneAfter(mass: real, setting: Event): seq<Event> {
    [Release(0, 1.0, 0), Finish(0, [Resolved(0, 0, mass)], map[0 := None], map[]), setting, Reverse(0)]
  }

  /** The yard after completion, the store standing at `storage`. */
  function Batched(mass: real, storage: Storage): Yard {
    Yard(Stock(map[0 := storage], [Row(ONE_ROW, -mass)], map[]), map[0 := Ticket(Complete, false, 1.0, 0, map[0 := None])], [])
  }

  lemma BatchedFirst(mass: real, setting: Event, storage: Storage)
    requires EPSILON <= mass <= 100.0 && Enabled(setting)
    requires Step(Batched(mass, Storage(100.0 - mass, Some(100.0))), setting) == Batched(mass, storage)
    ensures Run(ONE_STORE, UndoneAfter(mass, setting)) == ReverseStep(Batched(mass, storage), 0)
    ensures AllFit(ONE_STORE, UndoneAfter(mass, setting)) <==> Fits(Batched(mass, Storage(100.0 - mass, Some(100.0))), setting)
  {
    hide FinishStep, ReverseStep;
    var es := UndoneAfter(mass, setting);
    var released, finished := Step(ONE_STORE, es[0]), Batched(mass, Storage(100.0 - mass, Some(100.0)));
    CompletedOnce(mass, released);
    assert es[1..] == [es[1], setting, Reverse(0)] && es[1..][1..] == [setting, Reverse(0)];
    assert es[1..][1..][1..] == [Reverse(0)] && es[1..][1..][1..][1..] == [];
    assert Step(released, es[1]) == finished;
    var last := [Reverse(0)];
    assert last[1..] == [];
    assert Run(Batched(mass, storage), last) == ReverseStep(Batched(mass, storage), 0);
    assert Run(finished, [setting] + last) == ReverseStep(Batched(mass, storage), 0) by { assert ([setting] + last)[1..] == last; }
    assert AllFit(finished, [setting] + last) <==> Fits(finished, setting) by { assert ([setting] + last)[1..] == last; }
    assert es[1..][1..] == [setting] + last;
  }

  lemma CompletedOnce(mass: real, released: Yard)
    requires EPSILON <= mass <= 100.0 && released == Step(ONE_STORE, Release(0, 1.0, 0))
    ensures FinishStep(released, 0, [Resolved(0, 0, mass)], map[0 := None], map[]) == Batched(mass, Storage(100.0 - mass, Some(100.0)))
  {
    assert [Resolved(0, 0, mass)][..0] == [];
    var st := ONE_STORE.stock;
    assert st.rows + [Row(ONE_ROW, -mass)] == [Row(ONE_ROW, -mass)];
    assert st.stores[0 := Storage(100.0 - mass, Some(100.0))] == map[0 := Storage(100.0 - mass, Some(100.0))];
    assert released.stock == st;
    assert PostAll(st, 0, [], map[]) == BatchCompletion.Completed(st, []);
    var (st', r) := Post(st, ONE_ROW, -mass, 0.0);
    assert r.Posted?;
    assert st' == Batched(mass, Storage(100.0 - mass, Some(100.0))).stock;
    assert PostAll(st, 0, [Resolved(0, 0, mass)], map[]) == BatchCompletion.Completed(st', []);
  }

  lemma ReversedOnce(mass: real, storage: Storage)
    requires EPSILON <= mass
    ensures var y := Batched(mass, storage);
            var (st, r) := Post(y.stock, ONE_ROW.(movement := CompletionReversal), mass, 0.0);
            r.Posted? ==> ReverseStep(y, 0) == y.(stock := st, tickets := y.tickets[0 := y.tickets[0].(reversed := true)])
  {
    var y := Batched(mass, storage);
    assert y.stock.rows[..0] == [];
    assert CompletionRows(y.stock.rows, 0) == y.stock.rows;
    var credit := Credit(ONE_ROW.(movement := CompletionReversal), mass);
    assert ReversalCredits(y.stock.rows) == [credit];
    assert [credit][..0] == [];
    assert !HasRow(y.stock.rows, credit.key);
    assert PostCredits(y.stock, [], true) == Credited(y.stock);
    var (st, r) := Post(y.stock, credit.key, mass, 0.0);
    assert r.Posted? ==> PostCredits(y.stock, [credit], true) == Credited(st);
    assert !HasTrip(y.trips, 0);
  }

  lemma NetOfTwo(mass: real, more: seq<Row>)
    ensures Net([Row(ONE_ROW, -mass)] + more, 0, 0, 0) == -mass + QuantityOf(more, ONE_ROW.(movement := CompletionReversal))
  {
    var first := [Row(ONE_ROW, -mass)];
    assert HasRow(first, ONE_ROW) by { assert first[0].key == ONE_ROW; }
    assert !HasRow(first, ONE_ROW.(movement := CompletionReversal));
    QuantityOfExtended(first, more, ONE_ROW);
    QuantityOfExtended(first, more, ONE_ROW.(movement := CompletionReversal));
  }

  /** The corner is reached: a silo read half a tolerance below full keeps no record of a reversal of one and a half. */
  lemma UndoCanMiss()
    ensures var es := UndoneAfter(1.5 * EPSILON, Measure(0, 100.0 - 0.5 * EPSILON));
            var end := Run(ONE_STORE, es);
            && Start(ONE_STORE) && AllFit(ONE_STORE, es)
            && 0 in end.tickets && end.tickets[0].reversed && Net(end.stock.rows, 0, 0, 0) == -1.5 * EPSILON
  {
    var mass, storage := 1.5 * EPSILON, Storage(100.0 - 0.5 * EPSILON, Some(100.0));
    BatchedFirst(mass, Measure(0, storage.level), storage);
    ReversedOnce(mass, storage);
    NetOfTwo(mass, []);
    assert [Row(ONE_ROW, -mass)] + [] == [Row(ONE_ROW, -mass)];
  }

  /** A capacity set below the level turns an undo into a second loss. */
  lemma UndoAfterResizeTakesAgain()
    ensures var es := UndoneAfter(10.0, Resize(0, 50.0));
            var end := Run(ONE_STORE, es);
            && Start(ONE_STORE) && !AllFit(ONE_STORE, es)
            && 0 in end.tickets && end.tickets[0].reversed && Net(end.stock.rows, 0, 0, 0) == -50.0
  {
    var storage := Storage(90.0, Some(50.0));
    BatchedFirst(10.0, Resize(0, 50.0), storage);
    ReversedOnce(10.0, storage);
    NetOfTwo(10.0, [Row(ONE_ROW.(movement := CompletionReversal), -40.0)]);
  }

  lemma ShareRecorded(y: Yard, es: seq<Event>, k: nat, m: MaterialId, s: StorageId)
    requires Start(y) && (forall i :: 0 <= i < |es| ==> Enabled(es[i])) && AllFit(y, es)
    requires var end := Run(y, es); k < |end.trips| && end.trips[k].reclaimed.Some?
    ensures var end := Run(y, es);
            && end.trips[k].ticketId in end.tickets
            && 0.0 < end.trips[k].reclaimed.value <= end.tickets[end.trips[k].ticketId].volume
            && var q := QuantityOf(end.stock.rows, Key(FromTicket, end.trips[k].ticketId, BatchCompletion, m, s));
            && var credit := CreditFor(ShareOf(end, k), Row(Key(FromTicket, end.trips[k].ticketId, BatchCompletion, m, s), q));
            && q <= 0.0 && credit.key == Key(FromTrip, k, ReclaimCredit, m, s) && Recorded(end.stock.rows, credit.key, credit.quantity)
  {
    hide Run, Repaid, Recorded, QuantityOf;
    RunFromStart(y, es);
    var end := Run(y, es);
    assert TripOK(end, k);
    ShareOfVolume(end.trips[k].reclaimed.value, end.tickets[end.trips[k].ticketId].volume);
    CreditAgainstRow(y, es, Key(FromTicket, end.trips[k].ticketId, BatchCompletion, m, s), ShareOf(end, k));
  }

  /** After a dispatch that topped up r of a load of V, the ticket has drawn (1 - r/V) of its completion row, within EPSILON. */
  lemma ReclaimIsExact(y: Yard, es: seq<Event>, k: nat, m: MaterialId, s: StorageId)
    requires Start(y) && (forall i :: 0 <= i < |es| ==> Enabled(es[i])) && AllFit(y, es)
    requires var end := Run(y, es); k < |end.trips| && end.trips[k].reclaimed.Some?
    ensures var end := Run(y, es);
            && end.trips[k].ticketId in end.tickets
            && 0.0 < ShareOf(end, k).fraction <= 1.0
            && NetOfShare(-QuantityOf(end.stock.rows, Key(FromTicket, end.trips[k].ticketId, BatchCompletion, m, s)), ShareOf(end, k).fraction,
                          QuantityOf(end.stock.rows, Key(FromTrip, k, ReclaimCredit, m, s)))
  {
    hide Run, NetOfShare, QuantityOf, Recorded;
    ShareRecorded(y, es, k, m, s);
    var end := Run(y, es);
    ShareOfVolume(end.trips[k].reclaimed.value, end.tickets[end.trips[k].ticketId].volume);
    var key := Key(FromTicket, end.trips[k].ticketId, BatchCompletion, m, s);
    var q, share := QuantityOf(end.stock.rows, key), ShareOf(end, k).fraction;
    var credit := CreditFor(ShareOf(end, k), Row(key, q));
    assert credit.quantity == Abs(q) * share;
    hide ShareOf, CreditFor;
    RecordedShare(end.stock.rows, credit.key, q, share, credit.quantity);
  }

  /** What was taken less what was given back is the rest of the share, within EPSILON (twice that for a credit of between one and two EPSILON). */
  predicate NetOfShare(taken: real, share: real, back: real) {
    var off := (taken - back) - (1.0 - share) * taken;
    0.0 <= off < 2.0 * EPSILON && (share * taken <= EPSILON || 2.0 * EPSILON <= share * taken ==> off <= EPSILON)
  }

  lemma RecordedShare(rows: seq<Row>, key: Key, q: real, share: real, quantity: real)
    requires q <= 0.0 && quantity == Abs(q) * share && Recorded(rows, key, quantity)
    ensures NetOfShare(-q, share, QuantityOf(rows, key))
  {
    hide QuantityOf;
    var taken := -q;
    assert (1.0 - share) * taken == taken - share * taken && quantity == share * taken;
  }

  lemma ShareOfVolume(part: real, whole: real)
    requires 0.0 < part <= whole
    ensures 0.0 < part / whole <= 1.0
  {}

  /** A leftover kept in the drum goes into one later load of its mix at most, and every topped-up load used exactly one. */
  lemma LeftoversUsedOnce(y: Yard, es: seq<Event>)
    requires Start(y) && (forall i :: 0 <= i < |es| ==> Enabled(es[i])) && AllFit(y, es)
    ensures DrumsOK(Run(y, es))
  {
    RunFromStart(y, es);
  }

  /** A dispatch tops up on nothing but what the truck's own last closed trip left in it. */
  lemma TopsUpOnLastLeftover(y: Yard, t: nat, truckId: nat, resourcesFree: bool)
    requires var y' := DispatchStep(y, t, truckId, resourcesFree); y' != y && y'.trips[|y.trips|].reclaimed.Some?
    ensures var y' := DispatchStep(y, t, truckId, resourcesFree);
            exists k: nat :: Used(y'.trips, k, |y.trips|) && k < |y.trips| && y.trips[k].truckId == truckId && y.trips[k].closed
                             && (forall i :: k < i < |y.trips| ==> y.trips[i].truckId != truckId)
                             && y'.trips[|y.trips|].reclaimed == Some(Min(y.trips[k].drum.value.returned, y.tickets[t].volume))
  {
    hide PostCredits, LastClosed;
    var y' := DispatchStep(y, t, truckId, resourcesFree);
    var k := AvailableReclaim(y, truckId, y.tickets[t].mixId).value;
    assert Used(y'.trips, k, |y.trips|);
    forall i | k < i < |y.trips| ensures y.trips[i].truckId != truckId {
      assert LastClosed(y.trips, truckId) == Some(k);
    }
  }

  /** The truck's last closed trip brought back concrete of this ticket's mix, kept and not used since. */
  predicate LeftInTruck(y: Yard, t: nat, truckId: nat, k: nat) {
    && k < |y.trips| && y.trips[k].truckId == truckId && y.trips[k].closed
    && (forall i :: k < i < |y.trips| && y.trips[i].truckId == truckId ==> !y.trips[i].closed)
    && y.trips[k].drum.Some? && y.trips[k].drum.value.fate == Reclaimed && y.trips[k].drum.value.consumedBy == None
    && t in y.tickets && y.trips[k].ticketId in y.tickets && y.tickets[y.trips[k].ticketId].mixId == y.tickets[t].mixId
  }

  /** Whatever usable concrete is left in the truck, a dispatch that goes through uses. */
  lemma LeftoverIsUsed(y: Yard, t: nat, truckId: nat, resourcesFree: bool, k: nat)
    requires LeftInTruck(y, t, truckId, k) && DispatchStep(y, t, truckId, resourcesFree) != y
    ensures var y' := DispatchStep(y, t, truckId, resourcesFree);
            && |y'.trips| == |y.trips| + 1 && Used(y'.trips, k, |y.trips|)
            && y'.trips[|y.trips|].ticketId == t && y'.trips[|y.trips|].truckId == truckId && !y'.trips[|y.trips|].closed
            && y'.trips[|y.trips|].reclaimed == Some(Min(y.trips[k].drum.value.returned, y.tickets[t].volume))
  {
    hide PostCredits, LastClosed;
    assert LastClosed(y.trips, truckId) == Some(k);
  }

  /** A load goes out on a completed ticket that has not gone out or been reversed, with a truck that is not out. */
  lemma DispatchesOnlyWhen(y: Yard, t: nat, truckId: nat, resourcesFree: bool)
    ensures var y' := DispatchStep(y, t, truckId, resourcesFree);
            && (y' != y ==>
                  && t in y.tickets && y.tickets[t].status == Complete && !y.tickets[t].reversed && resourcesFree
                  && (forall i :: 0 <= i < |y.trips| ==> y.trips[i].ticketId != t && (y.trips[i].truckId == truckId ==> y.trips[i].closed)))
            && (t in y.tickets && y.tickets[t].status == Complete && !y.tickets[t].reversed && resourcesFree
                && (forall i :: 0 <= i < |y.trips| ==> y.trips[i].ticketId != t && (y.trips[i].truckId == truckId ==> y.trips[i].closed))
                && (forall k: nat :: !LeftInTruck(y, t, truckId, k))
                ==> y' == y.(trips := y.trips + [Trip(t, truckId, false, None, None)]))
  {
    hide PostCredits, LastClosed;
    if AvailableReclaim(y, truckId, if t in y.tickets then y.tickets[t].mixId else 0).Some? && t in y.tickets {
      var k := AvailableReclaim(y, truckId, y.tickets[t].mixId).value;
      assert forall i :: k < i < |y.trips| && y.trips[i].truckId == truckId ==> !y.trips[i].closed by { assert LastClosed(y.trips, truckId) == Some(k); }
      assert LeftInTruck(y, t, truckId, k);
    }
  }

  /** What the yard's own steps do, and when: an open ticket is cancelled, a trip under way closed or given another truck, a drum's fate decided once, if it is not full waste. */
  lemma YardMovesExactlyWhen(y: Yard, e: Event)
    requires Enabled(e)
    ensures e.Release? ==> Step(y, e) == if e.t in y.tickets then y else y.(tickets := y.tickets[e.t := Ticket(Open, false, e.volume, e.mixId, map[])])
    ensures e.Cancel? ==>
              Step(y, e) == if e.t in y.tickets && y.tickets[e.t].status == Open then y.(tickets := y.tickets[e.t := y.tickets[e.t].(status := Cancelled)]) else y
    ensures e.Close? ==>
              Step(y, e) == if e.k < |y.trips| && !y.trips[e.k].closed then y.(trips := y.trips[e.k := y.trips[e.k].(closed := true, drum := e.drum)]) else y
    ensures e.Reassign? ==>
              Step(y, e) == if e.k < |y.trips| && !y.trips[e.k].closed && e.resourcesFree
                 && (forall i :: 0 <= i < |y.trips| && i != e.k && y.trips[i].truckId == e.truckId ==> y.trips[i].closed)
              then y.(trips := y.trips[e.k := y.trips[e.k].(truckId := e.truckId)]) else y
    ensures e.Decide? ==>
              Step(y, e) == if e.k < |y.trips| && y.trips[e.k].drum.Some? && y.trips[e.k].drum.value == Drum(y.trips[e.k].drum.value.returned, false, Undecided, None)
              then y.(trips := y.trips[e.k := y.trips[e.k].(drum := Some(y.trips[e.k].drum.value.(fate := e.fate)))]) else y
    ensures e.Measure? ==>
              Step(y, e) == if e.s in y.stock.stores && 0.0 <= e.reading
              then WithStorage(y, e.s, y.stock.stores[e.s].(level := Capped(e.reading, y.stock.stores[e.s].capacity))) else y
    ensures e.Refit? ==>
              Step(y, e) == if e.s in y.stock.stores && 0.0 <= e.reading && (e.capacity.Some? ==> 0.0 < e.capacity.value)
              then WithStorage(y, e.s, Storage(Capped(e.reading, e.capacity), e.capacity)) else y
  {
    hide FinishStep, ReverseStep, DispatchStep;
  }

  // ---- When an undo goes through ------------------------------------------------------------

  /** What a list of credits brings to one store. */
  function Brought(credits: seq<Credit>, s: StorageId): real {
    if credits == [] then 0.0
    else Brought(credits[..|credits| - 1], s) + (if credits[|credits| - 1].key.storageId == s then credits[|credits| - 1].quantity else 0.0)
  }

  /** Every store is there and has room for all it is brought. */
  ghost predicate HasRoom(st: Stock, credits: seq<Credit>) {
    && (forall i :: 0 <= i < |credits| ==> credits[i].key.storageId in st.stores)
    && (forall s :: s in st.stores && st.stores[s].capacity.Some? ==> st.stores[s].level + Brought(credits, s) <= st.stores[s].capacity.value)
  }

  lemma {:induction false} BroughtNotNegative(credits: seq<Credit>, s: StorageId)
    requires forall i :: 0 <= i < |credits| ==> 0.0 < credits[i].quantity
    ensures Brought(credits, s) >= 0.0
  {
    if credits != [] {
      assert forall i :: 0 <= i < |credits| - 1 ==> credits[..|credits| - 1][i] == credits[i];
      BroughtNotNegative(credits[..|credits| - 1], s);
    }
  }

  /** With room, every credit is posted, in full. */
  lemma {:induction false} CreditsFit(st: Stock, credits: seq<Credit>, skipPosted: bool)
    requires AllInBounds(st) && NewCredits(st.rows, credits) && HasRoom(st, credits)
    ensures var run := PostCredits(st, credits, skipPosted);
            && run.Credited? && run.stock.stores.Keys == st.stores.Keys
            && (forall s :: s in st.stores ==> run.stock.stores[s] == st.stores[s].(level := st.stores[s].level + Brought(credits, s)))
            && forall k :: HasRow(run.stock.rows, k) ==> HasRow(st.rows, k) || k in KeysOf(credits)
  {
    if credits != [] {
      var n := |credits| - 1;
      var before, c := credits[..n], credits[n];
      assert forall i :: 0 <= i < n ==> before[i] == credits[i];
      forall s ensures Brought(before, s) <= Brought(credits, s) && 0.0 <= Brought(before, s) { BroughtNotNegative(before, s); }
      assert HasRoom(st, before);
      CreditsFit(st, before, skipPosted);
      var st1 := PostCredits(st, before, skipPosted).stock;
      assert c.key !in KeysOf(before) && !HasRow(st.rows, c.key);
      hide PostCredits, HasRow, NewCredits;
      OneFits(st1, c);
      assert Brought(credits, c.key.storageId) == Brought(before, c.key.storageId) + c.quantity;
      hide Brought, HasRoom;
      PostedNext(st, credits, skipPosted);
    } else {
      assert PostCredits(st, credits, skipPosted) == Credited(st);
    }
  }

  lemma PostedNext(st: Stock, credits: seq<Credit>, skipPosted: bool)
    requires credits != [] && PostCredits(st, credits[..|credits| - 1], skipPosted).Credited?
    ensures var st1 := PostCredits(st, credits[..|credits| - 1], skipPosted).stock;
            var c := credits[|credits| - 1];
            var (st2, r) := Post(st1, c.key, c.quantity, 0.0);
            && (r.Posted? ==> PostCredits(st, credits, skipPosted) == Credited(st2))
            && KeysOf(credits) == KeysOf(credits[..|credits| - 1]) + {c.key}
  {
    hide Post;
    OneMoreKey(credits);
  }

  lemma OneMoreKey(credits: seq<Credit>)
    requires credits != []
    ensures KeysOf(credits) == KeysOf(credits[..|credits| - 1]) + {credits[|credits| - 1].key}
  {
    var n := |credits| - 1;
    forall k | k in KeysOf(credits) ensures k in KeysOf(credits[..n]) + {credits[n].key} {
      var i :| 0 <= i < |credits| && credits[i].key == k;
      if i < n { assert credits[..n][i].key == k; }
    }
    forall k | k in KeysOf(credits[..n]) ensures k in KeysOf(credits) {
      var i :| 0 <= i < n && credits[..n][i].key == k;
      assert credits[i].key == k;
    }
  }

  lemma OneFits(st: Stock, c: Credit)
    requires !HasRow(st.rows, c.key) && c.key.storageId in st.stores && 0.0 < c.quantity && 0.0 <= st.stores[c.key.storageId].level
    requires var s := st.stores[c.key.storageId]; s.capacity.Some? ==> s.level + c.quantity <= s.capacity.value
    ensures var (st', r) := Post(st, c.key, c.quantity, 0.0);
            var s := st.stores[c.key.storageId];
            && r.Posted? && st'.stores == st.stores[c.key.storageId := s.(level := s.level + c.quantity)]
            && forall k :: HasRow(st'.rows, k) ==> HasRow(st.rows, k) || k == c.key
  {}

  /**
   A completed ticket that drew anything, has not gone out and is not reversed
   yet, is reversed whenever its stores have room for what they get back, and
   each then holds exactly that much more.
   */
  lemma UndoGoesThroughWithRoom(opening: Stock, y: Yard, t: nat)
    requires Inv(opening, y) && t in y.tickets && y.tickets[t].status == Complete && !y.tickets[t].reversed && !HasTrip(y.trips, t)
    requires var credits := CreditsFor(Undo, CompletionRows(y.stock.rows, t)); credits != [] && HasRoom(y.stock, credits)
    ensures var y' := ReverseStep(y, t);
            && y'.tickets == y.tickets[t := y.tickets[t].(reversed := true)] && y'.trips == y.trips
            && forall s :: s in y.stock.stores ==>
                 s in y'.stock.stores
                 && y'.stock.stores[s].level == y.stock.stores[s].level + Brought(CreditsFor(Undo, CompletionRows(y.stock.rows, t)), s)
  {
    hide PostCredits, Repaid, Conserves, DrumsOK, Paired, HasRoom;
    var cr := CompletionRows(y.stock.rows, t);
    assert CreditsFor(Undo, cr) == ReversalCredits(cr);
    assert forall i :: 0 <= i < |y.stock.rows| ==> RowOwned(y.tickets, y.trips, y.stock.rows[i]);
    CreditsAreNew(y.stock.rows, t, Undo);
    CreditsFit(y.stock, CreditsFor(Undo, cr), true);
  }

  /** What is reversed stays reversed and never rides; what is on a trip is never reversed; what is used up stays used up. */
  lemma NothingIsUndoneTwice(opening: Stock, y: Yard, e: Event)
    requires Inv(opening, y) && Enabled(e) && Fits(y, e)
    ensures forall t :: t in y.tickets && y.tickets[t].reversed ==>
              t in Step(y, e).tickets && Step(y, e).tickets[t].reversed && !HasTrip(Step(y, e).trips, t)
    ensures forall t :: HasTrip(y.trips, t) ==>
              HasTrip(Step(y, e).trips, t) && t in Step(y, e).tickets && !Step(y, e).tickets[t].reversed
    ensures forall k: nat, j: nat :: Used(y.trips, k, j) ==> Used(Step(y, e).trips, k, j)
    ensures y.stock.rows <= Step(y, e).stock.rows
  {
    StepKeeps(opening, y, e);
    TripsStay(y, e);
    ReversalStays(y, e);
    var y' := Step(y, e);
    assert DrumsClosed(y);
    hide Step, Repaid, Conserves, AllInBounds, UniqueKeys, DrumsOK, DrumsClosed, RowsOwned, Paired, Used;
    forall t | HasTrip(y.trips, t)
      ensures HasTrip(y'.trips, t) && t in y'.tickets && !y'.tickets[t].reversed
    {
      var k :| 0 <= k < |y.trips| && y.trips[k].ticketId == t;
      assert y'.trips[k].ticketId == t && TripOK(y', k);
    }
  }

  lemma TripsStay(y: Yard, e: Event)
    requires Enabled(e)
    ensures var y' := Step(y, e);
            && |y.trips| <= |y'.trips|
            && (forall k :: 0 <= k < |y.trips| ==> y'.trips[k].ticketId == y.trips[k].ticketId)
            && (forall k: nat, j: nat :: DrumsClosed(y) && Used(y.trips, k, j) ==> Used(y'.trips, k, j))
  {
    hide PostAll, PostCredits, CompletionRows, LastClosed, HasTrip, TruckOut;
  }

  /** A trip still under way has brought nothing back. */
  ghost predicate DrumsClosed(y: Yard) {
    forall k :: 0 <= k < |y.trips| && y.trips[k].drum.Some? ==> y.trips[k].closed
  }

  lemma ReversalStays(y: Yard, e: Event)
    requires Enabled(e)
    ensures forall t :: t in y.tickets && y.tickets[t].reversed ==> t in Step(y, e).tickets && Step(y, e).tickets[t].reversed
  {
    hide PostAll, PostCredits, CompletionRows, AvailableReclaim;
  }

  lemma {:induction false} QuantityOfRow(rows: seq<Row>, key: Key)
    requires HasRow(rows, key)
    ensures exists i :: 0 <= i < |rows| && rows[i] == Row(key, QuantityOf(rows, key))
  {
    if rows[0].key == key {
      assert rows[0] == Row(key, QuantityOf(rows, key));
    } else {
      var i :| 0 <= i < |rows| && rows[i].key == key;
      assert rows[1..][i - 1].key == key;
      QuantityOfRow(rows[1..], key);
      var j :| 0 <= j < |rows[1..]| && rows[1..][j] == Row(key, QuantityOf(rows[1..], key));
      assert rows[j + 1] == Row(key, QuantityOf(rows, key));
    }
  }
}
