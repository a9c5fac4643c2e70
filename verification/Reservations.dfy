/**
 Reservations, the tickets released against them and the credit decision on
 both. Every operation takes the reservation's row lock first, and a credit
 decision the customer's, so each one is a single step.
 */
module Reservations {
  import opened Wrappers
  import opened Numbers

  datatype Status = Requested | Confirmed | OnHold | InProduction | Delivered | Cancelled

  /** What a final approval was given for. */
  datatype Terms = Terms(project: nat, site: nat, mix: nat, volume: real)

  datatype Reservation = Reservation(terms: Terms, status: Status, initial: bool, final: Option<Terms>, closedEarly: bool)

  datatype TicketStatus = Open | Complete | Void

  /**
   `delivered` is what the trip recorded at its close, less what quality took off
   since; `memo` is the volume of a rejection quality has yet to decide on.
   */
  datatype Ticket = Ticket(reservation: nat, mix: nat, station: nat, volume: real, status: TicketStatus, reversed: bool,
                           delivered: Option<real>, memo: Option<real>)

  datatype Station = Station(site: nat, taxPct: real, currency: nat, active: bool)

  /** An issued invoice, with what was paid on it and what credit notes took off it. */
  datatype Invoice = Invoice(customer: nat, total: real, paid: real, credited: real, currency: nat)

  /** Rows by position; `customerOf` and `prices` are the project table and the price lists. */
  datatype World = World(reservations: seq<Reservation>, tickets: seq<Ticket>, stations: seq<Station>, invoices: seq<Invoice>,
                         customerOf: map<nat, nat>, prices: map<(nat, nat), real>, limits: map<nat, real>)

  function Accepted(t: Ticket): real {
    if t.delivered.Some? then t.delivered.value else t.volume
  }

  /** sumAcceptedVolumeM3 over the reservation's tickets that are not cancelled. */
  function Released(tickets: seq<Ticket>, r: nat): real {
    if tickets == [] then 0.0
    else
      var t := tickets[|tickets| - 1];
      Released(tickets[..|tickets| - 1], r) + (if t.reservation == r && t.status != Void then Accepted(t) else 0.0)
  }

  function Remaining(w: World, r: nat): real
    requires r < |w.reservations|
  {
    Max(0.0, w.reservations[r].terms.volume - Released(w.tickets, r))
  }

  method SumAcceptedVolume(tickets: seq<Ticket>, r: nat) returns (sum: real)
    ensures sum == Released(tickets, r)
  {
    sum := 0.0;
    for i := 0 to |tickets|
      invariant sum == Released(tickets[..i], r)
    {
      assert tickets[..i + 1][..i] == tickets[..i];
      if tickets[i].reservation == r && tickets[i].status != Void { sum := sum + Accepted(tickets[i]); }
    }
    assert tickets[..|tickets|] == tickets;
  }

  // ---- Edit, hold, approve, release, cancel, close ----------------------------------------

  datatype Result =
    | OK
    | NotFound
    | InvalidInput
    | InvalidState
    | Terminal
    | StatusNotAllowed
    | NoPriceOnFile
    | BelowReleased
    | FrozenAfterRelease
    | CreditHold
    | NoRemainingVolume
    | StorageNotConfigured
    | HasReleasedVolume

  /** null is an administrator, who is everywhere in scope. */
  predicate InScope(site: nat, allowed: Option<nat>) {
    allowed.None? || allowed.value == site
  }

  predicate EditMaySet(current: Status, next: Status) {
    next == current || ((current == Requested || current == Confirmed) && next == OnHold)
  }

  function SetReservation(w: World, r: nat, reservation: Reservation): World
    requires r < |w.reservations|
  {
    w.(reservations := w.reservations[r := reservation])
  }

  predicate SameIdentity(a: Terms, b: Terms) {
    a.project == b.project && a.mix == b.mix && a.site == b.site
  }

  function EditStep(w: World, r: nat, input: Terms, next: Option<Status>, allowed: Option<nat>): (World, Result) {
    if input.volume <= 0.0 then (w, InvalidInput)
    else if !InScope(input.site, allowed) then (w, NotFound)
    else if r >= |w.reservations| || !InScope(w.reservations[r].terms.site, allowed) then (w, NotFound)
    else
      var was := w.reservations[r];
      var status := if next.Some? then next.value else was.status;
      if was.status == Cancelled then (w, Terminal)
      else if !EditMaySet(was.status, status) then (w, StatusNotAllowed)
      else if input.project !in w.customerOf then (w, InvalidInput)
      else
        var samePair := was.terms.mix == input.mix && was.terms.project in w.customerOf
                        && w.customerOf[was.terms.project] == w.customerOf[input.project];
        var released := Released(w.tickets, r);
        var identityChanged := !SameIdentity(input, was.terms);
        if !samePair && (w.customerOf[input.project], input.mix) !in w.prices then (w, NoPriceOnFile)
        else if input.volume < released then (w, BelowReleased)
        else if released > 0.0 && identityChanged then (w, FrozenAfterRelease)
        else
          var invalidated := (identityChanged || input.volume != was.terms.volume) && (was.initial || was.final.Some?);
          var placingHold := status == OnHold && was.status != OnHold;
          (SetReservation(w, r, Reservation(input, status, was.initial && !invalidated,
                                            if invalidated || placingHold then None else was.final, was.closedEarly)), OK)
  }

  /** `withinLimit` is what the credit decision said; nothing where the customer is not on file. */
  function ApproveFinalStep(w: World, r: nat, allowed: Option<nat>, withinLimit: bool): (World, Result) {
    if r >= |w.reservations| || !InScope(w.reservations[r].terms.site, allowed) then (w, NotFound)
    else
      var was := w.reservations[r];
      if !was.initial || was.final.Some? || was.status == Delivered || was.status == Cancelled then (w, InvalidState)
      else if !withinLimit then (w, CreditHold)
      else
        var status := if was.status == OnHold || was.status == Requested then Confirmed else was.status;
        (SetReservation(w, r, was.(final := Some(was.terms), status := status)), OK)
  }

  function ReleaseStep(w: World, r: nat, requested: real, station: nat, allowed: Option<nat>, withinLimit: bool, storageConfigured: bool): (World, Result) {
    if r >= |w.reservations| || !InScope(w.reservations[r].terms.site, allowed) then (w, NotFound)
    else
      var was := w.reservations[r];
      if !(was.initial && was.final.Some?) || !(was.status == Confirmed || was.status == InProduction) then (w, InvalidState)
      else if !withinLimit then (w, CreditHold)
      else if station >= |w.stations| then (w, NotFound)
      else if w.stations[station].site != was.terms.site || !w.stations[station].active then (w, InvalidState)
      else
        var volume := Min(requested, Remaining(w, r));
        if volume <= 0.0 then (w, NoRemainingVolume)
        else if !storageConfigured then (w, StorageNotConfigured)
        else
          var ticket := Ticket(r, was.terms.mix, station, volume, Open, false, None, None);
          (SetReservation(w, r, was.(status := InProduction)).(tickets := w.tickets + [ticket]), OK)
  }

  predicate HasTicket(tickets: seq<Ticket>, r: nat) {
    exists i :: 0 <= i < |tickets| && tickets[i].reservation == r && tickets[i].status != Void
  }

  function CancelStep(w: World, r: nat, allowed: Option<nat>): (World, Result) {
    if r >= |w.reservations| || !InScope(w.reservations[r].terms.site, allowed) then (w, NotFound)
    else
      var was := w.reservations[r];
      if was.status == Delivered || was.status == Cancelled then (w, InvalidState)
      else if HasTicket(w.tickets, r) then (w, HasReleasedVolume)
      else (SetReservation(w, r, was.(status := Cancelled)), OK)
  }

  function CloseStep(w: World, r: nat, allowed: Option<nat>): (World, Result) {
    if r >= |w.reservations| || !InScope(w.reservations[r].terms.site, allowed) then (w, NotFound)
    else
      var was := w.reservations[r];
      if was.status == Delivered || was.status == Cancelled then (w, InvalidState)
      else (SetReservation(w, r, was.(status := Delivered, closedEarly := true)), OK)
  }

  const VOLUME_EPSILON: real := 0.01

  predicate AllTripsClosed(tickets: seq<Ticket>, r: nat) {
    forall i :: 0 <= i < |tickets| && tickets[i].reservation == r && tickets[i].status != Void ==> tickets[i].delivered.Some?
  }

  predicate FullyDelivered(w: World, r: nat)
    requires r < |w.reservations|
  {
    Released(w.tickets, r) >= w.reservations[r].terms.volume - VOLUME_EPSILON && AllTripsClosed(w.tickets, r)
  }

  predicate HasPendingMemo(tickets: seq<Ticket>, r: nat) {
    exists i :: 0 <= i < |tickets| && tickets[i].reservation == r && tickets[i].memo.Some?
  }

  /** Everything requested has arrived, and quality has nothing left to decide. */
  predicate IsDone(w: World, r: nat)
    requires r < |w.reservations|
  {
    !HasPendingMemo(w.tickets, r) && FullyDelivered(w, r)
  }

  /** What follows the close of a trip and the decision on a memo, in the same transaction. */
  function Reconciled(w: World, r: nat): World {
    if r >= |w.reservations| || w.reservations[r].status == Cancelled then w
    else
      var was := w.reservations[r];
      if IsDone(w, r) then SetReservation(w, r, was.(status := Delivered))
      else if was.status == Delivered && !was.closedEarly then SetReservation(w, r, was.(status := InProduction))
      else w
  }

  function SetTicket(w: World, i: nat, t: Ticket): World
    requires i < |w.tickets|
  {
    w.(tickets := w.tickets[i := t])
  }

  /** A trip closes as fully delivered; a volume the site rejected on quality grounds waits for a decision. */
  function TripClosed(t: Ticket, rejected: Option<real>): Option<Ticket> {
    if t.status != Complete || t.reversed || t.delivered.Some? then None
    else if rejected.Some? && !(0.0 < rejected.value <= t.volume) then None
    else Some(t.(delivered := Some(t.volume), memo := rejected))
  }

  function MemoDecided(t: Ticket, approve: bool): Option<Ticket> {
    if t.memo.None? then None
    else Some(t.(delivered := if approve then Some(Max(0.0, Accepted(t) - t.memo.value)) else t.delivered, memo := None))
  }

  /** The ticket's own change, if there is one, and then its reservation's. */
  function TripStep(w: World, i: nat, t: Option<Ticket>): World
    requires t.Some? ==> i < |w.tickets|
  {
    if t.None? then w else Reconciled(SetTicket(w, i, t.value), t.value.reservation)
  }

  /** A booking from the office, or (`walkIn`) one the yard signs off itself. */
  function BookStep(w: World, terms: Terms, walkIn: bool, withinLimit: bool): (World, Result) {
    if terms.volume <= 0.0 then (w, InvalidInput)
    else if terms.project !in w.customerOf then (w, NotFound)
    else
      var reservation := Reservation(terms, if withinLimit then Confirmed else OnHold, walkIn,
                                     if walkIn && withinLimit then Some(terms) else None, false);
      (w.(reservations := w.reservations + [reservation]), OK)
  }

  // ---- Runs -----------------------------------------------------------------------------

  /** The steps of the tickets themselves only ever lower what is accepted. */
  datatype Event =
    | Book(terms: Terms, walkIn: bool)
    | ApproveInitial(r: nat)
    | Edit(r: nat, input: Terms, next: Option<Status>, allowed: Option<nat>)
    | ApproveFinal(r: nat, allowed: Option<nat>)
    | Release(r: nat, requested: real, station: nat, allowed: Option<nat>, storageConfigured: bool)
    | Cancel(r: nat, allowed: Option<nat>)
    | Close(r: nat, allowed: Option<nat>)
    | CompleteTicket(i: nat)
    | CancelTicket(i: nat)
    | ReverseTicket(i: nat)
    | CloseTrip(i: nat, rejected: Option<real>)
    | DecideMemo(i: nat, approve: bool)

  /** The ticket as a trip's event leaves it; none where the event does nothing. */
  function AfterTrip(w: World, e: Event): (t: Option<Ticket>)
    ensures t.Some? ==> (e.CloseTrip? || e.DecideMemo?) && e.i < |w.tickets|
  {
    match e
    case CloseTrip(i, rejected) => if i < |w.tickets| then TripClosed(w.tickets[i], rejected) else None
    case DecideMemo(i, approve) => if i < |w.tickets| then MemoDecided(w.tickets[i], approve) else None
    case _ => None
  }

  /** One operation; `withinLimit` is what the credit decision says to those that ask for one. */
  function Step(w: World, e: Event, withinLimit: bool): World {
    match e
    case Book(terms, walkIn) => BookStep(w, terms, walkIn, withinLimit).0
    case ApproveInitial(r) => if r < |w.reservations| then SetReservation(w, r, w.reservations[r].(initial := true)) else w
    case Edit(r, input, next, allowed) => EditStep(w, r, input, next, allowed).0
    case ApproveFinal(r, allowed) => ApproveFinalStep(w, r, allowed, withinLimit).0
    case Release(r, requested, station, allowed, configured) => ReleaseStep(w, r, requested, station, allowed, withinLimit, configured).0
    case Cancel(r, allowed) => CancelStep(w, r, allowed).0
    case Close(r, allowed) => CloseStep(w, r, allowed).0
    case CompleteTicket(i) => if i < |w.tickets| && w.tickets[i].status == Open then SetTicket(w, i, w.tickets[i].(status := Complete)) else w
    case CancelTicket(i) => if i < |w.tickets| && w.tickets[i].status == Open then SetTicket(w, i, w.tickets[i].(status := Void)) else w
    case ReverseTicket(i) =>
      if i < |w.tickets| && w.tickets[i].status == Complete && w.tickets[i].delivered.None? then SetTicket(w, i, w.tickets[i].(reversed := true)) else w
    case CloseTrip(i, _) => TripStep(w, i, AfterTrip(w, e))
    case DecideMemo(i, _) => TripStep(w, i, AfterTrip(w, e))
  }

  /** A run under any credit decisions at all. */
  function Run(w: World, es: seq<Event>, decisions: seq<bool>): World
    requires |decisions| == |es|
    decreases |es|
  {
    if es == [] then w else Run(Step(w, es[0], decisions[0]), es[1..], decisions[1..])
  }

  // ---- The invariant ---------------------------------------------------------------------

  ghost predicate TicketsOK(w: World) {
    forall i :: 0 <= i < |w.tickets| ==>
      w.tickets[i].reservation < |w.reservations| && w.tickets[i].station < |w.stations| && 0.0 <= Accepted(w.tickets[i])
      && (w.tickets[i].reversed || w.tickets[i].delivered.Some? ==> w.tickets[i].status == Complete)
      && !(w.tickets[i].reversed && w.tickets[i].delivered.Some?)
      && (w.tickets[i].memo.Some? ==> w.tickets[i].delivered.Some? && w.tickets[i].memo.value > 0.0)
  }

  ghost predicate ReservationOK(w: World, r: nat)
    requires r < |w.reservations|
  {
    var res := w.reservations[r];
    && Released(w.tickets, r) <= res.terms.volume
    && (res.final.Some? ==> res.final.value == res.terms && res.initial && res.status != Requested && res.status != OnHold)
  }

  /** What was loaded for a reservation was loaded to its mix, and at one of its site's stations. */
  ghost predicate LoadsMatch(w: World) {
    forall i :: 0 <= i < |w.tickets| && w.tickets[i].status != Void && Accepted(w.tickets[i]) > 0.0
                && w.tickets[i].reservation < |w.reservations| && w.tickets[i].station < |w.stations| ==>
      var terms := w.reservations[w.tickets[i].reservation].terms;
      w.tickets[i].mix == terms.mix && w.stations[w.tickets[i].station].site == terms.site
  }

  ghost predicate Inv(w: World) {
    TicketsOK(w) && LoadsMatch(w) && forall r :: 0 <= r < |w.reservations| ==> ReservationOK(w, r)
  }

  lemma {:induction false} ReleasedNonNegative(tickets: seq<Ticket>, r: nat)
    requires forall i :: 0 <= i < |tickets| ==> 0.0 <= Accepted(tickets[i])
    ensures 0.0 <= Released(tickets, r)
    ensures Released(tickets, r) <= 0.0 ==>
              forall i :: 0 <= i < |tickets| && tickets[i].reservation == r && tickets[i].status != Void ==> Accepted(tickets[i]) == 0.0
  {
    if tickets != [] {
      var before := tickets[..|tickets| - 1];
      assert forall i :: 0 <= i < |before| ==> before[i] == tickets[i];
      ReleasedNonNegative(before, r);
    }
  }

  function Share(t: Ticket, r: nat): real {
    if t.reservation == r && t.status != Void then Accepted(t) else 0.0
  }

  /** Changing one ticket moves the sum by that ticket's own change. */
  lemma {:induction false} ReleasedUpdated(tickets: seq<Ticket>, i: nat, t: Ticket, r: nat)
    requires i < |tickets|
    ensures Released(tickets[i := t], r) == Released(tickets, r) - Share(tickets[i], r) + Share(t, r)
  {
    var n := |tickets| - 1;
    if i == n {
      assert tickets[i := t][..n] == tickets[..n];
    } else {
      assert tickets[i := t][..n] == tickets[..n][i := t];
      ReleasedUpdated(tickets[..n], i, t, r);
    }
  }

  lemma ReleasedExtended(tickets: seq<Ticket>, t: Ticket, r: nat)
    ensures Released(tickets + [t], r) == Released(tickets, r) + Share(t, r)
  {
    assert (tickets + [t])[..|tickets|] == tickets;
  }

  /** A reservation nobody released against. */
  lemma {:induction false} NothingReleased(tickets: seq<Ticket>, r: nat)
    requires forall i :: 0 <= i < |tickets| ==> tickets[i].reservation != r
    ensures Released(tickets, r) == 0.0
  {
    if tickets != [] { NothingReleased(tickets[..|tickets| - 1], r); }
  }

  lemma TicketStepKeeps(w: World, i: nat, t: Ticket)
    requires Inv(w) && i < |w.tickets|
    requires t.reservation == w.tickets[i].reservation && t.mix == w.tickets[i].mix && t.station == w.tickets[i].station
    requires 0.0 <= Accepted(t) <= Accepted(w.tickets[i]) && (w.tickets[i].status == Void ==> t.status == Void)
    requires t.reversed || t.delivered.Some? ==> t.status == Complete
    requires !(t.reversed && t.delivered.Some?) && (t.memo.Some? ==> t.delivered.Some? && t.memo.value > 0.0)
    ensures Inv(SetTicket(w, i, t))
  {
    var w' := SetTicket(w, i, t);
    forall r | 0 <= r < |w'.reservations| ensures ReservationOK(w', r) {
      assert ReservationOK(w, r);
      ReleasedUpdated(w.tickets, i, t, r);
    }
  }

  /** A row whose terms stay put, or that nothing counts against. */
  lemma ReservationStepKeeps(w: World, r: nat, res: Reservation)
    requires Inv(w) && r < |w.reservations|
    requires Released(w.tickets, r) <= res.terms.volume
    requires SameIdentity(res.terms, w.reservations[r].terms) || Released(w.tickets, r) <= 0.0
    requires res.final.Some? ==> res.final.value == res.terms && res.initial && res.status != Requested && res.status != OnHold
    ensures Inv(SetReservation(w, r, res))
  {
    ReleasedNonNegative(w.tickets, r);
    var w' := SetReservation(w, r, res);
    forall q | 0 <= q < |w'.reservations| ensures ReservationOK(w', q) { assert ReservationOK(w, q); }
  }

  lemma StepKeeps(w: World, e: Event, withinLimit: bool)
    requires Inv(w)
    ensures Inv(Step(w, e, withinLimit))
  {
    hide Released, TicketsOK, LoadsMatch;
    var w' := Step(w, e, withinLimit);
    match e
    case Book(terms, walkIn) => BookKeeps(w, terms, walkIn, withinLimit);
    case Release(r, requested, station, allowed, configured) => ReleaseKeeps(w, e, withinLimit);
    case CompleteTicket(i) => TicketEventKeeps(w, e, withinLimit);
    case CancelTicket(i) => TicketEventKeeps(w, e, withinLimit);
    case ReverseTicket(i) => TicketEventKeeps(w, e, withinLimit);
    case CloseTrip(i, rejected) => TripEventKeeps(w, e, withinLimit);
    case DecideMemo(i, approve) => TripEventKeeps(w, e, withinLimit);
    case _ =>
      if w' != w {
        assert ReservationOK(w, e.r);
        ReservationStepKeeps(w, e.r, w'.reservations[e.r]);
      }
  }

  lemma TicketEventKeeps(w: World, e: Event, withinLimit: bool)
    requires Inv(w) && (e.CompleteTicket? || e.CancelTicket? || e.ReverseTicket?)
    ensures Inv(Step(w, e, withinLimit))
  {
    var w' := Step(w, e, withinLimit);
    if w' != w { TicketStepKeeps(w, e.i, w'.tickets[e.i]); }
  }

  /** What a trip's event does: its ticket, then the reservation of that ticket. */
  lemma TripEventIs(w: World, e: Event, withinLimit: bool)
    requires Inv(w) && (e.CloseTrip? || e.DecideMemo?)
    ensures AfterTrip(w, e).None? ==> Step(w, e, withinLimit) == w
    ensures AfterTrip(w, e).Some? ==>
              var t := AfterTrip(w, e).value;
              && e.i < |w.tickets|
              && var was := w.tickets[e.i];
              && Step(w, e, withinLimit) == Reconciled(SetTicket(w, e.i, t), t.reservation)
              && t == was.(delivered := t.delivered, memo := t.memo) && t.status == Complete && !t.reversed
              && 0.0 <= Accepted(t) <= Accepted(was) && t.delivered.Some? && (t.memo.Some? ==> t.memo.value > 0.0)
              && (was.delivered.None? || was.memo.Some?)
              && Inv(SetTicket(w, e.i, t))
  {
    hide Released, Reconciled, LoadsMatch;
    if AfterTrip(w, e).Some? { TicketStepKeeps(w, e.i, AfterTrip(w, e).value); }
  }

  lemma TripEventKeeps(w: World, e: Event, withinLimit: bool)
    requires Inv(w) && (e.CloseTrip? || e.DecideMemo?)
    ensures Inv(Step(w, e, withinLimit))
  {
    TripEventIs(w, e, withinLimit);
    if AfterTrip(w, e).Some? {
      hide Step, AfterTrip;
      var t := AfterTrip(w, e).value;
      ReconciledKeeps(SetTicket(w, e.i, t), t.reservation);
    }
  }

  lemma ReconciledKeeps(w: World, r: nat)
    requires Inv(w)
    ensures Inv(Reconciled(w, r))
  {
    hide Released, IsDone, TicketsOK, LoadsMatch;
    var w' := Reconciled(w, r);
    if w' != w {
      assert ReservationOK(w, r);
      ReservationStepKeeps(w, r, w'.reservations[r]);
    }
  }

  lemma BookKeeps(w: World, terms: Terms, walkIn: bool, withinLimit: bool)
    requires Inv(w)
    ensures Inv(BookStep(w, terms, walkIn, withinLimit).0)
  {
    var w' := BookStep(w, terms, walkIn, withinLimit).0;
    if w' != w {
      NothingReleased(w.tickets, |w.reservations|);
      forall q | 0 <= q < |w'.reservations| ensures ReservationOK(w', q) {
        if q < |w.reservations| { assert ReservationOK(w, q); }
      }
    }
  }

  lemma ReleaseKeeps(w: World, e: Event, withinLimit: bool)
    requires Inv(w) && e.Release?
    ensures Inv(Step(w, e, withinLimit))
  {
    var w', r := Step(w, e, withinLimit), e.r;
    if w' != w {
      var t := w'.tickets[|w.tickets|];
      assert w'.tickets == w.tickets + [t];
      forall q | 0 <= q < |w'.reservations| ensures ReservationOK(w', q) {
        assert ReservationOK(w, q);
        ReleasedExtended(w.tickets, t, q);
      }
    }
  }

  lemma {:induction false} RunKeeps(w: World, es: seq<Event>, decisions: seq<bool>)
    requires Inv(w) && |decisions| == |es|
    ensures Inv(Run(w, es, decisions))
    decreases |es|
  {
    if es != [] {
      StepKeeps(w, es[0], decisions[0]);
      RunKeeps(Step(w, es[0], decisions[0]), es[1..], decisions[1..]);
    }
  }

  /** Tables as they are before the first booking. */
  predicate Start(w: World) {
    w.reservations == [] && w.tickets == []
  }

  /** No booking that counts as delivered of itself has a trip under way or a rejection undecided. */
  ghost predicate Settled(w: World) {
    forall r :: 0 <= r < |w.reservations| && w.reservations[r].status == Delivered && !w.reservations[r].closedEarly ==> SettledAt(w, r)
  }

  predicate SettledAt(w: World, r: nat) {
    AllTripsClosed(w.tickets, r) && !HasPendingMemo(w.tickets, r)
  }

  /** The reservation whose delivery a trip's event may settle. */
  predicate SettlesTrip(w: World, e: Event, r: nat) {
    (e.CloseTrip? || e.DecideMemo?) && e.i < |w.tickets| && w.tickets[e.i].reservation == r
  }

  lemma TripStepSettles(w: World, e: Event, withinLimit: bool)
    requires Inv(w) && Settled(w) && (e.CloseTrip? || e.DecideMemo?)
    ensures Settled(Step(w, e, withinLimit)) && DeliveredStay(w, Step(w, e, withinLimit))
  {
    TripEventIs(w, e, withinLimit);
    if AfterTrip(w, e).Some? {
      hide Step, AfterTrip, FullyDelivered, Inv;
      var t := AfterTrip(w, e).value;
      var was, w1 := w.tickets[e.i], SetTicket(w, e.i, t);
      assert was.status == Complete && (was.delivered.None? || was.memo.Some?);
      assert !SettledAt(w, t.reservation);
      forall q | q != t.reservation && SettledAt(w, q) ensures SettledAt(w1, q) {}
      if IsDone(w1, t.reservation) { Finished(w1, t.reservation); }
    }
  }

  lemma Finished(w: World, r: nat)
    requires r < |w.reservations| && IsDone(w, r)
    ensures SettledAt(w, r)
  {}

  /** Delivered is for good. */
  predicate DeliveredStay(w: World, w': World) {
    |w.reservations| <= |w'.reservations|
    && forall r :: 0 <= r < |w.reservations| && w.reservations[r].status == Delivered ==> w'.reservations[r].status == Delivered
  }

  lemma StepSettles(w: World, e: Event, withinLimit: bool)
    requires Inv(w) && Settled(w)
    ensures Settled(Step(w, e, withinLimit)) && DeliveredStay(w, Step(w, e, withinLimit))
  {
    if e.CloseTrip? || e.DecideMemo? {
      TripStepSettles(w, e, withinLimit);
    } else {
      hide Released, FullyDelivered, Inv, SettledAt, IsDone, HasTicket;
      var w' := Step(w, e, withinLimit);
      forall r | 0 <= r < |w.reservations| && SettledAt(w, r) && w.reservations[r].status == Delivered ensures SettledAt(w', r) {
        StaysSettled(w, e, withinLimit, r);
      }
    }
  }

  lemma StaysSettled(w: World, e: Event, withinLimit: bool, r: nat)
    requires r < |w.reservations| && w.reservations[r].status == Delivered && SettledAt(w, r) && !e.CloseTrip? && !e.DecideMemo?
    ensures SettledAt(Step(w, e, withinLimit), r)
  {
    hide Released, FullyDelivered, IsDone, HasTicket;
  }

  // ---- Main results ----------------------------------------------------------------------

  /**
   The reopening of a delivered booking is never needed: once trips are closed and
   memos decided before a booking is settled, as every operation here does, a
   delivered booking stays delivered in every run.
   */
  lemma {:induction false} DeliveredIsFinal(w: World, es: seq<Event>, decisions: seq<bool>)
    requires Inv(w) && Settled(w) && |decisions| == |es|
    ensures Settled(Run(w, es, decisions)) && DeliveredStay(w, Run(w, es, decisions))
    decreases |es|
  {
    hide Inv, Settled, Step;
    if es != [] {
      StepSettles(w, es[0], decisions[0]);
      StepKeeps(w, es[0], decisions[0]);
      DeliveredIsFinal(Step(w, es[0], decisions[0]), es[1..], decisions[1..]);
    }
  }

  predicate ApprovalPasses(es: seq<Event>, decisions: seq<bool>, r: nat)
    requires |decisions| == |es|
  {
    exists k :: 0 <= k < |es| && es[k].ApproveFinal? && es[k].r == r && decisions[k]
  }

  /**
   A hold stops releases until a final approval passes: without one, in any run
   and whatever else is done to the reservation, no ticket is added for it.
   */
  lemma {:induction false} HoldStopsReleases(w: World, es: seq<Event>, decisions: seq<bool>, r: nat)
    requires |decisions| == |es| && r < |w.reservations| && w.reservations[r].final == None && !ApprovalPasses(es, decisions, r)
    ensures var end := Run(w, es, decisions);
            && r < |end.reservations| && end.reservations[r].final == None && |w.tickets| <= |end.tickets|
            && forall i :: |w.tickets| <= i < |end.tickets| ==> end.tickets[i].reservation != r
    decreases |es|
  {
    hide Step;
    if es != [] {
      var rest, later := es[1..], decisions[1..];
      assert forall k :: 0 <= k < |rest| ==> rest[k] == es[k + 1] && later[k] == decisions[k + 1];
      StepUnapproved(w, es[0], decisions[0], r);
      var w1 := Step(w, es[0], decisions[0]);
      HoldStopsReleases(w1, rest, later, r);
      TicketsKeepReservation(w1, rest, later);
    }
  }

  lemma StepUnapproved(w: World, e: Event, withinLimit: bool, r: nat)
    requires r < |w.reservations| && w.reservations[r].final == None && !(e.ApproveFinal? && e.r == r && withinLimit)
    ensures var w' := Step(w, e, withinLimit);
            && r < |w'.reservations| && w'.reservations[r].final == None && |w.tickets| <= |w'.tickets|
            && forall i :: |w.tickets| <= i < |w'.tickets| ==> w'.tickets[i].reservation != r
  {
    hide Released, HasTicket, IsDone;
    if e.CloseTrip? || e.DecideMemo? {
      hide Step;
      TripLeavesApproval(w, e, withinLimit, r);
    } else {
      hide Reconciled, AfterTrip;
      if e.Release? { hide BookStep, EditStep, ApproveFinalStep, CancelStep, CloseStep; } else { hide ReleaseStep; }
    }
  }

  lemma TripLeavesApproval(w: World, e: Event, withinLimit: bool, r: nat)
    requires (e.CloseTrip? || e.DecideMemo?) && r < |w.reservations|
    ensures var w' := Step(w, e, withinLimit);
            && |w'.reservations| == |w.reservations| && w'.reservations[r].final == w.reservations[r].final && |w'.tickets| == |w.tickets|
  {
    hide IsDone, AfterTrip;
  }

  lemma {:induction false} TicketsKeepReservation(w: World, es: seq<Event>, decisions: seq<bool>)
    requires |decisions| == |es|
    ensures var end := Run(w, es, decisions);
            |w.tickets| <= |end.tickets| && forall i :: 0 <= i < |w.tickets| ==> end.tickets[i].reservation == w.tickets[i].reservation
    decreases |es|
  {
    hide Step;
    if es != [] {
      TicketKeepsReservation(w, es[0], decisions[0]);
      TicketsKeepReservation(Step(w, es[0], decisions[0]), es[1..], decisions[1..]);
    }
  }

  lemma TicketKeepsReservation(w: World, e: Event, withinLimit: bool)
    ensures var w' := Step(w, e, withinLimit);
            |w.tickets| <= |w'.tickets| && forall i :: 0 <= i < |w.tickets| ==> w'.tickets[i].reservation == w.tickets[i].reservation
  {
    hide Released, HasTicket, IsDone;
  }

  /**
   In every run: no more is accepted than was requested, a final approval in
   force is for exactly the project, site, mix and volume of the reservation now,
   and every load that still counts is of the reservation's mix, from its site.
   */
  lemma ReservationsHold(w: World, es: seq<Event>, decisions: seq<bool>, r: nat)
    requires Start(w) && |decisions| == |es| && r < |Run(w, es, decisions).reservations|
    ensures var end := Run(w, es, decisions);
            var res := end.reservations[r];
            && Released(end.tickets, r) <= res.terms.volume
            && (res.final.Some? ==> res.final.value == res.terms && res.status != Requested && res.status != OnHold)
            && forall i :: 0 <= i < |end.tickets| && Share(end.tickets[i], r) > 0.0 ==> end.tickets[i].mix == res.terms.mix
  {
    hide Released, Run;
    RunKeeps(w, es, decisions);
    var end := Run(w, es, decisions);
    assert ReservationOK(end, r);
  }

  /** Which operation may take a reservation from one status to another, and on what ground. */
  predicate MayMove(w: World, e: Event, withinLimit: bool, r: nat, to: Status)
    requires r < |w.reservations|
  {
    var res := w.reservations[r];
    match to
    case OnHold => (res.status == Requested || res.status == Confirmed) && e.Edit? && e.r == r
    case Confirmed => (res.status == Requested || res.status == OnHold) && e.ApproveFinal? && e.r == r && withinLimit && res.initial
    case InProduction =>
      || (res.status == Confirmed && e.Release? && e.r == r && withinLimit && res.final.Some?)
      || (res.status == Delivered && SettlesTrip(w, e, r) && !res.closedEarly)
    case Delivered => res.status != Cancelled && ((e.Close? && e.r == r) || SettlesTrip(w, e, r))
    case Cancelled => res.status != Delivered && e.Cancel? && e.r == r && !HasTicket(w.tickets, r)
    case Requested => false
  }

  /**
   Each status has its own way in. A held reservation is confirmed again by final
   approval alone, which asks for credit, though it may be closed, or settled as
   delivered, while held; what is cancelled stays so; delivered of itself means
   everything arrived and nothing is undecided; and only a hold, or a change of
   terms, takes a final approval away.
   */
  lemma StatusMoves(w: World, e: Event, withinLimit: bool, r: nat)
    requires r < |w.reservations|
    ensures var w' := Step(w, e, withinLimit);
            && r < |w'.reservations|
            && (w'.reservations[r].status != w.reservations[r].status ==> MayMove(w, e, withinLimit, r, w'.reservations[r].status))
            && (w.reservations[r].status != Delivered && w'.reservations[r].status == Delivered && !e.Close? ==> IsDone(w', r))
            && (w'.reservations[r].final != w.reservations[r].final ==>
                  || (e.ApproveFinal? && withinLimit && w'.reservations[r].final == Some(w.reservations[r].terms))
                  || (e.Edit? && w'.reservations[r].final == None
                      && (w'.reservations[r].terms != w.reservations[r].terms || w'.reservations[r].status == OnHold)))
  {
    hide Released, HasTicket, IsDone;
    if SettlesTrip(w, e, r) && AfterTrip(w, e).Some? { DoneStays(SetTicket(w, e.i, AfterTrip(w, e).value), Step(w, e, withinLimit), r); }
  }

  lemma DoneStays(w: World, w': World, r: nat)
    requires r < |w.reservations| && w'.tickets == w.tickets && r < |w'.reservations|
    requires w'.reservations[r].terms == w.reservations[r].terms
    ensures IsDone(w', r) <==> IsDone(w, r)
  {
    hide Released;
  }

  /** The customer's project, with no price needed for the pair of customer and mix it already had. */
  predicate MayBook(w: World, was: Terms, input: Terms) {
    && input.project in w.customerOf
    && ((was.mix == input.mix && was.project in w.customerOf && w.customerOf[was.project] == w.customerOf[input.project])
        || (w.customerOf[input.project], input.mix) in w.prices)
  }

  /**
   An edit is accepted exactly when everything it rests on holds, a hold only from
   REQUESTED or CONFIRMED. New terms withdraw both approvals, a hold the final one.
   */
  lemma EditsExactlyWhen(w: World, r: nat, input: Terms, next: Option<Status>, allowed: Option<nat>)
    ensures var (w', result) := EditStep(w, r, input, next, allowed);
            && (result == OK <==>
                  && r < |w.reservations| && input.volume > 0.0
                  && (allowed.None? || (allowed.value == input.site && allowed.value == w.reservations[r].terms.site))
                  && w.reservations[r].status != Cancelled
                  && (next.None? || next.value == w.reservations[r].status
                      || (next.value == OnHold && w.reservations[r].status in {Requested, Confirmed}))
                  && MayBook(w, w.reservations[r].terms, input)
                  && Released(w.tickets, r) <= input.volume
                  && (Released(w.tickets, r) > 0.0 ==>
                        input.project == w.reservations[r].terms.project && input.mix == w.reservations[r].terms.mix
                        && input.site == w.reservations[r].terms.site))
            && (result != OK ==> w' == w)
            && (result == OK ==>
                  && w' == SetReservation(w, r, w'.reservations[r])
                  && var (was, now) := (w.reservations[r], w'.reservations[r]);
                  && now.terms == input && now.closedEarly == was.closedEarly
                  && now.status == (if next.Some? then next.value else was.status)
                  && now.initial == (was.initial && input == was.terms)
                  && now.final == if input != was.terms || (now.status == OnHold && was.status != OnHold) then None else was.final)
  {
  }

  /** Final approval goes through exactly for an initially approved reservation that is still under way, in credit; it binds the terms as they are. */
  lemma ApprovesExactlyWhen(w: World, r: nat, allowed: Option<nat>, withinLimit: bool)
    ensures var (w', result) := ApproveFinalStep(w, r, allowed, withinLimit);
            && (result == OK <==>
                  && r < |w.reservations| && (allowed.None? || allowed.value == w.reservations[r].terms.site)
                  && w.reservations[r].initial && w.reservations[r].final.None? && withinLimit
                  && w.reservations[r].status in {Requested, Confirmed, OnHold, InProduction})
            && (result != OK ==> w' == w)
            && (result == OK ==>
                  w' == SetReservation(w, r, w.reservations[r].(final := Some(w.reservations[r].terms),
                                                                status := if w.reservations[r].status == InProduction then InProduction else Confirmed)))
  {
  }

  predicate UnderWay(w: World, r: nat, allowed: Option<nat>) {
    r < |w.reservations| && (allowed.None? || allowed.value == w.reservations[r].terms.site)
    && w.reservations[r].status in {Requested, Confirmed, OnHold, InProduction}
  }

  /** A reservation is cancelled exactly while under way and with no ticket that counts. */
  lemma CancelsExactlyWhen(w: World, r: nat, allowed: Option<nat>)
    ensures var (w', result) := CancelStep(w, r, allowed);
            && (result == OK <==>
                  UnderWay(w, r, allowed) && forall i :: 0 <= i < |w.tickets| && w.tickets[i].reservation == r ==> w.tickets[i].status == Void)
            && w' == if result == OK then SetReservation(w, r, w.reservations[r].(status := Cancelled)) else w
  {
  }

  /** A reservation is closed early exactly while under way. */
  lemma ClosesExactlyWhen(w: World, r: nat, allowed: Option<nat>)
    ensures var (w', result) := CloseStep(w, r, allowed);
            && (result == OK <==> UnderWay(w, r, allowed))
            && w' == if result == OK then SetReservation(w, r, w.reservations[r].(status := Delivered, closedEarly := true)) else w
  {
  }

  /** A booking lands for a known project with a volume: confirmed in credit, held otherwise, signed off by the yard alone for a walk-in. */
  lemma BooksExactlyWhen(w: World, terms: Terms, walkIn: bool, withinLimit: bool)
    ensures var (w', result) := BookStep(w, terms, walkIn, withinLimit);
            && (result == OK <==> terms.volume > 0.0 && terms.project in w.customerOf)
            && (result != OK ==> w' == w)
            && (result == OK ==>
                  && |w'.reservations| == |w.reservations| + 1 && w' == w.(reservations := w'.reservations) && w.reservations <= w'.reservations
                  && var now := w'.reservations[|w.reservations|];
                  && now.terms == terms && now.initial == walkIn && !now.closedEarly
                  && now.status == (if withinLimit then Confirmed else OnHold)
                  && now.final == (if walkIn && withinLimit then Some(terms) else None))
  {}

  /** A ticket is completed or cancelled while open, and taken back while completed and not delivered; initial approval is on the reservation alone. */
  lemma TicketsMoveExactlyWhen(w: World, i: nat, withinLimit: bool)
    ensures var ticket := if i < |w.tickets| then w.tickets[i] else Ticket(0, 0, 0, 0.0, Void, false, None, None);
            && Step(w, CompleteTicket(i), withinLimit) == (if ticket.status == Open then SetTicket(w, i, ticket.(status := Complete)) else w)
            && Step(w, CancelTicket(i), withinLimit) == (if ticket.status == Open then SetTicket(w, i, ticket.(status := Void)) else w)
            && Step(w, ReverseTicket(i), withinLimit)
               == (if ticket.status == Complete && ticket.delivered == None then SetTicket(w, i, ticket.(reversed := true)) else w)
            && Step(w, ApproveInitial(i), withinLimit)
               == (if i < |w.reservations| then SetReservation(w, i, w.reservations[i].(initial := true)) else w)
  {}

  /** Every load that counts has arrived, none has a rejection open, and together they come to what was asked for, give or take 0.01. */
  predicate Arrived(w: World, r: nat)
    requires r < |w.reservations|
  {
    && (forall i :: 0 <= i < |w.tickets| && w.tickets[i].reservation == r ==>
          w.tickets[i].memo.None? && (w.tickets[i].status != Void ==> w.tickets[i].delivered.Some?))
    && w.reservations[r].terms.volume <= Released(w.tickets, r) + 0.01
  }

  /** The end of a trip: the load counts in full until quality takes a rejected volume off; delivered is what has arrived, and what has not is reopened. */
  lemma TripsSettle(w: World, e: Event, withinLimit: bool)
    requires (e.CloseTrip? || e.DecideMemo?) && e.i < |w.tickets| && w.tickets[e.i].reservation < |w.reservations| && Step(w, e, withinLimit) != w
    ensures var (w', t) := (Step(w, e, withinLimit), w.tickets[e.i]);
            && |w'.tickets| == |w.tickets| && |w'.reservations| == |w.reservations|
            && var (t', r) := (w'.tickets[e.i], t.reservation);
            && w'.tickets == w.tickets[e.i := t'] && t' == t.(delivered := t'.delivered, memo := t'.memo)
            && (e.CloseTrip? ==> t.delivered.None? && t.status == Complete && !t.reversed && t'.delivered == Some(t.volume) && t'.memo == e.rejected)
            && (e.DecideMemo? ==> t.memo.Some? && t'.memo == None)
            && (e.DecideMemo? && !e.approve ==> t'.delivered == t.delivered)
            && (e.DecideMemo? && e.approve && t.delivered.Some? ==> t'.delivered == Some(Max(0.0, t.delivered.value - t.memo.value)))
            && (forall q :: 0 <= q < |w.reservations| && q != r ==> w'.reservations[q] == w.reservations[q])
            && w'.reservations[r] == w.reservations[r].(status :=
                 if w.reservations[r].status == Cancelled then Cancelled
                 else if Arrived(w', r) then Delivered
                 else if w.reservations[r].status == Delivered && !w.reservations[r].closedEarly then InProduction
                 else w.reservations[r].status)
  {
    hide Released, Reconciled, Arrived;
    var t, t' := w.tickets[e.i], AfterTrip(w, e).value;
    var w1 := SetTicket(w, e.i, t');
    assert Step(w, e, withinLimit) == Reconciled(w1, t.reservation);
    SettlesAsArrived(w1, t.reservation);
    hide Step;
    assert t' == t.(delivered := t'.delivered, memo := t'.memo);
  }

  lemma SettlesAsArrived(w: World, r: nat)
    requires r < |w.reservations|
    ensures var w' := Reconciled(w, r);
            && w' == w.(reservations := w'.reservations) && |w'.reservations| == |w.reservations|
            && (forall q :: 0 <= q < |w.reservations| && q != r ==> w'.reservations[q] == w.reservations[q])
            && w'.reservations[r] == w.reservations[r].(status :=
                 if w.reservations[r].status == Cancelled then Cancelled
                 else if Arrived(w', r) then Delivered
                 else if w.reservations[r].status == Delivered && !w.reservations[r].closedEarly then InProduction
                 else w.reservations[r].status)
  {
    hide Released;
    assert IsDone(w, r) <==> Arrived(w, r);
    ArrivedStays(w, Reconciled(w, r), r);
  }

  lemma ArrivedStays(w: World, w': World, r: nat)
    requires r < |w.reservations| && w' == Reconciled(w, r)
    ensures r < |w'.reservations| && (Arrived(w', r) <==> Arrived(w, r))
  {
    hide Released, IsDone;
  }

  /** A ticket is released exactly when everything it rests on holds, and takes what was asked or what is left. */
  lemma ReleasesExactlyWhen(w: World, r: nat, requested: real, station: nat, allowed: Option<nat>, withinLimit: bool, storageConfigured: bool)
    ensures var (w', result) := ReleaseStep(w, r, requested, station, allowed, withinLimit, storageConfigured);
            && (result == OK <==>
                  && r < |w.reservations| && InScope(w.reservations[r].terms.site, allowed)
                  && w.reservations[r].initial && w.reservations[r].final.Some?
                  && w.reservations[r].status in {Confirmed, InProduction}
                  && withinLimit && storageConfigured
                  && station < |w.stations| && w.stations[station].active && w.stations[station].site == w.reservations[r].terms.site
                  && requested > 0.0 && Remaining(w, r) > 0.0)
            && (result != OK ==> w' == w)
            && (result == OK ==>
                  && |w'.tickets| == |w.tickets| + 1 && w.tickets <= w'.tickets
                  && Remaining(w', r) == Max(0.0, Remaining(w, r) - requested)
                  && Released(w'.tickets, r) <= Max(w.reservations[r].terms.volume, Released(w.tickets, r)))
  {
    var (w', result) := ReleaseStep(w, r, requested, station, allowed, withinLimit, storageConfigured);
    if result == OK {
      var t := w'.tickets[|w.tickets|];
      assert w'.tickets == w.tickets + [t];
      ReleasedExtended(w.tickets, t, r);
    }
  }

  const Yard := World([], [], [Station(1, 0.0, 0, true)], [], map[1 := 7], map[(7, 10) := 5.0, (7, 20) := 5.0], map[])

  const Bought := Terms(1, 1, 10, 8.0)
  const Signed := Reservation(Bought, InProduction, true, Some(Bought), false)
  const Load := Ticket(0, 10, 0, 8.0, Open, false, None, None)

  lemma BookAndRelease()
    ensures Step(Step(Yard, Book(Bought, true), true), Release(0, 8.0, 0, None, true), true)
            == Yard.(reservations := [Signed], tickets := [Load])
  {
    var w1 := Step(Yard, Book(Bought, true), true);
    assert w1 == Yard.(reservations := [Signed.(status := Confirmed)]);
    assert Released([], 0) == 0.0;
    hide Released;
    var w2 := ReleaseStep(w1, 0, 8.0, 0, None, true, true).0;
    assert w2.reservations == [Signed] && w2.tickets == [Load];
  }

  lemma RejectAndRebook()
    ensures var w2 := Yard.(reservations := [Signed], tickets := [Load]);
            var w5 := Step(Step(Step(w2, CompleteTicket(0), true), CloseTrip(0, Some(8.0)), true), DecideMemo(0, true), true);
            var w6 := Step(w5, Edit(0, Terms(1, 1, 20, 8.0), None, None), true);
            && |w6.tickets| == 1 && w6.tickets[0].status == Complete && w6.tickets[0].mix == 10
            && |w6.reservations| == 1 && w6.reservations[0].terms.mix == 20
  {
    var w2 := Yard.(reservations := [Signed], tickets := [Load]);
    var complete := Load.(status := Complete);
    var closed := complete.(delivered := Some(8.0), memo := Some(8.0));
    var rejected := complete.(delivered := Some(0.0));
    var w3 := Step(w2, CompleteTicket(0), true);
    assert w3 == w2.(tickets := [complete]);
    var w4 := Step(w3, CloseTrip(0, Some(8.0)), true);
    assert HasPendingMemo([closed], 0) by { assert [closed][0].memo.Some?; }
    assert w4 == w2.(tickets := [closed]);
    var w5 := Step(w4, DecideMemo(0, true), true);
    assert [rejected][..0] == [] && Released([rejected], 0) == 0.0;
    assert w5 == w2.(tickets := [rejected]);
  }

  /** The limit of the last clause: once a load is rejected in full, the reservation's mix may change under its ticket. */
  lemma RejectedLoadKeepsOldMix()
    ensures var w2 := Step(Step(Yard, Book(Bought, true), true), Release(0, 8.0, 0, None, true), true);
            var w5 := Step(Step(Step(w2, CompleteTicket(0), true), CloseTrip(0, Some(8.0)), true), DecideMemo(0, true), true);
            var w6 := Step(w5, Edit(0, Terms(1, 1, 20, 8.0), None, None), true);
            && |w6.tickets| == 1 && w6.tickets[0].status == Complete && w6.tickets[0].mix == 10
            && |w6.reservations| == 1 && w6.reservations[0].terms.mix == 20
  {
    hide Step;
    BookAndRelease();
    RejectAndRebook();
  }
}
