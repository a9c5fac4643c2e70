/** Booking trucks, drivers, pumps and their crew for trips. A dispatch or a reassignment is one serializable transaction. */
module TripResources {
  import opened Wrappers

  datatype TripStatus = Loading | InTransit | OnSite | Discharging | Closed

  datatype Assignment = Assignment(truck: nat, driver: nat, pump: Option<nat>, operator: Option<nat>, assistant: Option<nat>)

  datatype Trip = Trip(ticket: nat, who: Assignment, status: TripStatus)

  datatype Truck = Truck(inService: bool, capacityM3: real, site: nat)
  datatype Driver = Driver(isDriver: bool, active: bool)
  datatype Pump = Pump(inService: bool, reachM: Option<real>, site: nat)
  datatype CrewRole = Operator | Helper
  datatype CrewMember = CrewMember(role: CrewRole, active: bool)

  /** `site` is the plant's, absent where the plant is gone. */
  datatype Ticket = Ticket(complete: bool, reversed: bool, site: Option<nat>, volumeM3: real, pumpDelivery: bool, minReachM: Option<real>)

  datatype Fleet = Fleet(trucks: map<nat, Truck>, drivers: map<nat, Driver>, pumps: map<nat, Pump>, crew: map<nat, CrewMember>)

  datatype Result =
    | OK
    | NotDispatchable | OutOfScope | NotFound | NotLoading | AlreadyDispatched
    | TruckNotFound | TruckOutOfService | TruckOutOfScope | TruckCapacityExceeded | TruckBusy
    | DriverNotFound | DriverInactive | DriverBusy
    | PumpRequired | PumpNotFound | PumpOutOfService | PumpOutOfScope | PumpInsufficientReach | PumpReachUnknown | PumpBusy
    | PumpOperatorRequired | PumpCrewSamePerson | PumpOperatorInvalid | PumpAssistantInvalid | CrewBusy

  function CrewOf(who: Assignment): set<nat> {
    (if who.operator.Some? then {who.operator.value} else {}) + (if who.assistant.Some? then {who.assistant.value} else {})
  }

  /** An open trip other than the one being reassigned. */
  predicate Other(trips: seq<Trip>, i: int, except: Option<nat>) {
    0 <= i < |trips| && trips[i].status != Closed && (except.Some? ==> i != except.value)
  }

  predicate TruckTaken(trips: seq<Trip>, truck: nat, except: Option<nat>) {
    exists i :: 0 <= i < |trips| && Other(trips, i, except) && trips[i].who.truck == truck
  }

  predicate DriverTaken(trips: seq<Trip>, driver: nat, except: Option<nat>) {
    exists i :: 0 <= i < |trips| && Other(trips, i, except) && trips[i].who.driver == driver
  }

  predicate PumpTaken(trips: seq<Trip>, pump: nat, except: Option<nat>) {
    exists i :: 0 <= i < |trips| && Other(trips, i, except) && trips[i].who.pump == Some(pump)
  }

  /** As operator or as assistant, of either of them. */
  predicate CrewTaken(trips: seq<Trip>, crew: set<nat>, except: Option<nat>) {
    exists i :: 0 <= i < |trips| && Other(trips, i, except) && CrewOf(trips[i].who) * crew != {}
  }

  /** claimTripSlot: whatever ids were passed are checked, pump delivery or not. */
  function ClaimSlot(trips: seq<Trip>, ticket: Ticket, who: Assignment, allowed: Option<nat>): Result {
    if !ticket.complete || ticket.reversed || ticket.site == None then NotDispatchable
    else if allowed.Some? && allowed != ticket.site then OutOfScope
    else if TruckTaken(trips, who.truck, None) then TruckBusy
    else if who.pump.Some? && PumpTaken(trips, who.pump.value, None) then PumpBusy
    else if CrewOf(who) != {} && CrewTaken(trips, CrewOf(who), None) then CrewBusy
    else OK
  }

  function ClaimPump(fleet: Fleet, trips: seq<Trip>, ticket: Ticket, site: nat, who: Assignment, except: Option<nat>): Result {
    if who.pump.None? then PumpRequired
    else if who.operator.None? then PumpOperatorRequired
    else if who.pump.value !in fleet.pumps then PumpNotFound
    else
      var pump := fleet.pumps[who.pump.value];
      if !pump.inService then PumpOutOfService
      else if pump.site != site then PumpOutOfScope
      else if ticket.minReachM.Some? && pump.reachM.None? then PumpReachUnknown
      else if ticket.minReachM.Some? && pump.reachM.value < ticket.minReachM.value then PumpInsufficientReach
      else if PumpTaken(trips, who.pump.value, except) then PumpBusy
      else if who.operator.value !in fleet.crew || fleet.crew[who.operator.value] != CrewMember(Operator, true) then PumpOperatorInvalid
      else if who.assistant.Some? && (who.assistant.value !in fleet.crew || fleet.crew[who.assistant.value] != CrewMember(Helper, true)) then PumpAssistantInvalid
      else if CrewTaken(trips, CrewOf(who), except) then CrewBusy
      else OK
  }

  /** claimTripResources. */
  function ClaimResources(fleet: Fleet, trips: seq<Trip>, ticket: Ticket, site: nat, who: Assignment, except: Option<nat>): Result {
    if who.operator.Some? && who.operator == who.assistant then PumpCrewSamePerson
    else if who.truck !in fleet.trucks then TruckNotFound
    else
      var truck := fleet.trucks[who.truck];
      if !truck.inService then TruckOutOfService
      else if truck.site != site then TruckOutOfScope
      else if ticket.volumeM3 > truck.capacityM3 then TruckCapacityExceeded
      else if TruckTaken(trips, who.truck, except) then TruckBusy
      else if who.driver !in fleet.drivers || !fleet.drivers[who.driver].isDriver then DriverNotFound
      else if !fleet.drivers[who.driver].active then DriverInactive
      else if DriverTaken(trips, who.driver, except) then DriverBusy
      else if !ticket.pumpDelivery then OK
      else ClaimPump(fleet, trips, ticket, site, who, except)
  }

  // ---- What the two claims come to ---------------------------------------------------------

  /** The resources themselves: there, in service, of the site, big enough, in their right roles. */
  predicate Fit(fleet: Fleet, ticket: Ticket, site: nat, who: Assignment) {
    && who.truck in fleet.trucks && fleet.trucks[who.truck].inService && fleet.trucks[who.truck].site == site
    && ticket.volumeM3 <= fleet.trucks[who.truck].capacityM3
    && who.driver in fleet.drivers && fleet.drivers[who.driver] == Driver(true, true)
    && (who.operator.Some? && who.assistant.Some? ==> who.operator != who.assistant)
    && (ticket.pumpDelivery ==>
          && who.pump.Some? && who.pump.value in fleet.pumps
          && fleet.pumps[who.pump.value].inService && fleet.pumps[who.pump.value].site == site
          && (ticket.minReachM.Some? ==>
                fleet.pumps[who.pump.value].reachM.Some? && ticket.minReachM.value <= fleet.pumps[who.pump.value].reachM.value)
          && who.operator.Some? && who.operator.value in fleet.crew && fleet.crew[who.operator.value] == CrewMember(Operator, true)
          && (who.assistant.Some? ==> who.assistant.value in fleet.crew && fleet.crew[who.assistant.value] == CrewMember(Helper, true)))
  }

  /** Two assignments that may be under way at the same time. */
  predicate Disjoint(a: Assignment, b: Assignment) {
    && a.truck != b.truck && a.driver != b.driver
    && (a.pump.Some? ==> a.pump != b.pump)
    && CrewOf(a) !! CrewOf(b)
  }

  /** No other open trip uses anything of this assignment. */
  ghost predicate Free(trips: seq<Trip>, who: Assignment, except: Option<nat>) {
    forall i :: 0 <= i < |trips| && trips[i].status != Closed && except != Some(i) ==> Disjoint(trips[i].who, who)
  }

  lemma FreeMeansNothingTaken(trips: seq<Trip>, who: Assignment, except: Option<nat>)
    ensures Free(trips, who, except) <==>
              && !TruckTaken(trips, who.truck, except) && !DriverTaken(trips, who.driver, except)
              && (who.pump.Some? ==> !PumpTaken(trips, who.pump.value, except))
              && !CrewTaken(trips, CrewOf(who), except)
  {
    forall i | Other(trips, i, except) ensures except != Some(i) {}
    if !Free(trips, who, except) {
      var i :| 0 <= i < |trips| && trips[i].status != Closed && except != Some(i) && !Disjoint(trips[i].who, who);
      assert Other(trips, i, except);
      assert trips[i].who.truck == who.truck || trips[i].who.driver == who.driver
             || (who.pump.Some? && trips[i].who.pump == who.pump) || CrewOf(trips[i].who) * CrewOf(who) != {};
    }
  }

  /** Ids no pump delivery needs count as nothing when a trip is reassigned. */
  function Trimmed(ticket: Ticket, who: Assignment): Assignment {
    if ticket.pumpDelivery then who else Assignment(who.truck, who.driver, None, None, None)
  }

  predicate Dispatched(trips: seq<Trip>, t: nat) {
    exists i :: 0 <= i < |trips| && trips[i].ticket == t
  }

  function StartStep(fleet: Fleet, trips: seq<Trip>, t: nat, ticket: Ticket, who: Assignment, allowed: Option<nat>): (seq<Trip>, Result) {
    var slot := ClaimSlot(trips, ticket, who, allowed);
    if slot != OK then (trips, slot)
    else
      var resources := ClaimResources(fleet, trips, ticket, ticket.site.value, who, None);
      if resources != OK then (trips, resources)
      else if Dispatched(trips, t) then (trips, AlreadyDispatched)
      else (trips + [Trip(t, who, Loading)], OK)
  }

  function ReassignStep(fleet: Fleet, trips: seq<Trip>, i: nat, ticket: Ticket, who: Assignment, allowed: Option<nat>): (seq<Trip>, Result) {
    if i >= |trips| || ticket.site == None then (trips, NotFound)
    else if allowed.Some? && allowed != ticket.site then (trips, NotFound)
    else if trips[i].status != Loading then (trips, NotLoading)
    else
      var resources := ClaimResources(fleet, trips, ticket, ticket.site.value, Trimmed(ticket, who), Some(i));
      if resources != OK then (trips, resources)
      else (trips[i := trips[i].(who := Trimmed(ticket, who))], OK)
  }

  function Next(status: TripStatus): TripStatus {
    match status
    case Loading => InTransit
    case InTransit => OnSite
    case OnSite => Discharging
    case other => other
  }

  /** Advancing needs the caller to know where the trip is; closing takes a discharging one. */
  function AdvanceStep(trips: seq<Trip>, i: nat, expected: TripStatus): seq<Trip> {
    if i >= |trips| || trips[i].status != expected then trips else trips[i := trips[i].(status := Next(expected))]
  }

  function CloseStep(trips: seq<Trip>, i: nat): seq<Trip> {
    if i >= |trips| || trips[i].status != Discharging then trips else trips[i := trips[i].(status := Closed)]
  }

  /** A dispatch goes through exactly when the ticket can go, everything fits, and nothing of it is under way elsewhere. */
  lemma StartsExactlyWhenFree(fleet: Fleet, trips: seq<Trip>, t: nat, ticket: Ticket, who: Assignment, allowed: Option<nat>)
    ensures StartStep(fleet, trips, t, ticket, who, allowed).1 == OK <==>
              && ticket.complete && !ticket.reversed && ticket.site.Some? && (allowed.Some? ==> allowed == ticket.site)
              && Fit(fleet, ticket, ticket.site.value, who) && Free(trips, who, None)
              && forall i :: 0 <= i < |trips| ==> trips[i].ticket != t
  {
    FreeMeansNothingTaken(trips, who, None);
    if CrewOf(who) == {} { assert !CrewTaken(trips, CrewOf(who), None); }
  }

  lemma ReassignsExactlyWhenFree(fleet: Fleet, trips: seq<Trip>, i: nat, ticket: Ticket, who: Assignment, allowed: Option<nat>)
    ensures ReassignStep(fleet, trips, i, ticket, who, allowed).1 == OK <==>
              && i < |trips| && trips[i].status == Loading && ticket.site.Some? && (allowed.Some? ==> allowed == ticket.site)
              && Fit(fleet, ticket, ticket.site.value, Trimmed(ticket, who)) && Free(trips, Trimmed(ticket, who), Some(i))
  {
    var use := Trimmed(ticket, who);
    FreeMeansNothingTaken(trips, use, Some(i));
    if CrewOf(use) == {} { assert !CrewTaken(trips, CrewOf(use), Some(i)); }
  }

  // ---- Runs ------------------------------------------------------------------------------

  /** Fleet and tickets are as each transaction finds them; they may change in any way between two. */
  datatype Event =
    | Start(fleet: Fleet, t: nat, ticket: Ticket, who: Assignment, allowed: Option<nat>)
    | Reassign(fleet: Fleet, i: nat, ticket: Ticket, who: Assignment, allowed: Option<nat>)
    | Advance(i: nat, expected: TripStatus)
    | Close(i: nat)

  function Step(trips: seq<Trip>, e: Event): seq<Trip> {
    match e
    case Start(fleet, t, ticket, who, allowed) => StartStep(fleet, trips, t, ticket, who, allowed).0
    case Reassign(fleet, i, ticket, who, allowed) => ReassignStep(fleet, trips, i, ticket, who, allowed).0
    case Advance(i, expected) => AdvanceStep(trips, i, expected)
    case Close(i) => CloseStep(trips, i)
  }

  function Run(trips: seq<Trip>, es: seq<Event>): seq<Trip>
    decreases |es|
  {
    if es == [] then trips else Run(Step(trips, es[0]), es[1..])
  }

  /** No two open trips share a truck, a driver, a pump or anyone of the crew in either role; nobody is both on one trip; a ticket rides once. */
  ghost predicate Exclusive(trips: seq<Trip>) {
    && (forall i, j :: 0 <= i < j < |trips| && trips[i].status != Closed && trips[j].status != Closed ==> Disjoint(trips[i].who, trips[j].who))
    && (forall i :: 0 <= i < |trips| && trips[i].who.operator.Some? ==> trips[i].who.operator != trips[i].who.assistant)
    && (forall i, j :: 0 <= i < j < |trips| ==> trips[i].ticket != trips[j].ticket)
  }

  lemma DisjointSymmetric(a: Assignment, b: Assignment)
    ensures Disjoint(a, b) <==> Disjoint(b, a)
  {}

  lemma StepKeeps(trips: seq<Trip>, e: Event)
    requires Exclusive(trips)
    ensures Exclusive(Step(trips, e))
  {
    hide Fit, Free, CrewOf;
    match e
    case Start(fleet, t, ticket, who, allowed) =>
      StartsExactlyWhenFree(fleet, trips, t, ticket, who, allowed);
      StartKeeps(trips, t, ticket, who, fleet, allowed);
    case Reassign(fleet, i, ticket, who, allowed) =>
      ReassignKeeps(trips, i, ticket, who, fleet, allowed);
    case _ =>
  }

  lemma StartKeeps(trips: seq<Trip>, t: nat, ticket: Ticket, who: Assignment, fleet: Fleet, allowed: Option<nat>)
    requires Exclusive(trips)
    ensures Exclusive(StartStep(fleet, trips, t, ticket, who, allowed).0)
  {
    hide CrewOf, ClaimSlot, ClaimResources;
    StartsExactlyWhenFree(fleet, trips, t, ticket, who, allowed);
    var trips' := StartStep(fleet, trips, t, ticket, who, allowed).0;
    if trips' != trips {
      forall i | 0 <= i < |trips| && trips[i].status != Closed ensures Disjoint(trips[i].who, who) {
        assert Other(trips, i, None);
      }
    }
  }

  lemma ReassignKeeps(trips: seq<Trip>, k: nat, ticket: Ticket, who: Assignment, fleet: Fleet, allowed: Option<nat>)
    requires Exclusive(trips)
    ensures Exclusive(ReassignStep(fleet, trips, k, ticket, who, allowed).0)
  {
    hide CrewOf, ClaimResources;
    ReassignsExactlyWhenFree(fleet, trips, k, ticket, who, allowed);
    var trips', use := ReassignStep(fleet, trips, k, ticket, who, allowed).0, Trimmed(ticket, who);
    if trips' != trips {
      forall i | 0 <= i < |trips| && i != k && trips[i].status != Closed ensures Disjoint(trips[i].who, use) && Disjoint(use, trips[i].who) {
        assert Other(trips, i, Some(k));
        DisjointSymmetric(trips[i].who, use);
      }
    }
  }

  // ---- Main results ----------------------------------------------------------------------

  /** In every reachable state, whatever happens to fleet and tickets in between. */
  lemma {:induction false} TripsAreExclusive(trips: seq<Trip>, es: seq<Event>)
    requires Exclusive(trips)
    ensures Exclusive(Run(trips, es))
    decreases |es|
  {
    if es != [] {
      StepKeeps(trips, es[0]);
      TripsAreExclusive(Step(trips, es[0]), es[1..]);
    }
  }

  function Rank(status: TripStatus): nat {
    match status case Loading => 0 case InTransit => 1 case OnSite => 2 case Discharging => 3 case Closed => 4
  }

  /** A trip moves on one stage at a time: by an advance of someone who knows its stage, or by the close of a discharging one. */
  lemma StagesInOrder(trips: seq<Trip>, e: Event, i: nat)
    requires i < |trips|
    ensures var moves := (e.Advance? && e.i == i && e.expected == trips[i].status && Rank(trips[i].status) < 3)
                         || (e.Close? && e.i == i && Rank(trips[i].status) == 3);
            i < |Step(trips, e)| && Rank(Step(trips, e)[i].status) == Rank(trips[i].status) + (if moves then 1 else 0)
  {
    hide ClaimSlot, ClaimResources;
  }

  /** A trip that has left keeps its assignment for good, and no trip ever goes back. */
  lemma {:induction false} AssignmentFrozenAfterLoading(trips: seq<Trip>, es: seq<Event>, i: nat)
    requires i < |trips|
    ensures i < |Run(trips, es)| && Run(trips, es)[i].ticket == trips[i].ticket
    ensures Rank(trips[i].status) <= Rank(Run(trips, es)[i].status)
    ensures trips[i].status != Loading ==> Run(trips, es)[i].who == trips[i].who
    decreases |es|
  {
    hide ClaimSlot, ClaimResources;
    if es != [] { AssignmentFrozenAfterLoading(Step(trips, es[0]), es[1..], i); }
  }

  predicate HasCrew(who: Assignment, person: nat) {
    who.operator == Some(person) || who.assistant == Some(person)
  }

  /** Both name one truck, one driver, one pump, or one person for either place of the crew. */
  ghost predicate Share(a: Assignment, b: Assignment) {
    || a.truck == b.truck || a.driver == b.driver || (a.pump.Some? && a.pump == b.pump)
    || exists person :: HasCrew(a, person) && HasCrew(b, person)
  }

  lemma SharingIsNotDisjoint(a: Assignment, b: Assignment)
    ensures Share(a, b) <==> !Disjoint(a, b)
  {
    forall person ensures HasCrew(a, person) <==> person in CrewOf(a) {}
    forall person ensures HasCrew(b, person) <==> person in CrewOf(b) {}
  }

  /** Trip i is under way with this assignment. */
  predicate UnderWay(trips: seq<Trip>, i: nat, who: Assignment) {
    i < |trips| && trips[i].status != Closed && trips[i].who == who
  }

  /** What a dispatch puts on the board: one trip more, under way with everything that was asked for. */
  lemma DispatchBooksAll(fleet: Fleet, trips: seq<Trip>, t: nat, ticket: Ticket, who: Assignment, allowed: Option<nat>)
    ensures var (trips', r) := StartStep(fleet, trips, t, ticket, who, allowed);
            && (r == OK ==>
                  && |trips'| == |trips| + 1 && trips <= trips' && trips'[|trips|].ticket == t && trips'[|trips|].status == Loading
                  && UnderWay(trips', |trips|, who))
            && (r != OK ==> trips' == trips)
  {
    hide ClaimSlot, ClaimResources, Dispatched;
  }

  /** A reassignment puts the trip under way with what was asked for: pump and crew for a pump delivery only. */
  lemma ReassignmentBooksAll(fleet: Fleet, trips: seq<Trip>, i: nat, ticket: Ticket, who: Assignment, allowed: Option<nat>)
    ensures var (trips', r) := ReassignStep(fleet, trips, i, ticket, who, allowed);
            && (r == OK ==>
                  && |trips'| == |trips| && i < |trips| && trips'[i].ticket == trips[i].ticket && trips'[i].status == trips[i].status
                  && UnderWay(trips', i, if ticket.pumpDelivery then who else Assignment(who.truck, who.driver, None, None, None))
                  && forall j :: 0 <= j < |trips| && j != i ==> trips'[j] == trips[j])
            && (r != OK ==> trips' == trips)
  {
    hide ClaimResources;
  }

  lemma {:induction false} StaysUnderWay(trips: seq<Trip>, es: seq<Event>, i: nat, who: Assignment)
    requires UnderWay(trips, i, who)
    requires forall k :: 0 <= k < |es| && (es[k].Reassign? || es[k].Close?) ==> es[k].i != i
    ensures UnderWay(Run(trips, es), i, who)
    decreases |es|
  {
    hide ClaimSlot, ClaimResources;
    if es != [] {
      assert forall k :: 0 <= k < |es[1..]| ==> es[1..][k] == es[k + 1];
      StaysUnderWay(Step(trips, es[0]), es[1..], i, who);
    }
  }

  /**
   Booked is booked. Once trip i is under way, and until it is closed or itself
   reassigned, no dispatch that names any of what it uses goes through, and no
   reassignment of another trip does.
   */
  lemma NothingBookedTwice(trips: seq<Trip>, es: seq<Event>, i: nat, who: Assignment,
                           fleet: Fleet, ticket: Ticket, asked: Assignment, allowed: Option<nat>)
    requires UnderWay(trips, i, who)
    requires forall k :: 0 <= k < |es| && (es[k].Reassign? || es[k].Close?) ==> es[k].i != i
    ensures var now := Run(trips, es);
            && (Share(who, asked) ==> forall t :: StartStep(fleet, now, t, ticket, asked, allowed).1 != OK)
            && (Share(who, asked) && ticket.pumpDelivery ==>
                  forall j: nat :: j != i ==> ReassignStep(fleet, now, j, ticket, asked, allowed).1 != OK)
            && (who.truck == asked.truck || who.driver == asked.driver ==>
                  forall j: nat :: j != i ==> ReassignStep(fleet, now, j, ticket, asked, allowed).1 != OK)
  {
    hide Fit, StartStep, ReassignStep, Dispatched, Share, CrewOf;
    StaysUnderWay(trips, es, i, who);
    var now := Run(trips, es);
    forall t | Share(who, asked) ensures StartStep(fleet, now, t, ticket, asked, allowed).1 != OK {
      StartsExactlyWhenFree(fleet, now, t, ticket, asked, allowed);
      SharingIsNotDisjoint(who, asked);
      assert Other(now, i, None);
    }
    var use := Trimmed(ticket, asked);
    forall j: nat | j != i && ((Share(who, asked) && ticket.pumpDelivery) || who.truck == asked.truck || who.driver == asked.driver)
      ensures ReassignStep(fleet, now, j, ticket, asked, allowed).1 != OK
    {
      ReassignsExactlyWhenFree(fleet, now, j, ticket, asked, allowed);
      SharingIsNotDisjoint(who, use);
      assert Other(now, i, Some(j));
      assert !Disjoint(who, use);
    }
  }

  /** The trips table. */
  class TripBoard {
    var trips: seq<Trip>

    method StartTripForTicket(fleet: Fleet, t: nat, ticket: Ticket, who: Assignment, allowed: Option<nat>) returns (r: Result)
      modifies this
      ensures (trips, r) == StartStep(fleet, old(trips), t, ticket, who, allowed)
      ensures old(Exclusive(trips)) ==> Exclusive(trips)
    {
      if Exclusive(trips) { StartKeeps(trips, t, ticket, who, fleet, allowed); }
      r := ClaimSlot(trips, ticket, who, allowed);
      if r != OK { return; }
      r := ClaimResources(fleet, trips, ticket, ticket.site.value, who, None);
      if r != OK { return; }
      if Dispatched(trips, t) { return AlreadyDispatched; }
      trips := trips + [Trip(t, who, Loading)];
    }
  
    method ReassignTrip(fleet: Fleet, i: nat, ticket: Ticket, who: Assignment, allowed: Option<nat>) returns (r: Result)
      modifies this
      ensures (trips, r) == ReassignStep(fleet, old(trips), i, ticket, who, allowed)
      ensures old(Exclusive(trips)) ==> Exclusive(trips)
    {
      if Exclusive(trips) { ReassignKeeps(trips, i, ticket, who, fleet, allowed); }
      if i >= |trips| || ticket.site == None || (allowed.Some? && allowed != ticket.site) { return NotFound; }
      if trips[i].status != Loading { return NotLoading; }
      r := ClaimResources(fleet, trips, ticket, ticket.site.value, Trimmed(ticket, who), Some(i));
      if r == OK { trips := trips[i := trips[i].(who := Trimmed(ticket, who))]; }
    }
  }
}
